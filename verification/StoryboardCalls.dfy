/** What each storyboard operation does to the history, the budget and the queue, by cases. */
module StoryboardCalls {
  import opened Common
  import opened Storyboard
  import Q = TaskQueue
  import L = QueueLeases

  /** The version under way: the next one after the history. */
  predicate Budgeted(j: Job) {
    j.attemptVersion == Some(|j.boards| + 1)
  }

  /** The job waits for this new task, which is in the queue at the job's priority. */
  ghost predicate Requeued(w: World, t: World, id: nat, now: int) {
    && t.job.status.Queued? && t.job.task == Some(id)
    && L.Queued(t.queue, Q.Item(id, w.job.priority, now, None))
    && t.job.boards == w.job.boards && t.job.active == w.job.active && t.job.revision == w.job.revision
    && t.job.priority == w.job.priority && t.limit == w.limit
  }

  lemma EnqueueTells(w: World, revision: Option<string>, id: nat, now: int)
    requires w.job.boards == [] || w.job.boards[|w.job.boards| - 1].version == |w.job.boards|
    ensures var t := Enqueue(w, revision, id, now);
      && Requeued(w, t, id, now) && Budgeted(t.job)
      && (if Budgeted(w.job) then t.job.attempt == w.job.attempt && t.job.pinned == w.job.pinned
          else t.job.attempt == 0 && t.job.pinned == if revision.Some? then revision else w.job.revision)
      && forall x :: L.Queued(w.queue, x) ==> L.Queued(t.queue, x)
  {
    var item := Q.Item(id, w.job.priority, now, None);
    forall x ensures L.Queued(Q.Enqueue(w.queue, item), x) <==> x == item || L.Queued(w.queue, x) {
      L.EnqueueHolds(w.queue, item, x);
    }
    hide Q.Enqueue, L.Queued;
  }

  /**
   Queueing a storyboard: the first attempt at a version starts its budget and pins the revision
   wanted, or else the job's; queueing the same version again keeps both.
   */
  lemma GenerateMeaning(w: World, revision: Option<string>, id: nat, now: int)
    requires Inv(w)
    ensures var t := Step(w, Generate(revision, id, now));
      && Requeued(w, t, id, now) && Budgeted(t.job)
      && (if Budgeted(w.job) then t.job.attempt == w.job.attempt && t.job.pinned == w.job.pinned
          else t.job.attempt == 0 && t.job.pinned == if revision.Some? then revision else w.job.revision)
  {
    EnqueueTells(w, revision, id, now);
    hide Requeued, Enqueue;
  }

  /** The verdicts after a new version arrived: what was pending is superseded, the rest as it was. */
  ghost predicate Appended(w: World, t: World) {
    var n := |w.job.boards|;
    && |t.job.boards| == n + 1 && t.job.boards[n] == Board(n + 1, PendingApproval)
    && forall i :: 0 <= i < n ==>
         && t.job.boards[i].version == w.job.boards[i].version
         && t.job.boards[i].verdict ==
              if w.job.boards[i].verdict.PendingApproval? then Superseded else w.job.boards[i].verdict
  }

  /**
   A result counts only for the job's own task and from the task's holder. A failure spends an
   attempt and requeues under the pinned revision while fewer than the limit are spent, and fails
   the job otherwise; a storyboard is taken only for the very next version, which then awaits approval.
   */
  lemma ResultMeaning(w: World, task: nat, admitted: bool, outcome: Outcome, id: nat, now: int)
    requires Inv(w)
    ensures var t := Step(w, Result(task, admitted, outcome, id, now));
      if w.job.task != Some(task) || !admitted || outcome.Malformed? then t == w
      else if outcome.Failure? then
        && t.job.attempt == w.job.attempt + 1 && t.job.pinned == w.job.pinned
        && if t.job.attempt < w.limit then Requeued(w, t, id, now)
           else t == w.(job := w.job.(attempt := w.job.attempt + 1, status := Failed))
      else if outcome.version != |w.job.boards| + 1 then t == w
      else
        && Appended(w, t)
        && t == w.(job := w.job.(boards := t.job.boards, active := Some(|w.job.boards| + 1), task := None,
                                 status := AwaitingApproval))
  {
    hide Enqueue, Q.Enqueue, L.Queued;
    assert !Stale(w.job);
    var spent := w.(job := w.job.(attempt := w.job.attempt + 1));
    EnqueueTells(spent, w.job.pinned, id, now);
  }

  /** The version can be decided: it is the last one, and nobody decided it yet. */
  predicate Open(j: Job, version: nat) {
    && j.boards != [] && version == |j.boards| && j.boards[version - 1].verdict.PendingApproval?
  }

  /** Only the verdict of this version and the job's status changed. */
  predicate Decided(w: World, t: World, version: nat, verdict: Verdict, status: Status)
    requires 0 < version <= |w.job.boards|
  {
    t == w.(job := w.job.(boards := w.job.boards[version - 1 := Board(version, verdict)], status := status))
  }

  lemma {:induction false} FindIsIndex(boards: seq<Board>, first: nat, version: nat)
    requires forall i :: 0 <= i < |boards| ==> boards[i].version == first + i
    ensures Find(boards, version) == if first <= version < first + |boards| then version - first else |boards|
  {
    if boards != [] && boards[0].version != version { FindIsIndex(boards[1..], first + 1, version); }
  }

  lemma DecidingMeaning(w: World, version: nat)
    requires Inv(w)
    ensures Deciding(w.job, version) == if Open(w.job, version) then Some(version - 1) else None
  {
    FindIsIndex(w.job.boards, 1, version);
  }

  /** Approval: of the open version only, and only with its images approved. */
  lemma ApprovalMeaning(w: World, version: nat, imagesApproved: bool)
    requires Inv(w)
    ensures var t := Step(w, Approval(version, imagesApproved));
      if Open(w.job, version) && imagesApproved then Decided(w, t, version, Approved, Accepted) else t == w
  {
    DecidingMeaning(w, version);
    hide Deciding;
  }

  /** Rejection: of the open version only. */
  lemma RejectionMeaning(w: World, version: nat)
    requires Inv(w)
    ensures var t := Step(w, Rejection(version));
      if Open(w.job, version) then Decided(w, t, version, Rejected, Declined) else t == w
  {
    DecidingMeaning(w, version);
    hide Deciding;
  }

  /** Regeneration: the open version is superseded and the next one queued, under a fresh budget. */
  lemma RegenerationMeaning(w: World, version: nat, revision: Option<string>, id: nat, now: int)
    requires Inv(w)
    ensures var t := Step(w, Regeneration(version, revision, id, now));
      if Open(w.job, version) then
        && t.job.boards == w.job.boards[version - 1 := Board(version, Superseded)]
        && t.job.status.Queued? && t.job.task == Some(id) && t.job.active == w.job.active
        && L.Queued(t.queue, Q.Item(id, w.job.priority, now, None))
        && (!Budgeted(w.job) ==>
              t.job.attempt == 0 && t.job.pinned == if revision.Some? then revision else w.job.revision)
      else t == w
  {
    hide Enqueue, Q.Enqueue, L.Queued;
    DecidingMeaning(w, version);
    hide Deciding;
    if Open(w.job, version) {
      var d := Decide(w, version - 1, Superseded, RevisionRequested);
      EnqueueTells(d, revision, id, now);
    }
  }

  /**
   A branch from history: from any version that was decided, or the active one if none is named; an
   approved one is superseded, and the next version queued under a fresh budget and revision.
   */
  lemma BranchMeaning(w: World, version: nat, revision: Option<string>, id: nat, now: int)
    requires Inv(w)
    ensures var (t, ok) := Branch(w, version, revision, id, now);
      var selected := if version != 0 then version else |w.job.boards|;
      && (ok <==> 0 < selected <= |w.job.boards| && !w.job.boards[selected - 1].verdict.PendingApproval?)
      && (!ok ==> t == w)
      && (ok ==>
            && t.job.boards == (if w.job.boards[selected - 1].verdict.Approved?
                                then w.job.boards[selected - 1 := Board(selected, Superseded)] else w.job.boards)
            && t.job.attempt == 0 && Budgeted(t.job)
            && t.job.pinned == (if revision.Some? then revision else w.job.revision)
            && t.job.status.Queued? && t.job.task == Some(id)
            && L.Queued(t.queue, Q.Item(id, w.job.priority, now, None)))
  {
    hide Enqueue, Q.Enqueue, L.Queued;
    var j := w.job;
    var selected := if version != 0 then version else if j.active.Some? then j.active.value else 0;
    FindIsIndex(j.boards, 1, selected);
    hide Find;
    if 0 < selected <= |j.boards| && !j.boards[selected - 1].verdict.PendingApproval? {
      var k := if j.boards[selected - 1].verdict.Approved?
               then j.(boards := j.boards[selected - 1 := j.boards[selected - 1].(verdict := Superseded)]) else j;
      EnqueueTells(w.(job := k.(status := RevisionRequested, attemptVersion := None)), revision, id, now);
    }
  }

  /** Only the budget, the status and the task of the job moved, and at most the queue besides. */
  predicate SpentOne(w: World, t: World, status: Status, task: Option<nat>) {
    && t.limit == w.limit
    && t.job == w.job.(attempt := w.job.attempt + 1, attemptVersion := Some(Next(w.job)), status := status,
                       task := task)
  }

  /**
   A lost lease counts only for the task of a job being generated: it spends one attempt and
   requeues while fewer than the limit are spent, else fails the job; the pinned revision stays.
   */
  lemma LostLeaseMeaning(w: World, lost: Q.Item, id: nat, now: int)
    requires Inv(w)
    ensures var t := Step(w, Expired(lost, id, now));
      if !w.job.status.Generating? || w.job.task != Some(lost.id) then t == w
      else if w.job.attempt + 1 < w.limit then
        SpentOne(w, t, Queued, Some(id)) && L.Queued(t.queue, Q.Item(id, w.job.priority, now, None))
      else SpentOne(w, t, Failed, None)
  {
    var q, item := Q.Discard(w.queue, lost.id), Q.Item(id, w.job.priority, now, None);
    L.EnqueueHolds(q, item, item);
    hide Q.Enqueue, Q.Discard, Q.DeadLetter, L.Queued;
  }

  /** The same for a lost worker, of a job queued or being generated; a queued one is not queued again. */
  lemma LostWorkerMeaning(w: World, lost: Q.Item, id: nat, now: int)
    requires Inv(w)
    ensures var t := Step(w, WorkerLost(lost, id, now));
      if !(w.job.status.Queued? || w.job.status.Generating?) || w.job.task != Some(lost.id) then t == w
      else if w.job.attempt + 1 >= w.limit then SpentOne(w, t, Failed, None)
      else if w.job.status.Queued? then SpentOne(w, t, Queued, None)
      else SpentOne(w, t, Queued, Some(id)) && L.Queued(t.queue, Q.Item(id, w.job.priority, now, None))
  {
    var q, item := Q.Discard(w.queue, lost.id), Q.Item(id, w.job.priority, now, None);
    L.EnqueueHolds(q, item, item);
    hide Q.Enqueue, Q.Discard, Q.DeadLetter, L.Queued;
  }
}
