/**
 Storyboard versions and their retry budget: core/storyboard.py together with the lease-expiry
 handler of core/runtime.py and the loss of a worker's heartbeat in core/api/job_helpers.py.
 Three code paths, a failed result, a lost lease and a lost worker, spend one budget.
 */
module Storyboard {
  import opened Common
  import Q = TaskQueue

  datatype Verdict = PendingApproval | Approved | Superseded | Rejected

  datatype Board = Board(version: nat, verdict: Verdict)

  datatype Status =
    | Queued | Generating | AwaitingApproval | Accepted | Declined | RevisionRequested | Failed | Elsewhere

  /** The storyboard fields of a Job. */
  datatype Job = Job(
    boards: seq<Board>, active: Option<nat>, task: Option<nat>, status: Status,
    attempt: nat, attemptVersion: Option<nat>,
    revision: Option<string>, pinned: Option<string>, priority: int)

  /** The job, the task queue and the retry limit N = max(1, configured). */
  datatype World = World(job: Job, queue: Q.Queue, limit: nat)

  /** The version the next storyboard will get. */
  function Next(j: Job): nat {
    if j.boards == [] then 1 else j.boards[|j.boards| - 1].version + 1
  }

  /** `queue`: the budget belongs to a version; a retry of the same version keeps burning it. */
  function Enqueue(w: World, revision: Option<string>, id: nat, now: int): World {
    var j := w.job;
    var k := if j.attemptVersion == Some(Next(j)) then j
             else j.(attempt := 0, attemptVersion := Some(Next(j)),
                     pinned := if revision.Some? then revision else j.revision);
    w.(job := k.(status := Queued, task := Some(id)),
       queue := Q.Enqueue(w.queue, Q.Item(id, j.priority, now, None)))
  }

  datatype Outcome =
    | Failure                         // the worker reported an error
    | Malformed                       // raised before any change
    | Artifact(version: int)          // a well-formed storyboard for this version

  function Supersede(boards: seq<Board>): seq<Board> {
    seq(|boards|, i requires 0 <= i < |boards| =>
      if boards[i].verdict.PendingApproval? then boards[i].(verdict := Superseded) else boards[i])
  }

  /** The active version is not the last one: a stale result. */
  predicate Stale(j: Job) {
    j.active.Some? && (j.boards == [] || j.active.value != j.boards[|j.boards| - 1].version)
  }

  /** `handle_result`; `admitted` says that the sender holds the claim and the result is not a cancelled one. */
  function HandleResult(w: World, task: nat, admitted: bool, outcome: Outcome, id: nat, now: int): World {
    var j := w.job;
    if j.task != Some(task) || !admitted || Stale(j) then w
    else match outcome
      case Failure =>
        var spent := w.(job := j.(attempt := j.attempt + 1));
        if j.attempt + 1 < w.limit then Enqueue(spent, j.pinned, id, now)
        else spent.(job := spent.job.(status := Failed))
      case Malformed => w
      case Artifact(version) =>
        if version != Next(j) then w
        else w.(job := j.(boards := Supersede(j.boards) + [Board(version, PendingApproval)],
                          active := Some(version), task := None, status := AwaitingApproval))
  }

  /** `handle_expired_storyboard_lease` */
  function LeaseExpired(w: World, task: Q.Item, id: nat, now: int): World {
    var j := w.job;
    if !j.status.Generating? || j.task != Some(task.id) then w
    else
      var q := Q.Discard(w.queue, task.id);
      var spent := j.(attempt := j.attempt + 1);
      if j.attempt + 1 < w.limit then
        w.(job := spent.(status := Queued, task := Some(id), attemptVersion := Some(Next(j))),
           queue := Q.Enqueue(q, Q.Item(id, j.priority, now, None)))
      else
        w.(job := spent.(status := Failed, task := None), queue := Q.DeadLetter(q, task))
  }

  /**
   The worker that held the task stopped reporting. A job still marked queued may not be queued
   again, so there the replacement is refused after the attempt was spent.
   */
  function HeartbeatLost(w: World, task: Q.Item, id: nat, now: int): World {
    var j := w.job;
    if j.task != Some(task.id) || !(j.status.Queued? || j.status.Generating?) then w
    else
      var spent := j.(attempt := j.attempt + 1, attemptVersion := Some(Next(j)), task := None);
      var u := w.(job := spent, queue := Q.Discard(w.queue, task.id));
      if j.attempt + 1 < w.limit then
        if j.status.Generating? then Enqueue(u, j.pinned, id, now) else u
      else u.(job := spent.(status := Failed), queue := Q.DeadLetter(u.queue, task))
  }

  /** The index of a version in the history; |boards| when absent. */
  function Find(boards: seq<Board>, version: nat): (i: nat)
    ensures i <= |boards|
    ensures i < |boards| ==> boards[i].version == version
    ensures forall k :: 0 <= k < i ==> boards[k].version != version
  {
    if boards == [] || boards[0].version == version then 0 else 1 + Find(boards[1..], version)
  }

  /** `_active`: the version under decision, if it is the active one and still pending. */
  function Deciding(j: Job, version: nat): Option<nat> {
    if j.active != Some(version) then None
    else
      var i := Find(j.boards, version);
      if i < |j.boards| && j.boards[i].verdict.PendingApproval? then Some(i) else None
  }

  function Decide(w: World, i: nat, verdict: Verdict, status: Status): World
    requires i < |w.job.boards|
  {
    w.(job := w.job.(boards := w.job.boards[i := w.job.boards[i].(verdict := verdict)], status := status))
  }

  function Approve(w: World, version: nat, imagesApproved: bool): World {
    var i := Deciding(w.job, version);
    if i.None? || !imagesApproved then w else Decide(w, i.value, Approved, Accepted)
  }

  function Reject(w: World, version: nat): World {
    var i := Deciding(w.job, version);
    if i.None? then w else Decide(w, i.value, Rejected, Declined)
  }

  function Regenerate(w: World, version: nat, revision: Option<string>, id: nat, now: int): World {
    var i := Deciding(w.job, version);
    if i.None? then w else Enqueue(Decide(w, i.value, Superseded, RevisionRequested), revision, id, now)
  }

  /** `regenerate_from_history`; version 0 stands for the active one. */
  function Branch(w: World, version: nat, revision: Option<string>, id: nat, now: int): (World, bool) {
    var j := w.job;
    var selected := if version != 0 then version else if j.active.Some? then j.active.value else 0;
    var i := Find(j.boards, selected);
    if i == |j.boards| || j.boards[i].verdict.PendingApproval? then (w, false)
    else
      var k := if j.boards[i].verdict.Approved? then j.(boards := j.boards[i := j.boards[i].(verdict := Superseded)])
          else j;
      (Enqueue(w.(job := k.(status := RevisionRequested, attemptVersion := None)), revision, id, now), true)
  }

  datatype Event =
    | Generate(revision: Option<string>, id: nat, now: int)
    | Result(task: nat, admitted: bool, outcome: Outcome, id: nat, now: int)
    | Expired(lost: Q.Item, id: nat, now: int)
    | Approval(version: nat, imagesApproved: bool)
    | Rejection(version: nat)
    | Regeneration(version: nat, revision: Option<string>, id: nat, now: int)
    | History(version: nat, revision: Option<string>, id: nat, now: int)
    | QueueEvent(event: Q.Event)                         // any other use of the queue
    | WorkerLost(lost: Q.Item, id: nat, now: int)
    // other parts of CORE move the job along, or drop its task
    | Elsewise(status: Status, revision: Option<string>, dropped: bool)

  function Step(w: World, e: Event): World {
    match e
    case Generate(revision, id, now) => Enqueue(w, revision, id, now)
    case Result(task, admitted, outcome, id, now) => HandleResult(w, task, admitted, outcome, id, now)
    case Expired(lost, id, now) => LeaseExpired(w, lost, id, now)
    case Approval(version, imagesApproved) => Approve(w, version, imagesApproved)
    case Rejection(version) => Reject(w, version)
    case Regeneration(version, revision, id, now) => Regenerate(w, version, revision, id, now)
    case History(version, revision, id, now) => Branch(w, version, revision, id, now).0
    case QueueEvent(event) => w.(queue := Q.Step(w.queue, event))
    case WorkerLost(lost, id, now) => HeartbeatLost(w, lost, id, now)
    case Elsewise(status, revision, dropped) =>
      w.(job := w.job.(status := status, revision := revision, task := if dropped then None else w.job.task))
  }

  // ------------------------------------------------------------------ the version history

  ghost predicate Inv(w: World) {
    var j := w.job;
    && (forall i :: 0 <= i < |j.boards| ==> j.boards[i].version == i + 1)
    && (forall i :: 0 <= i < |j.boards| - 1 ==> !j.boards[i].verdict.PendingApproval?)
    && j.active == (if j.boards == [] then None else Some(|j.boards|))
    && (j.task.Some? ==> j.attemptVersion == Some(Next(j)))
    && w.limit >= 1
  }

  /** Queueing pins the budget to the next version, so a waiting task always burns that one. */
  lemma EnqueueInv(w: World, revision: Option<string>, id: nat, now: int)
    requires Inv(w.(job := w.job.(task := None)))
    ensures Inv(Enqueue(w, revision, id, now))
  {
    hide Q.Enqueue;
  }

  lemma ResultInv(w: World, task: nat, admitted: bool, outcome: Outcome, id: nat, now: int)
    requires Inv(w)
    ensures Inv(HandleResult(w, task, admitted, outcome, id, now))
  {
    hide Enqueue;
    var spent := w.(job := w.job.(attempt := w.job.attempt + 1));
    EnqueueInv(spent, w.job.pinned, id, now);
  }

  lemma RegenerateInv(w: World, version: nat, revision: Option<string>, id: nat, now: int)
    requires Inv(w)
    ensures Inv(Regenerate(w, version, revision, id, now))
  {
    hide Enqueue;
    var i := Deciding(w.job, version);
    if i.Some? { EnqueueInv(Decide(w, i.value, Superseded, RevisionRequested), revision, id, now); }
  }

  lemma BranchInv(w: World, version: nat, revision: Option<string>, id: nat, now: int)
    requires Inv(w)
    ensures Inv(Branch(w, version, revision, id, now).0)
  {
    hide Enqueue;
    var j := w.job;
    var selected := if version != 0 then version else if j.active.Some? then j.active.value else 0;
    var i := Find(j.boards, selected);
    if i < |j.boards| && !j.boards[i].verdict.PendingApproval? {
      var k := if j.boards[i].verdict.Approved? then j.(boards := j.boards[i := j.boards[i].(verdict := Superseded)])
          else j;
      EnqueueInv(w.(job := k.(status := RevisionRequested, attemptVersion := None)), revision, id, now);
    }
  }

  lemma WorkerInv(w: World, lost: Q.Item, id: nat, now: int)
    requires Inv(w)
    ensures Inv(HeartbeatLost(w, lost, id, now))
  {
    hide Enqueue, Q.Discard, Q.DeadLetter;
    var j := w.job;
    var spent := j.(attempt := j.attempt + 1, attemptVersion := Some(Next(j)), task := None);
    EnqueueInv(w.(job := spent, queue := Q.Discard(w.queue, lost.id)), j.pinned, id, now);
  }

  lemma StepInv(w: World, e: Event)
    requires Inv(w)
    ensures Inv(Step(w, e))
  {
    hide Q.Step, Q.Enqueue, Q.Discard, Q.DeadLetter, Enqueue, HandleResult, Regenerate, Branch, HeartbeatLost;
    match e
    case Generate(revision, id, now) => EnqueueInv(w, revision, id, now);
    case Result(task, admitted, outcome, id, now) => ResultInv(w, task, admitted, outcome, id, now);
    case Regeneration(version, revision, id, now) => RegenerateInv(w, version, revision, id, now);
    case History(version, revision, id, now) => BranchInv(w, version, revision, id, now);
    case WorkerLost(lost, id, now) => WorkerInv(w, lost, id, now);
    case _ =>
  }

  ghost predicate IsRun(tr: seq<World>, es: seq<Event>) {
    && |tr| == |es| + 1 && tr[0].limit >= 1
    && tr[0].job.boards == [] && tr[0].job.active.None? && tr[0].job.task.None?
    && forall k :: 0 <= k < |es| ==> tr[k + 1] == Step(tr[k], es[k])
  }

  /**
   In every run the history numbers its versions 1..n without a gap, only the last version can
   be pending approval, and the active version is the last.
   */
  lemma {:induction false} HistoryHasNoGaps(tr: seq<World>, es: seq<Event>, n: nat)
    requires IsRun(tr, es) && n < |tr|
    ensures Inv(tr[n])
  {
    hide Step;
    if n > 0 {
      HistoryHasNoGaps(tr, es, n - 1);
      StepInv(tr[n - 1], es[n - 1]);
    }
  }

  /** History is immutable: a step only appends, or changes the verdict of a version. */
  lemma HistoryOnlyGrows(w: World, e: Event)
    requires Inv(w)
    ensures var t := Step(w, e);
      && |w.job.boards| <= |t.job.boards| <= |w.job.boards| + 1
      && (forall i :: 0 <= i < |w.job.boards| ==> t.job.boards[i].version == w.job.boards[i].version)
      && (|t.job.boards| > |w.job.boards| ==>
            e.Result? && e.admitted && w.job.task == Some(e.task) &&
                t.job.boards[|w.job.boards|].version == Next(w.job))
  {
    hide Q.Step, Q.Enqueue, Q.Discard, Q.DeadLetter, Enqueue;
    forall v: World, revision, id, now ensures Enqueue(v, revision, id, now).job.boards == v.job.boards {
      EnqueueBoards(v, revision, id, now);
    }
  }

  lemma EnqueueBoards(w: World, revision: Option<string>, id: nat, now: int)
    ensures Enqueue(w, revision, id, now).job.boards == w.job.boards
  {
    hide Q.Enqueue;
  }

  // ------------------------------------------------------------------ the retry budget

  /** The step requeues the task by itself, after a failed result, a lost lease or a lost worker. */
  predicate Automatic(w: World, e: Event) {
    match e
    case Result(task, admitted, outcome, id, now) =>
      w.job.task == Some(task) && admitted && !Stale(w.job) && outcome.Failure? && w.job.attempt + 1 < w.limit
    case Expired(lost, id, now) =>
      w.job.status.Generating? && w.job.task == Some(lost.id) && w.job.attempt + 1 < w.limit
    case WorkerLost(lost, id, now) =>
      w.job.status.Generating? && w.job.task == Some(lost.id) && w.job.attempt + 1 < w.limit
    case _ => false
  }

  /** An explicit branch from history, which starts a fresh budget. */
  predicate Branches(w: World, e: Event) {
    e.History? && Branch(w, e.version, e.revision, e.id, e.now).1
  }

  /** Attempts already spent on the version being generated. */
  function Spent(j: Job): nat {
    if j.attemptVersion == Some(Next(j)) then j.attempt else 0
  }

  lemma SpentStep(w: World, e: Event)
    requires Inv(w) && !Branches(w, e) && Next(Step(w, e).job) == Next(w.job)
    ensures var t := Step(w, e);
      && Spent(t.job) >= Spent(w.job) && t.limit == w.limit
      && (Automatic(w, e) ==> Spent(t.job) == Spent(w.job) + 1 < w.limit && t.job.task == Some(e.id))
  {
    hide Q.Step, Q.Enqueue, Q.Discard, Q.DeadLetter;
  }

  function Automatics(tr: seq<World>, es: seq<Event>, m: nat, n: nat): nat
    requires m <= n <= |es| <= |tr|
  {
    if m == n then 0 else Automatics(tr, es, m, n - 1) + if Automatic(tr[n - 1], es[n - 1]) then 1 else 0
  }

  /**
   While one version is being generated, failed results, lost leases and lost workers together
   cause at most N - 1 automatic requeues, in any run without an explicit history branch.
   */
  lemma {:induction false} BudgetHolds(tr: seq<World>, es: seq<Event>, m: nat, n: nat)
    requires IsRun(tr, es) && m <= n <= |es|
    requires forall k :: m <= k < n ==> !Branches(tr[k], es[k]) && Next(tr[k + 1].job) == Next(tr[k].job)
    ensures Automatics(tr, es, m, n) <= tr[n].limit - 1
    ensures Automatics(tr, es, m, n) + Spent(tr[m].job) <= Spent(tr[n].job)
    ensures tr[n].limit == tr[m].limit && Next(tr[n].job) == Next(tr[m].job)
    decreases n - m
  {
    hide Step, Automatic, Branches;
    HistoryHasNoGaps(tr, es, n);
    if m < n {
      var k := n - 1;
      BudgetHolds(tr, es, m, k);
      HistoryHasNoGaps(tr, es, k);
      assert !Branches(tr[k], es[k]) && Next(tr[k + 1].job) == Next(tr[k].job);
      SpentStep(tr[k], es[k]);
    }
  }

  /** A branch really restarts the budget, and retries reuse the revision pinned at its start. */
  lemma BudgetRestartsAndPins(w: World, e: Event)
    requires Inv(w)
    ensures Branches(w, e) ==> Spent(Step(w, e).job) == 0 && Step(w, e).job.task == Some(e.id)
    ensures Automatic(w, e) ==> Step(w, e).job.pinned == w.job.pinned
  {
    hide Q.Step, Q.Enqueue, Q.Discard, Q.DeadLetter;
  }

  // ------------------------------------------------------------------ the lost lease and the queue

  /**
   The expiry handler leaves the expired task neither ready nor in flight, keeps every task in
   exactly one place, and the replacement, if any, is the job's one runnable task.
   */
  lemma ExpiryClearsTheQueue(w: World, lost: Q.Item, id: nat, now: int)
    requires Inv(w) && Q.Inv(w.queue) && id !in w.queue.issued
    requires lost.id in w.queue.issued && !Q.IsDead(w.queue, lost.id)
    requires w.job.status.Generating? && w.job.task == Some(lost.id)
    ensures var t := LeaseExpired(w, lost, id, now);
      && Q.Inv(t.queue) && !Q.IsReady(t.queue, lost.id) && lost.id !in t.queue.inflight
      && (if Automatic(w, Expired(lost, id, now)) then t.job.task == Some(id) && Q.IsReady(t.queue, id)
          else t.job.task.None? && t.job.status.Failed? && Q.IsDead(t.queue, lost.id))
  {
    var q := Q.Discard(w.queue, lost.id);
    Q.DiscardMeaning(w.queue, lost.id);
    assert q.issued == w.queue.issued && q.dead == w.queue.dead;
    Q.SamePlaces(w.queue, q, lost.id);
    if w.job.attempt + 1 < w.limit {
      var item := Q.Item(id, w.job.priority, now, None);
      assert Q.Places(q, id) == 0;
      Q.EnqueueInv(q, item);
      Q.EnqueueMeaning(q, item);
    } else {
      Q.BuryExact(q, lost);
      var r := Q.DeadLetter(q, lost);
      assert r.dead[|q.dead|] == lost;
      Q.SameReady(q, r, lost.id);
    }
  }

  /** So does the loss of the worker, while the job is generating. */
  lemma WorkerLossClearsTheQueue(w: World, lost: Q.Item, id: nat, now: int)
    requires Inv(w) && Q.Inv(w.queue) && id !in w.queue.issued
    requires lost.id in w.queue.issued && !Q.IsDead(w.queue, lost.id)
    requires w.job.status.Generating? && w.job.task == Some(lost.id)
    ensures var t := HeartbeatLost(w, lost, id, now);
      && Q.Inv(t.queue) && !Q.IsReady(t.queue, lost.id) && lost.id !in t.queue.inflight
      && (if Automatic(w, WorkerLost(lost, id, now)) then t.job.task == Some(id) && Q.IsReady(t.queue, id)
          else t.job.task.None? && t.job.status.Failed? && Q.IsDead(t.queue, lost.id))
  {
    hide Q.Inv, Q.IsReady, Q.IsDead, Q.Discard, Q.DeadLetter, Q.Enqueue;
    ExpiryClearsTheQueue(w, lost, id, now);
    assert HeartbeatLost(w, lost, id, now).queue == LeaseExpired(w, lost, id, now).queue;
  }

  /** The one way a lost worker strands its job: marked queued, it loses its task and gets no other. */
  lemma QueuedJobIsStranded(w: World, lost: Q.Item, id: nat, now: int)
    requires w.job.task == Some(lost.id) && (w.job.status.Queued? || w.job.status.Generating?)
    ensures var t := HeartbeatLost(w, lost, id, now);
      t.job.task.None? && !t.job.status.Failed? <==> w.job.status.Queued? && w.job.attempt + 1 < w.limit
  {
    hide Q.Discard, Q.DeadLetter, Q.Enqueue;
  }

  /** A run that ends with a stranded job: its worker is lost before the job is marked as generating. */
  lemma StrandedRun(id: nat, now: int) returns (tr: seq<World>, es: seq<Event>)
    ensures IsRun(tr, es) && |es| == 2 && es[1].WorkerLost?
    ensures tr[1].job.task == Some(id) && tr[1].job.status.Queued?
    ensures tr[2].job.task.None? && tr[2].job.status.Queued? && tr[2].queue.inflight == map[] && tr[2].queue.ready == []
  {
    var job := Job([], None, None, Elsewhere, 0, None, None, None, 5);
    var start := World(job, Q.EMPTY, 3);
    var item := Q.Item(id, 5, now, None);
    es := [Generate(None, id, now), WorkerLost(item, id + 1, now)];
    var queued := Step(start, es[0]);
    assert queued.queue.ready == [Q.Row(-5, 1, item)];
    assert Q.WithoutId(queued.queue.ready, id) == [];
    var lost := Step(queued, es[1]);
    assert queued.queue.ready[0].item.id == id;
    tr := [start, queued, lost];
  }

  // ------------------------------------------------------------------ the service object

  class StoryboardService {
    var boards: seq<Board>
    var active: Option<nat>
    var task: Option<nat>
    var status: Status
    var attempt: nat
    var attemptVersion: Option<nat>
    var revision: Option<string>
    var pinned: Option<string>
    const priority: int
    const limit: nat
    var queue: Q.Queue

    function Now(): World
      reads this
    {
      World(Job(boards, active, task, status, attempt, attemptVersion, revision, pinned, priority), queue, limit)
    }

    constructor (priority: int, retries: int)
      ensures Now().limit == (if retries < 1 then 1 else retries)
      ensures boards == [] && active.None? && task.None?
    {
      this.priority := priority;
      limit := if retries < 1 then 1 else retries;
      boards, active, task, status := [], None, None, Elsewhere;
      attempt, attemptVersion, revision, pinned, queue := 0, None, None, None, Q.EMPTY;
    }

    method QueueBoard(wanted: Option<string>, id: nat, now: int)
      modifies this
      ensures Now() == Step(old(Now()), Generate(wanted, id, now))
    {
      var version := if boards == [] then 1 else boards[|boards| - 1].version + 1;
      if attemptVersion != Some(version) {
        attempt := 0;
        attemptVersion := Some(version);
        pinned := if wanted.Some? then wanted else revision;
      }
      status := Queued;
      queue := Q.Enqueue(queue, Q.Item(id, priority, now, None));
      task := Some(id);
    }

    /** The loop over the history before a new version is appended. */
    method SupersedePending()
      modifies this`boards
      ensures boards == Supersede(old(boards))
    {
      var before := boards;
      var i := 0;
      while i < |boards|
        invariant i <= |boards| == |before|
        invariant forall k :: 0 <= k < |before| ==> boards[k] == if k < i then Supersede(before)[k] else before[k]
      {
        if boards[i].verdict.PendingApproval? { boards := boards[i := boards[i].(verdict := Superseded)]; }
        i := i + 1;
      }
    }

    method AcceptResult(sender: nat, admitted: bool, outcome: Outcome, id: nat, now: int)
      modifies this
      ensures Now() == Step(old(Now()), Result(sender, admitted, outcome, id, now))
    {
      hide Q.Enqueue, Supersede;
      if task != Some(sender) { return; }
      if !admitted { return; }
      if active.Some? && (boards == [] || active.value != boards[|boards| - 1].version) { return; }
      match outcome
      case Failure =>
        attempt := attempt + 1;
        if attempt < limit {
          QueueBoard(pinned, id, now);
        } else {
          status := Failed;
        }
      case Malformed =>
      case Artifact(version) =>
        var expected := if boards == [] then 1 else boards[|boards| - 1].version + 1;
        if version != expected { return; }
        SupersedePending();
        boards := boards + [Board(version, PendingApproval)];
        active, task, status := Some(version), None, AwaitingApproval;
    }

    method ExpireLease(lost: Q.Item, id: nat, now: int) returns (handled: bool)
      modifies this
      ensures Now() == Step(old(Now()), Expired(lost, id, now))
      ensures handled == old(status.Generating? && task == Some(lost.id))
    {
      if !status.Generating? || task != Some(lost.id) { return false; }
      var current := attempt + 1;
      queue := Q.Discard(queue, lost.id);
      attempt := current;
      task := None;
      if current < limit {
        status := Queued;
        var version := if boards == [] then 1 else boards[|boards| - 1].version + 1;
        queue := Q.Enqueue(queue, Q.Item(id, priority, now, None));
        task := Some(id);
        attemptVersion := Some(version);
      } else {
        queue := Q.DeadLetter(queue, lost);
        status := Failed;
      }
      return true;
    }

    /** The branch for storyboards when a worker's heartbeat is lost. */
    method LoseWorker(lost: Q.Item, id: nat, now: int)
      modifies this
      ensures Now() == Step(old(Now()), WorkerLost(lost, id, now))
    {
      hide Q.Enqueue, Q.Discard, Q.DeadLetter;
      if task != Some(lost.id) || !(status.Queued? || status.Generating?) { return; }
      queue := Q.Discard(queue, lost.id);
      task := None;
      attempt := attempt + 1;
      attemptVersion := Some(if boards == [] then 1 else boards[|boards| - 1].version + 1);
      if attempt < limit {
        if status.Generating? { QueueBoard(pinned, id, now); }
      } else {
        queue := Q.DeadLetter(queue, lost);
        status := Failed;
      }
    }

    method Locate(version: nat) returns (i: nat)
      ensures i == Find(boards, version)
    {
      i := 0;
      while i < |boards| && boards[i].version != version
        invariant i <= |boards| && forall k :: 0 <= k < i ==> boards[k].version != version
      {
        i := i + 1;
      }
      FindIs(boards, version, i);
    }

    method UnderDecision(version: nat) returns (i: Option<nat>)
      ensures i == Deciding(Now().job, version)
    {
      if active != Some(version) { return None; }
      var k := Locate(version);
      return if k < |boards| && boards[k].verdict.PendingApproval? then Some(k) else None;
    }

    method ApproveBoard(version: nat, imagesApproved: bool) returns (ok: bool)
      modifies this
      ensures Now() == Step(old(Now()), Approval(version, imagesApproved))
      ensures ok == (imagesApproved && Deciding(old(Now()).job, version).Some?)
    {
      var i := UnderDecision(version);
      if i.None? || !imagesApproved { return false; }
      boards := boards[i.value := boards[i.value].(verdict := Approved)];
      status := Accepted;
      return true;
    }

    method RejectBoard(version: nat) returns (ok: bool)
      modifies this
      ensures Now() == Step(old(Now()), Rejection(version))
      ensures ok == Deciding(old(Now()).job, version).Some?
    {
      var i := UnderDecision(version);
      if i.None? { return false; }
      boards := boards[i.value := boards[i.value].(verdict := Rejected)];
      status := Declined;
      return true;
    }

    method RegenerateBoard(version: nat, wanted: Option<string>, id: nat, now: int) returns (ok: bool)
      modifies this
      ensures Now() == Step(old(Now()), Regeneration(version, wanted, id, now))
      ensures ok == Deciding(old(Now()).job, version).Some?
    {
      var i := UnderDecision(version);
      if i.None? { return false; }
      boards := boards[i.value := boards[i.value].(verdict := Superseded)];
      status := RevisionRequested;
      QueueBoard(wanted, id, now);
      return true;
    }

    method RegenerateFromHistory(version: nat, wanted: Option<string>, id: nat, now: int) returns (ok: bool)
      modifies this
      ensures Now() == Step(old(Now()), History(version, wanted, id, now))
      ensures ok == Branches(old(Now()), History(version, wanted, id, now))
    {
      hide Q.Enqueue, Find;
      var selected := if version != 0 then version else if active.Some? then active.value else 0;
      var i := Locate(selected);
      if i == |boards| { return false; }
      if boards[i].verdict.PendingApproval? { return false; }
      if boards[i].verdict.Approved? {
        boards := boards[i := boards[i].(verdict := Superseded)];
      }
      status := RevisionRequested;
      attemptVersion := None;
      QueueBoard(wanted, id, now);
      return true;
    }
  }

  lemma FindIs(boards: seq<Board>, version: nat, i: nat)
    requires i <= |boards| && forall k :: 0 <= k < i ==> boards[k].version != version
    requires i < |boards| ==> boards[i].version == version
    ensures Find(boards, version) == i
  {}
}
