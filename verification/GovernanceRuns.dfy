/** Consolidation and the theorems about whole runs of the governance client. */
module GovernanceRuns {
  import opened Common
  import opened Governance
  import opened GovernanceCriteria
  import opened GovernanceProofs

  // ------------------------------------------------------------------ coverage

  /** The persisted successor points back to the source, and its issue was read back as approved. */
  predicate Linked(created: seq<Record>, readBack: set<(nat, Body)>, sourceId: Id, id: Id) {
    var r := ByIdentifier(created, id);
    r.Some? && r.value.metadata.transferredFrom == sourceId && (r.value.number, r.value.expected) in readBack
  }

  ghost predicate AllLinked(created: seq<Record>, readBack: set<(nat, Body)>, sourceId: Id, ids: seq<Id>) {
    forall i :: 0 <= i < |ids| ==> Linked(created, readBack, sourceId, ids[i])
  }

  /** The successors' persisted criteria are disjoint and together exactly the remaining ones. */
  ghost predicate MovedExactly(created: seq<Record>, ids: seq<Id>, remaining: seq<string>) {
    && AllRecorded(created, ids)
    && NoRepeats(CoveredBy(created, ids))
    && Elements(CoveredBy(created, ids)) == Elements(remaining)
  }

  ghost predicate Covered(created: seq<Record>, readBack: set<(nat, Body)>, sourceId: Id, ids: seq<Id>,
      remaining: seq<string>) {
    AllLinked(created, readBack, sourceId, ids) && MovedExactly(created, ids, remaining)
  }

  lemma {:induction false} LookupGrows(a: seq<Record>, b: seq<Record>, id: Id)
    requires a <= b && ByIdentifier(a, id).Some?
    ensures ByIdentifier(b, id) == ByIdentifier(a, id)
  {
    if a[0].identifier != id { LookupGrows(a[1..], b[1..], id); }
  }

  lemma {:induction false} CoveredByGrows(a: seq<Record>, b: seq<Record>, ids: seq<Id>)
    requires a <= b && AllRecorded(a, ids)
    ensures AllRecorded(b, ids) && CoveredBy(b, ids) == CoveredBy(a, ids)
  {
    forall i | 0 <= i < |ids| ensures ByIdentifier(b, ids[i]) == ByIdentifier(a, ids[i]) {
      LookupGrows(a, b, ids[i]);
    }
    if ids != [] { CoveredByGrows(a, b, ids[..|ids| - 1]); }
  }

  lemma LinkedGrows(a: seq<Record>, b: seq<Record>, x: set<(nat, Body)>, y: set<(nat, Body)>, sourceId: Id, id: Id)
    requires a <= b && x <= y && Linked(a, x, sourceId, id)
    ensures Linked(b, y, sourceId, id)
  {
    LookupGrows(a, b, id);
  }

  /** Coverage, once established, is never lost. */
  lemma CoveredGrows(a: seq<Record>, b: seq<Record>, x: set<(nat, Body)>, y: set<(nat, Body)>, sourceId: Id,
      ids: seq<Id>, remaining: seq<string>)
    requires a <= b && x <= y && Covered(a, x, sourceId, ids, remaining)
    ensures Covered(b, y, sourceId, ids, remaining)
  {
    hide Linked, ByIdentifier, NoRepeats, Elements;
    CoveredByGrows(a, b, ids);
    forall i | 0 <= i < |ids| ensures Linked(b, y, sourceId, ids[i]) {
      LinkedGrows(a, b, x, y, sourceId, ids[i]);
    }
  }

  // ------------------------------------------------------------------ plans

  predicate GoodPlan(cfg: Config, sourceId: Id, p: Plan) {
    && cfg.strip(p.scope.source.identifier) == sourceId
    && PlanSound(cfg, p.scope)
    && |p.identifiers| == |p.scope.successors|
    && forall i :: 0 <= i < |p.identifiers| ==> Trimmed(cfg, p.identifiers[i])
  }

  predicate Trimmed(cfg: Config, id: Id) {
    id != "" && cfg.strip(id) == id
  }

  lemma ChooseTrimmed(cfg: Config, s: State, sourceId: Id, id: Id, taken: set<Id>)
    requires Fair(cfg) && cfg.strip(id) == id && Choose(cfg, s, sourceId, id, taken).Some?
    ensures Trimmed(cfg, Choose(cfg, s, sourceId, id, taken).value)
  {
    hide Ours;
    assert GoodReservation(cfg, Ir, taken);
  }

  lemma {:induction false} ResolveTrimmed(cfg: Config, s: State, sourceId: Id, wanted: seq<Id>, taken: set<Id>)
    requires Fair(cfg) && forall i :: 0 <= i < |wanted| ==> cfg.strip(wanted[i]) == wanted[i]
    ensures var r := Resolve(cfg, s, sourceId, wanted, taken);
      r.Some? ==> forall i :: 0 <= i < |r.value| ==> Trimmed(cfg, r.value[i])
    decreases |wanted|
  {
    hide Fair, Trimmed, Choose;
    if wanted != [] {
      var c := Choose(cfg, s, sourceId, wanted[0], taken);
      if c.Some? {
        ChooseTrimmed(cfg, s, sourceId, wanted[0], taken);
        ResolveTrimmed(cfg, s, sourceId, wanted[1..], taken + {c.value});
      }
    }
  }

  lemma WantedTrimmed(cfg: Config, s: State, scope: Scope, i: nat)
    requires Fair(cfg) && i < |scope.successors|
    ensures cfg.strip(Wanted(cfg, s, scope)[i]) == Wanted(cfg, s, scope)[i]
  {
    var id := cfg.strip(scope.source.identifier);
    var raw := if id in s.plans && i < |s.plans[id].identifiers| then s.plans[id].identifiers[i]
        else scope.successors[i].identifier;
    assert cfg.strip(cfg.strip(raw)) == cfg.strip(raw);
  }

  /** A retry of a consolidation keeps the identifiers reserved on the first attempt. */
  lemma RetryKeepsPlan(cfg: Config, s: State, scope: Scope, remoteIds: set<Id>)
    requires Fair(cfg) && PlanFor(cfg, s, scope, remoteIds).Some?
    requires var id := cfg.strip(scope.source.identifier); id in s.plans ==> GoodPlan(cfg, id, s.plans[id])
    ensures var id, ids := cfg.strip(scope.source.identifier), PlanFor(cfg, s, scope, remoteIds).value;
      && GoodPlan(cfg, id, Plan(scope, ids))
      && (id in s.plans ==> s.plans[id] == Plan(scope, ids))
  {
    hide PlanSound, Resolve, Known, Fair;
    var id, ids := cfg.strip(scope.source.identifier), PlanFor(cfg, s, scope, remoteIds).value;
    var wanted := Wanted(cfg, s, scope);
    forall i | 0 <= i < |wanted| ensures cfg.strip(wanted[i]) == wanted[i] {
      WantedTrimmed(cfg, s, scope, i);
    }
    ResolveTrimmed(cfg, s, id, wanted, Known(s, remoteIds) + {id});
    assert PlanSound(cfg, scope);
    assert Resolve(cfg, s, id, wanted, Known(s, remoteIds) + {id}) == Some(ids);
    assert forall i :: 0 <= i < |ids| ==> Trimmed(cfg, ids[i]);
    assert GoodPlan(cfg, id, Plan(scope, ids));
    if id in s.plans {
      ResolveKeeps(cfg, s, id, wanted, Known(s, remoteIds) + {id});
      assert s.plans[id].identifiers == ids;
    }
  }

  /** The planned number `i` can be used: well formed, and free or this transfer's own. */
  ghost predicate Usable(cfg: Config, s: State, sourceId: Id, ids: seq<Id>, i: nat, taken: set<Id>)
    requires i < |ids|
  {
    cfg.wellFormed(Ir, ids[i]) && ((ids[i] !in taken && ids[i] !in ids[..i]) || HeldByTransfer(s, sourceId, ids[i]))
  }

  lemma {:induction false} ResolveExactly(cfg: Config, s: State, sourceId: Id, ids: seq<Id>, taken: set<Id>)
    requires forall i :: 0 <= i < |ids| ==> ids[i] != ""
    ensures Resolve(cfg, s, sourceId, ids, taken).Some? <==>
      forall i :: 0 <= i < |ids| ==> Usable(cfg, s, sourceId, ids, i, taken)
    decreases |ids|
  {
    hide Ours, HeldByTransfer;
    if ids != [] {
      OursMeaning(s, sourceId, ids[0]);
      var tail, more := ids[1..], taken + {ids[0]};
      ResolveExactly(cfg, s, sourceId, tail, more);
      forall i | 1 <= i < |ids|
        ensures Usable(cfg, s, sourceId, ids, i, taken) <==> Usable(cfg, s, sourceId, tail, i - 1, more)
      {
        assert ids[..i] == [ids[0]] + tail[..i - 1];
      }
      if forall i :: 0 <= i < |ids| ==> Usable(cfg, s, sourceId, ids, i, taken) {
        assert Usable(cfg, s, sourceId, ids, 0, taken);
        forall i | 0 <= i < |tail| ensures Usable(cfg, s, sourceId, tail, i, more) {
          assert Usable(cfg, s, sourceId, ids, i + 1, taken);
        }
      }
      if Choose(cfg, s, sourceId, ids[0], taken).Some? && forall i :: 0 <= i < |tail| ==>
          Usable(cfg, s, sourceId, tail, i, more) {
        forall i | 0 <= i < |ids| ensures Usable(cfg, s, sourceId, ids, i, taken) {
          if i > 0 { assert Usable(cfg, s, sourceId, tail, i - 1, more); }
        }
      }
    }
  }

  /**
   Exactly when a retried consolidation goes on: when every number of its plan is still usable.
   Plans are not among the numbers known to be held, so another creation may have taken one.
   */
  lemma RetryExactly(cfg: Config, s: State, scope: Scope, remoteIds: set<Id>)
    requires var id := cfg.strip(scope.source.identifier);
      && id in s.plans && s.plans[id].scope == scope && id !in s.transfers && GoodPlan(cfg, id, s.plans[id])
    ensures var id := cfg.strip(scope.source.identifier);
      PlanFor(cfg, s, scope, remoteIds).Some? <==>
        forall i :: 0 <= i < |s.plans[id].identifiers| ==>
          Usable(cfg, s, id, s.plans[id].identifiers, i, Known(s, remoteIds) + {id})
  {
    hide PlanSound, Resolve, Known, Ours;
    var id := cfg.strip(scope.source.identifier);
    var ids := s.plans[id].identifiers;
    forall i | 0 <= i < |ids| ensures ids[i] != "" && cfg.strip(ids[i]) == ids[i] { assert Trimmed(cfg, ids[i]); }
    assert Wanted(cfg, s, scope) == ids;
    ResolveExactly(cfg, s, id, ids, Known(s, remoteIds) + {id});
  }

  /** Writing a plan reserves nothing. */
  lemma PlansReserveNothing(s: State, plans: map<Id, Plan>, remoteIds: set<Id>)
    ensures Known(s.(plans := plans), remoteIds) == Known(s, remoteIds)
  {}

  lemma ResolveKeeps(cfg: Config, s: State, sourceId: Id, wanted: seq<Id>, taken: set<Id>)
    requires forall i :: 0 <= i < |wanted| ==> wanted[i] != ""
    requires Resolve(cfg, s, sourceId, wanted, taken).Some?
    ensures Resolve(cfg, s, sourceId, wanted, taken).value == wanted
  {}

  ghost predicate AllGoodPlans(cfg: Config, plans: map<Id, Plan>) {
    forall id :: id in plans ==> GoodPlan(cfg, id, plans[id])
  }

  predicate JobFits(cfg: Config, plans: map<Id, Plan>, job: Job) {
    && job.sourceId in plans
    && |plans[job.sourceId].identifiers| == |plans[job.sourceId].scope.successors|
    && job == JobOf(cfg, plans[job.sourceId].scope, plans[job.sourceId].identifiers)
  }

  predicate HasJob(p: Process) {
    || ((p.Ready? || p.Waiting? || p.Answered?) && p.caller.Within?)
    || p.Creating? || p.Verifying? || p.Closing? || p.CloseSent? || p.Closed?
  }

  function TheJob(p: Process): Job
    requires HasJob(p)
  {
    if p.Ready? || p.Waiting? || p.Answered? then p.caller.job else p.job
  }

  ghost predicate JobCovered(s: State, job: Job) {
    Covered(s.created, s.readBack, job.sourceId, Identifiers(job), job.remaining)
  }

  ghost predicate JobInv(cfg: Config, s: State) {
    HasJob(s.process) ==>
      && JobFits(cfg, s.plans, TheJob(s.process))
      && (s.process.Verifying? ==>
          s.process.k <= |s.process.job.entries| && VerifiedSoFar(s, s.process.job, s.process.k))
      && (s.process.Closing? || s.process.CloseSent? || s.process.Closed? ==> JobCovered(s, s.process.job))
      && (s.process.CloseSent? || s.process.Closed? ==> s.process.job.sourceId in s.closes)
      && (s.process.Closed? ==> s.process.number in s.shut)
  }

  ghost predicate VerifiedSoFar(s: State, job: Job, k: nat) {
    forall j :: 0 <= j < k && j < |job.entries| ==>
        Linked(s.created, s.readBack, job.sourceId, job.entries[j].identifier)
  }

  /** The source's plan is known and its criteria were moved as planned. */
  ghost predicate Moved(cfg: Config, s: State, id: Id) {
    && id in s.plans
    && Covered(s.created, s.readBack, id, s.plans[id].identifiers, Clean(cfg, s.plans[id].scope.source.remaining))
  }

  predicate TransferFits(cfg: Config, s: State, id: Id)
    requires id in s.transfers
  {
    && id in s.closes && id in s.plans
    && s.transfers[id].successors == s.plans[id].identifiers
    && s.transfers[id].remaining == Clean(cfg, s.plans[id].scope.source.remaining)
    && s.transfers[id].number in s.shut
  }

  ghost predicate PlanInv(cfg: Config, s: State) {
    && AllGoodPlans(cfg, s.plans)
    && JobInv(cfg, s)
    && (forall id :: id in s.closes ==> Moved(cfg, s, id))
    && (forall id :: id in s.transfers ==> TransferFits(cfg, s, id))
  }

  ghost predicate Inv(cfg: Config, s: State) {
    SendInv(s) && RecordInv(cfg, s) && PlanInv(cfg, s)
  }

  // ------------------------------------------------------------------ steps

  /** What a step may do while it leaves plans and transfers alone. */
  ghost predicate PlansAlone(s: State, t: State) {
    && t.plans == s.plans && t.transfers == s.transfers && t.closes == s.closes
    && s.created <= t.created && s.readBack <= t.readBack && s.shut <= t.shut
  }

  lemma MovedGrows(cfg: Config, s: State, t: State, id: Id)
    requires Moved(cfg, s, id) && PlansAlone(s, t)
    ensures Moved(cfg, t, id)
  {
    hide Covered;
    CoveredGrows(s.created, t.created, s.readBack, t.readBack, id, s.plans[id].identifiers,
        Clean(cfg, s.plans[id].scope.source.remaining));
  }

  lemma AloneKeepsPlans(cfg: Config, s: State, t: State)
    requires PlanInv(cfg, s) && PlansAlone(s, t) && JobInv(cfg, t)
    ensures PlanInv(cfg, t)
  {
    hide Moved, AllGoodPlans, JobInv;
    forall id | id in t.closes ensures Moved(cfg, t, id) { MovedGrows(cfg, s, t, id); }
  }

  /** The same job goes on, no further than creating. */
  predicate SameJob(s: State, t: State) {
    HasJob(t.process) ==>
      && HasJob(s.process) && TheJob(t.process) == TheJob(s.process)
      && !t.process.Verifying? && !t.process.Closing? && !t.process.CloseSent? && !t.process.Closed?
  }

  lemma SameJobInv(cfg: Config, s: State, t: State)
    requires JobInv(cfg, s) && SameJob(s, t) && t.plans == s.plans
    ensures JobInv(cfg, t)
  {
    hide JobFits;
  }

  /** Nothing happens to the process. */
  lemma WaitingJobInv(cfg: Config, s: State, t: State)
    requires JobInv(cfg, s) && t.process == s.process && PlansAlone(s, t)
    ensures JobInv(cfg, t)
  {
    hide JobFits, Linked, Covered;
    if HasJob(s.process) {
      var job := TheJob(s.process);
      if s.process.Verifying? {
        forall j | 0 <= j < s.process.k && j < |job.entries|
          ensures Linked(t.created, t.readBack, job.sourceId, job.entries[j].identifier)
        {
          LinkedGrows(s.created, t.created, s.readBack, t.readBack, job.sourceId, job.entries[j].identifier);
        }
      } else if s.process.Closing? || s.process.CloseSent? || s.process.Closed? {
        CoveredGrows(s.created, t.created, s.readBack, t.readBack, job.sourceId, Identifiers(job), job.remaining);
      }
    }
  }

  lemma RemotePlans(cfg: Config, s: State, e: Event)
    requires PlanInv(cfg, s) && Enabled(s, e) && Remote(e)
    ensures PlanInv(cfg, Step(cfg, s, e))
  {
    hide PlanInv, JobInv, Identifiers, AllRecorded;
    assert PlansAlone(s, Step(cfg, s, e)) && Step(cfg, s, e).process == s.process;
    assert JobInv(cfg, s) by { RevealJob(cfg, s); }
    WaitingJobInv(cfg, s, Step(cfg, s, e));
    AloneKeepsPlans(cfg, s, Step(cfg, s, e));
  }

  lemma RevealJob(cfg: Config, s: State)
    requires PlanInv(cfg, s)
    ensures JobInv(cfg, s)
  {}

  predicate Message(e: Event) {
    e.Crash? || e.Asked? || e.SendOut? || e.CreatedReply? || e.RejectedReply? || e.NoReply? || e.Persisted?
  }

  lemma BeginSameJob(s: State, o: Outcome, caller: Caller)
    requires caller.Within? ==> HasJob(s.process) && TheJob(s.process) == caller.job
    ensures PlansAlone(s, Begin(s, o, caller)) && SameJob(s, Begin(s, o, caller))
  {}

  lemma MessagePlans(cfg: Config, s: State, e: Event)
    requires PlanInv(cfg, s) && Enabled(s, e) && Message(e)
    ensures PlanInv(cfg, Step(cfg, s, e))
  {
    hide PlanInv, JobInv, Identifiers, AllRecorded, AskFor, Begin;
    var t := Step(cfg, s, e);
    if e.Asked? { BeginSameJob(s, AskFor(cfg, s, e.ask, e.answers), Alone); }
    assert PlansAlone(s, t) && SameJob(s, t);
    hide Step, Enabled;
    RevealJob(cfg, s);
    SameJobInv(cfg, s, t);
    AloneKeepsPlans(cfg, s, t);
  }

  lemma CreatedPlans(cfg: Config, s: State, a: Answers)
    requires PlanInv(cfg, s) && Enabled(s, Created(a))
    ensures PlanInv(cfg, Step(cfg, s, Created(a)))
  {
    hide PlanInv, JobInv, Identifiers, AllRecorded, AskFor, Begin;
    RevealJob(cfg, s);
    var job, i := s.process.job, s.process.i;
    var t := CreateNext(cfg, s, job, i, a);
    if i < |job.entries| {
      BeginSameJob(s, AskFor(cfg, s, SuccessorAsk(job, i), a), Within(job, i));
      SameJobInv(cfg, s, t);
    } else {
      GatherJob(cfg, s, t);
    }
    AloneKeepsPlans(cfg, s, t);
  }

  lemma GatherJob(cfg: Config, s: State, t: State)
    requires JobInv(cfg, s) && s.process.Creating? && t.plans == s.plans
    requires t.process == Verifying(s.process.job, 0) || t.process == Idle
    ensures JobInv(cfg, t)
  {
    hide JobFits, Linked;
  }

  lemma VerifiedPlans(cfg: Config, s: State, body: Option<Body>)
    requires PlanInv(cfg, s) && Enabled(s, Verified(body))
    ensures PlanInv(cfg, Step(cfg, s, Verified(body)))
  {
    hide PlanInv, JobInv, Identifiers, AllRecorded, Verify;
    RevealJob(cfg, s);
    VerifyJob(cfg, s, body);
    AloneKeepsPlans(cfg, s, Verify(s, s.process.job, s.process.k, body));
  }

  lemma VerifyJob(cfg: Config, s: State, body: Option<Body>)
    requires JobInv(cfg, s) && s.process.Verifying?
    ensures var t := Verify(s, s.process.job, s.process.k, body); PlansAlone(s, t) && JobInv(cfg, t)
  {
    hide JobFits, Linked, Elements, NoRepeats, ByIdentifier, CoveredBy, AllRecorded;
    var job, k, t := s.process.job, s.process.k, Verify(s, s.process.job, s.process.k, body);
    if t.process.Verifying? {
      VerifyRound(s, job, k, body);
    } else if t.process.Closing? {
      assert Covered(s.created, s.readBack, job.sourceId, Identifiers(job), job.remaining);
    }
  }

  lemma VerifyRound(s: State, job: Job, k: nat, body: Option<Body>)
    requires VerifiedSoFar(s, job, k) && k < |job.entries| && Verify(s, job, k, body).process.Verifying?
    ensures VerifiedSoFar(Verify(s, job, k, body), job, k + 1)
  {
    hide AllRecorded, ByIdentifier, Identifiers;
    var t := Verify(s, job, k, body);
    forall j | 0 <= j < k + 1 && j < |job.entries|
      ensures Linked(t.created, t.readBack, job.sourceId, job.entries[j].identifier)
    {
      if j < k { assert Linked(s.created, s.readBack, job.sourceId, job.entries[j].identifier); }
    }
  }

  lemma PlannedPlans(cfg: Config, s: State, scope: Scope, a: Answers)
    requires Fair(cfg) && PlanInv(cfg, s) && s.process.Idle?
    ensures PlanInv(cfg, PlanTransfer(cfg, s, scope, a))
    ensures forall id :: id in s.plans ==>
      id in PlanTransfer(cfg, s, scope, a).plans && PlanTransfer(cfg, s, scope, a).plans[id] == s.plans[id]
  {
    hide PlanFor, GoodPlan, Covered, Fair, Clean, PlanSound;
    var t := PlanTransfer(cfg, s, scope, a);
    var ids := PlanFor(cfg, s, scope, a.remoteIds);
    if ids.Some? {
      RetryKeepsPlan(cfg, s, scope, a.remoteIds);
      GoodPlanFits(cfg, cfg.strip(scope.source.identifier), Plan(scope, ids.value));
      forall id | id in t.closes ensures Moved(cfg, t, id) { assert Moved(cfg, s, id); }
      forall id | id in t.transfers ensures TransferFits(cfg, t, id) { assert TransferFits(cfg, s, id); }
    }
  }

  lemma GoodPlanFits(cfg: Config, id: Id, p: Plan)
    requires GoodPlan(cfg, id, p)
    ensures |p.identifiers| == |p.scope.successors| && JobOf(cfg, p.scope, p.identifiers).sourceId == id
  {}

  /** A close is requested only for a source whose criteria were moved as planned. */
  lemma RequestPlans(cfg: Config, s: State)
    requires PlanInv(cfg, s) && s.process.Closing?
    ensures PlanInv(cfg, RequestClose(s, s.process.job))
  {
    hide Covered, GoodPlan, VerifiedSoFar, SourceNumber;
    var t := RequestClose(s, s.process.job);
    JobIsPlan(cfg, s.plans, s.process.job);
    hide JobFits;
    forall id | id in t.closes ensures Moved(cfg, t, id) {
      if id in s.closes { assert Moved(cfg, s, id); }
    }
    forall id | id in t.transfers ensures TransferFits(cfg, t, id) { assert TransferFits(cfg, s, id); }
  }

  lemma ReplyPlans(cfg: Config, s: State, confirmed: bool)
    requires PlanInv(cfg, s) && HistoryKept(s) && Enabled(s, CloseReply(confirmed))
    ensures PlanInv(cfg, Step(cfg, s, CloseReply(confirmed)))
  {
    hide Covered, GoodPlan, VerifiedSoFar, JobFits;
    var t := Step(cfg, s, CloseReply(confirmed));
    forall id | id in t.closes ensures Moved(cfg, t, id) { assert Moved(cfg, s, id); }
    forall id | id in t.transfers ensures TransferFits(cfg, t, id) { assert TransferFits(cfg, s, id); }
  }

  lemma RecordedPlans(cfg: Config, s: State)
    requires PlanInv(cfg, s) && s.process.Closed?
    ensures PlanInv(cfg, RecordTransfer(s, s.process.job, s.process.number))
  {
    hide Covered, GoodPlan, VerifiedSoFar;
    var t := RecordTransfer(s, s.process.job, s.process.number);
    JobIsPlan(cfg, s.plans, s.process.job);
    hide JobFits, Identifiers;
    forall id | id in t.closes ensures Moved(cfg, t, id) { assert Moved(cfg, s, id); }
    forall id | id in t.transfers ensures TransferFits(cfg, t, id) {
      if id in s.transfers { assert TransferFits(cfg, s, id); }
    }
  }

  lemma ClosePlans(cfg: Config, s: State, e: Event)
    requires PlanInv(cfg, s) && Enabled(s, e) && RecordInv(cfg, s)
    requires e.CloseRequested? || e.CloseReply? || e.TransferRecorded?
    ensures PlanInv(cfg, Step(cfg, s, e))
  {
    hide PlanInv, AllBacked, OnePerKey, NumbersMatch, RequestInv, HistoryKept, RequestClose, RecordTransfer;
    match e
    case CloseRequested => RequestPlans(cfg, s);
    case CloseReply(confirmed) => ReplyPlans(cfg, s, confirmed);
    case TransferRecorded => RecordedPlans(cfg, s);
  }

  lemma JobIsPlan(cfg: Config, plans: map<Id, Plan>, job: Job)
    requires JobFits(cfg, plans, job)
    ensures Identifiers(job) == plans[job.sourceId].identifiers
    ensures job.remaining == Clean(cfg, plans[job.sourceId].scope.source.remaining)
  {}

  lemma PlanStep(cfg: Config, s: State, e: Event)
    requires Fair(cfg) && PlanInv(cfg, s) && RecordInv(cfg, s) && Enabled(s, e)
    ensures PlanInv(cfg, Step(cfg, s, e))
  {
    hide PlanInv, RecordInv, Fair, Step, Enabled;
    if Remote(e) {
      RemotePlans(cfg, s, e);
    } else if Message(e) {
      MessagePlans(cfg, s, e);
    } else if e.Created? {
      CreatedPlans(cfg, s, e.answers);
    } else if e.Verified? {
      VerifiedPlans(cfg, s, e.body);
    } else if e.Planned? {
      PlannedStep(cfg, s, e);
    } else {
      ClosePlans(cfg, s, e);
    }
  }

  lemma PlannedStep(cfg: Config, s: State, e: Event)
    requires Fair(cfg) && PlanInv(cfg, s) && Enabled(s, e) && e.Planned?
    ensures PlanInv(cfg, Step(cfg, s, e))
  {
    hide PlanInv, PlanTransfer, Fair;
    PlannedPlans(cfg, s, e.scope, e.answers);
  }

  lemma StepInv(cfg: Config, s: State, e: Event)
    requires Fair(cfg) && Inv(cfg, s) && Enabled(s, e)
    ensures Inv(cfg, Step(cfg, s, e)) && Grows(s, Step(cfg, s, e))
  {
    hide SendInv, RecordInv, PlanInv, Fair, Step, Enabled;
    SendStep(cfg, s, e);
    RecordStep(cfg, s, e);
    PlanStep(cfg, s, e);
  }

  lemma InitialInv(cfg: Config, s: State)
    requires Initial(s)
    ensures Inv(cfg, s)
  {}

  lemma {:induction false} Reachable(cfg: Config, tr: seq<State>, es: seq<Event>, n: nat)
    requires Fair(cfg) && IsRun(cfg, tr, es) && n < |tr|
    ensures Inv(cfg, tr[n])
  {
    hide Inv, Fair, Step, Enabled, Initial;
    if n == 0 {
      InitialInv(cfg, tr[0]);
    } else {
      Reachable(cfg, tr, es, n - 1);
      StepInv(cfg, tr[n - 1], es[n - 1]);
    }
  }

  // ------------------------------------------------------------------ at most one issue per key

  /** A request keeps its place in the log, and its fate once it is settled. */
  ghost predicate SendsKept(a: seq<Sent>, b: seq<Sent>) {
    |a| <= |b| && forall i :: 0 <= i < |a| ==> b[i].request == a[i].request && (a[i].fate.InFlight? || b[i] == a[i])
  }

  lemma SendsKeptStep(cfg: Config, s: State, e: Event)
    requires Enabled(s, e)
    ensures SendsKept(s.sends, Step(cfg, s, e).sends)
  {
    hide AskFor, Identifiers, AllRecorded;
    if Bystander(e) {
      hide Step, Enabled;
      BystanderIsApart(cfg, s, e);
    }
  }

  lemma {:induction false} SendsKeptRun(cfg: Config, tr: seq<State>, es: seq<Event>, m: nat, n: nat)
    requires IsRun(cfg, tr, es) && m <= n < |tr|
    ensures SendsKept(tr[m].sends, tr[n].sends)
  {
    hide Step, Enabled, Initial;
    if m < n {
      SendsKeptRun(cfg, tr, es, m, n - 1);
      SendsKeptStep(cfg, tr[n - 1], es[n - 1]);
    }
  }

  /**
   In every run with lost replies, crashes, delayed deliveries and any number of retries, two
   create requests of one decision key never both take effect: two that did belong to different
   keys and made different issues. A key is sent again only after the remote refused it, and
   a request that was refused stays without effect in every later state.
   */
  lemma AtMostOneIssuePerKey(cfg: Config, tr: seq<State>, es: seq<Event>, m: nat, n: nat, i: nat, j: nat)
    requires Fair(cfg) && IsRun(cfg, tr, es) && m <= n < |tr| && i < j < |tr[m].sends|
    ensures tr[m].sends[i].request.key == tr[m].sends[j].request.key ==>
      |tr[n].sends| > j && tr[m].sends[i].fate.Refused? && tr[n].sends[i].fate.Refused?
    ensures tr[m].sends[i].fate.Applied? && tr[m].sends[j].fate.Applied? ==>
      && tr[m].sends[i].request.key != tr[m].sends[j].request.key
      && tr[m].sends[i].fate.number != tr[m].sends[j].fate.number
  {
    hide Step, Enabled, Initial, RecordInv, PlanInv, Fair;
    Reachable(cfg, tr, es, m);
    SendsKeptRun(cfg, tr, es, m, n);
  }

  /** Every request in a run went out under an intent, and stays the last of its key unless refused. */
  lemma UnrefusedHasIntent(cfg: Config, tr: seq<State>, es: seq<Event>, n: nat, i: nat)
    requires Fair(cfg) && IsRun(cfg, tr, es) && n < |tr| && i < |tr[n].sends| && !tr[n].sends[i].fate.Refused?
    ensures Committed(tr[n].intents, tr[n].sends[i].request.key)
  {
    hide Step, Enabled, Initial, RecordInv, PlanInv, Fair;
    Reachable(cfg, tr, es, n);
  }

  // ------------------------------------------------------------------ consolidation

  lemma PlansKeptStep(cfg: Config, s: State, e: Event, id: Id)
    requires Fair(cfg) && Inv(cfg, s) && Enabled(s, e) && id in s.plans
    ensures id in Step(cfg, s, e).plans && Step(cfg, s, e).plans[id] == s.plans[id]
  {
    hide Fair, SendInv, RecordInv, PlanInv, AskFor, JobOf, Identifiers, AllRecorded, CoveredBy, Elements, NoRepeats,
        ByIdentifier;
    if e.Planned? {
      hide PlanTransfer;
      PlannedPlans(cfg, s, e.scope, e.answers);
    }
  }

  lemma {:induction false} PlansKept(cfg: Config, tr: seq<State>, es: seq<Event>, m: nat, n: nat, id: Id)
    requires Fair(cfg) && IsRun(cfg, tr, es) && m <= n < |tr| && id in tr[m].plans
    ensures id in tr[n].plans && tr[n].plans[id] == tr[m].plans[id]
  {
    hide Fair, Inv, Step, Enabled, Initial;
    if m < n {
      PlansKept(cfg, tr, es, m, n - 1, id);
      Reachable(cfg, tr, es, n - 1);
      PlansKeptStep(cfg, tr[n - 1], es[n - 1], id);
    }
  }

  /** The remote issue of a successor held the text rendered from the very criteria on record. */
  predicate PublishedAsRecorded(cfg: Config, s: State, id: Id) {
    var r := ByIdentifier(s.created, id);
    r.Some? && Backed(cfg, s.intents, s.held, r.value)
  }

  lemma MovedAsWritten(cfg: Config, s: State, id: Id)
    requires Moved(cfg, s, id)
    ensures MovedOnce(cfg, s.created, s.plans[id].identifiers, s.plans[id].scope.source.remaining)
  {
    ExactMeansOnce(cfg, s.created, s.plans[id].identifiers, s.plans[id].scope.source.remaining);
    hide MovedOnce;
  }

  /**
   In every run, a source is closed, or even asked to be closed, only when its criteria were
   moved exactly: every remaining criterion that is not blank stands in exactly one persisted
   successor record, and the records hold nothing else; the successors all link to the source,
   each was read back with its approved body, and they are those reserved when the plan was first
   persisted, at any earlier time `m`.
   */
  lemma ClosedOnlyIfMoved(cfg: Config, tr: seq<State>, es: seq<Event>, m: nat, n: nat, id: Id)
    requires Fair(cfg) && IsRun(cfg, tr, es) && m <= n < |tr|
    ensures id in tr[n].transfers ==> id in tr[n].closes && TransferFits(cfg, tr[n], id)
    ensures id in tr[n].closes ==> Moved(cfg, tr[n], id)
    ensures id in tr[n].closes ==>
      MovedOnce(cfg, tr[n].created, tr[n].plans[id].identifiers, tr[n].plans[id].scope.source.remaining)
    ensures id in tr[n].closes ==>
      forall i :: 0 <= i < |tr[n].plans[id].identifiers| ==>
          PublishedAsRecorded(cfg, tr[n], tr[n].plans[id].identifiers[i])
    ensures id in tr[n].closes && id in tr[m].plans ==> tr[m].plans[id] == tr[n].plans[id]
  {
    hide Fair, Step, Enabled, Initial, SendInv, JobInv, AllGoodPlans, Backed, MovedOnce;
    Reachable(cfg, tr, es, n);
    if id in tr[n].closes {
      assert Moved(cfg, tr[n], id);
      MovedAsWritten(cfg, tr[n], id);
      hide MovedExactly;
      if id in tr[m].plans { PlansKept(cfg, tr, es, m, n, id); }
      var ids := tr[n].plans[id].identifiers;
      forall i | 0 <= i < |ids| ensures PublishedAsRecorded(cfg, tr[n], ids[i]) {
        assert Linked(tr[n].created, tr[n].readBack, id, ids[i]);
      }
    }
  }

  // ------------------------------------------------------------------ numbering

  function Numbers(intents: map<Key, Intent>): set<Id> {
    set key | key in intents :: intents[key].identifier
  }

  /** No two decision keys hold one identifier. */
  ghost predicate NumbersApart(intents: map<Key, Intent>) {
    forall k, l :: k in intents && l in intents && k != l ==> intents[k].identifier != intents[l].identifier
  }

  /**
   The one way to give a number twice: the series is exhausted, and an admissible finding that
   nothing yet resembles or records is proposed under a new key that is itself a number in use.
   */
  predicate LabCollision(cfg: Config, s: State, ask: Ask, a: Answers) {
    && ask.AskLab?
    && var key := LabKey(ask.finding, ask.key);
    && cfg.reserve(Lab, LabTaken(s, a.remoteIds)).None? && key in Numbers(s.intents)
    && cfg.valid(ask.finding) && a.allowed && a.found == []
    && key !in s.intents && ByKey(s.created, key).None?
  }

  predicate Collides(cfg: Config, s: State, e: Event) {
    e.Asked? && LabCollision(cfg, s, e.ask, e.answers)
  }

  lemma NumbersAdd(intents: map<Key, Intent>, key: Key, intent: Intent)
    requires NumbersApart(intents)
    requires key in intents ==> intents[key].identifier == intent.identifier
    ensures NumbersApart(intents[key := intent]) <==> (key in intents || intent.identifier !in Numbers(intents))
  {
    var t := intents[key := intent];
    if key !in intents && intent.identifier in Numbers(intents) {
      var k :| k in intents && intents[k].identifier == intent.identifier;
      assert t[k].identifier == t[key].identifier;
    }
  }

  /** The number of a request about to go out: its key's own, or one not in use. */
  lemma IssueNumber(cfg: Config, s: State, kind: Kind, title: string, id: Id, key: Key, metadata: Metadata, a: Answers)
    requires Fair(cfg) && NumbersMatch(s.intents) && SearchHonest(s, a.found)
    requires AskForIssue(cfg, s, kind, title, id, key, metadata, a).Go?
    ensures var req := AskForIssue(cfg, s, kind, title, id, key, metadata, a).request;
      if req.key in s.intents then req.content.identifier == s.intents[req.key].identifier
      else req.content.identifier !in Numbers(s.intents)
  {
    hide ByKey, Known, Fair, Numbers;
    assert GoodReservation(cfg, kind, Known(s, a.remoteIds)) by { Reserves(cfg, kind, Known(s, a.remoteIds)); }
    assert Numbers(s.intents) <= Known(s, a.remoteIds) by { NumbersKnown(s, a.remoteIds); }
  }

  lemma Reserves(cfg: Config, kind: Kind, taken: set<Id>)
    requires Fair(cfg)
    ensures GoodReservation(cfg, kind, taken)
  {}

  lemma NumbersKnown(s: State, remoteIds: set<Id>)
    ensures Numbers(s.intents) <= Known(s, remoteIds)
  {}

  lemma LabNumber(cfg: Config, s: State, finding: Finding, key0: Key, a: Answers)
    requires Fair(cfg) && NumbersMatch(s.intents) && SearchHonest(s, a.found)
    requires AskForLab(cfg, s, finding, key0, a).Go?
    ensures var req := AskForLab(cfg, s, finding, key0, a).request;
      && req.key == LabKey(finding, key0)
      && if req.key in s.intents then req.content.identifier == s.intents[req.key].identifier
         else if cfg.reserve(Lab, LabTaken(s, a.remoteIds)).Some? then req.content.identifier !in Numbers(s.intents)
         else req.content.identifier == req.key
  {
    hide ByKey;
    assert GoodReservation(cfg, Lab, LabTaken(s, a.remoteIds));
    assert Numbers(s.intents) <= LabTaken(s, a.remoteIds);
  }

  /** A finding under a new key goes out exactly when it is unrecorded, valid, allowed and unlike anything found. */
  lemma NewFindingGoes(cfg: Config, s: State, finding: Finding, key0: Key, a: Answers)
    requires SearchHonest(s, a.found) && LabKey(finding, key0) !in s.intents
    ensures AskForLab(cfg, s, finding, key0, a).Go? <==>
      cfg.valid(finding) && a.allowed && a.found == [] && ByKey(s.created, LabKey(finding, key0)).None?
  {
    hide ByKey, LabTaken;
  }

  /** Every step keeps the numbers apart, except exactly the collision above. */
  lemma NumbersStep(cfg: Config, s: State, e: Event)
    requires Fair(cfg) && NumbersApart(s.intents) && NumbersMatch(s.intents) && Enabled(s, e)
    ensures NumbersApart(Step(cfg, s, e).intents) <==> !Collides(cfg, s, e)
  {
    hide Fair, NumbersApart, AskForIssue, AskForLab, NumbersMatch, Numbers;
    hide PlanFor, JobOf, Identifiers, AllRecorded, CoveredBy, Elements, NoRepeats, ByIdentifier, LabTaken;
    match e
    case Asked(ask, a) => AskedNumbers(cfg, s, ask, a, Alone);
    case Created(a) =>
      var job, i := s.process.job, s.process.i;
      if i < |job.entries| { AskedNumbers(cfg, s, SuccessorAsk(job, i), a, Within(job, i)); }
    case Persisted => PersistedNumbers(s);
    case _ => assert Step(cfg, s, e).intents == s.intents;
  }

  lemma PersistedNumbers(s: State)
    requires NumbersApart(s.intents)
    ensures NumbersApart(Persist(s).intents)
  {}

  lemma AskedNumbers(cfg: Config, s: State, ask: Ask, a: Answers, caller: Caller)
    requires Fair(cfg) && NumbersApart(s.intents) && NumbersMatch(s.intents) && SearchHonest(s, a.found)
    ensures NumbersApart(Begin(s, AskFor(cfg, s, ask, a), caller).intents) <==> !LabCollision(cfg, s, ask, a)
  {
    hide Fair, NumbersApart, AskForIssue, AskForLab, NumbersMatch, Numbers, LabTaken, ByKey;
    var o := AskFor(cfg, s, ask, a);
    if ask.AskLab? && LabKey(ask.finding, ask.key) !in s.intents { NewFindingGoes(cfg, s, ask.finding, ask.key, a); }
    if o.Go? {
      match ask {
        case AskIssue(kind, title, id, key, metadata) => IssueNumber(cfg, s, kind, title, id, key, metadata, a);
        case AskLab(finding, key) => LabNumber(cfg, s, finding, key, a);
      }
      NumbersAdd(s.intents, o.request.key, Intent(o.request.content.identifier, o.request.content, Sending));
    }
  }

  /** In every run without that collision, an identifier belongs to one decision key. */
  lemma {:induction false} NumberBelongsToOneKey(cfg: Config, tr: seq<State>, es: seq<Event>, n: nat)
    requires Fair(cfg) && IsRun(cfg, tr, es) && n < |tr|
    requires forall k :: 0 <= k < n ==> !Collides(cfg, tr[k], es[k])
    ensures NumbersApart(tr[n].intents)
  {
    hide Fair, Step, Enabled, Collides, SendInv, PlanInv, AllBacked, OnePerKey, HistoryKept, RequestInv;
    if n > 0 {
      NumberBelongsToOneKey(cfg, tr, es, n - 1);
      Reachable(cfg, tr, es, n - 1);
      NumbersStep(cfg, tr[n - 1], es[n - 1]);
    }
  }

  // ------------------------------------------------------------------ two runs

  /** Text functions at their plainest, with the series of numbers exhausted. */
  const PLAIN := Config(x => x, (kind, id) => true, (kind, taken) => None, finding => true,
                        (kind, title, id, metadata) => "", (finding, id) => "")

  lemma PlainIsFair()
    ensures Fair(PLAIN)
  {}

  const NOTHING := State(map[], [], map[], map[], [], [], {}, {}, {}, {}, Idle)

  /** A run that ends with a collision: a number is given, the call dies, and a finding is keyed by that number. */
  lemma CollisionExample() returns (tr: seq<State>, es: seq<Event>)
    ensures IsRun(PLAIN, tr, es) && |es| == 3
    ensures NumbersApart(tr[2].intents) && Collides(PLAIN, tr[2], es[2]) && !NumbersApart(tr[3].intents)
  {
    hide Step, Enabled, NumbersApart, Collides, Fair;
    var first := Asked(AskIssue(I, "title", "n", "k", NO_METADATA), Answers(true, {}, []));
    var last := Asked(AskLab(Finding("", "finding", ""), "n"), Answers(true, {}, []));
    FirstGoes(PLAIN, NOTHING, "n");
    var s1 := Step(PLAIN, NOTHING, first);
    Crashes(PLAIN, s1);
    var s2 := Step(PLAIN, s1, Crash);
    PlainIsFair();
    OneNumber(s2.intents, "k");
    SecondCollides(s2);
    NumbersStep(PLAIN, s2, last);
    tr, es := [NOTHING, s1, s2, Step(PLAIN, s2, last)], [first, Crash, last];
  }

  lemma Crashes(cfg: Config, s: State)
    ensures Enabled(s, Crash) && Step(cfg, s, Crash) == s.(process := Idle)
  {}

  lemma SecondCollides(s: State)
    requires s.process == Idle && s.created == []
    requires s.intents.Keys == {"k"} && s.intents["k"].identifier == s.intents["k"].content.identifier == "n"
    ensures var last := Asked(AskLab(Finding("", "finding", ""), "n"), Answers(true, {}, []));
      Enabled(s, last) && Collides(PLAIN, s, last) && NumbersMatch(s.intents)
  {
    hide LabTaken;
    assert "n" in Numbers(s.intents);
  }

  lemma OneNumber(intents: map<Key, Intent>, key: Key)
    requires intents.Keys == {key}
    ensures NumbersApart(intents)
  {}

  /** A creation under a fresh number goes out. */
  lemma FirstGoes(cfg: Config, s: State, id: Id)
    requires cfg == PLAIN && s.process == Idle && s.created == [] && s.intents == map[] && id != ""
    ensures Enabled(s, Asked(AskIssue(I, "title", id, "k", NO_METADATA), Answers(true, {}, [])))
    ensures var t := Step(cfg, s, Asked(AskIssue(I, "title", id, "k", NO_METADATA), Answers(true, {}, [])));
      && t.intents.Keys == {"k"} && t.intents["k"].identifier == id && t.intents["k"].content.identifier == id
      && t == s.(intents := t.intents, process := t.process)
  {}

  /**
   A run after which a persisted plan can never be resumed as it stands: the process dies once the
   plan is written, another creation is given the planned number, and every retry is refused.
   */
  lemma StuckTransfer() returns (tr: seq<State>, es: seq<Event>, scope: Scope)
    ensures IsRun(PLAIN, tr, es) && |es| == 3
    ensures es[0] == Planned(scope, Answers(false, {}, [])) && "src" in tr[1].plans && tr[1].plans["src"].scope == scope
    ensures tr[3].plans == tr[1].plans && forall remoteIds: set<Id> :: PlanFor(PLAIN, tr[3], scope, remoteIds).None?
  {
    scope := Scope(Source("src", "", ["c"], None, ""), [Successor("n", "t", ["c"], "")], "");
    hide Step, Enabled, PlanFor, Usable, Known;
    var first := Planned(scope, Answers(false, {}, []));
    var second := Asked(AskIssue(I, "title", "n", "k", NO_METADATA), Answers(true, {}, []));
    PlanIsWritten(scope);
    var s1 := Step(PLAIN, NOTHING, first);
    FirstGoes(PLAIN, s1, "n");
    var s2 := Step(PLAIN, s1, second);
    Crashes(PLAIN, s2);
    var s3 := Step(PLAIN, s2, Crash);
    forall remoteIds: set<Id> ensures PlanFor(PLAIN, s3, scope, remoteIds).None? {
      RetryExactly(PLAIN, s3, scope, remoteIds);
      NotOurs(s3, remoteIds);
      assert s3.plans["src"].identifiers == ["n"];
    }
    tr, es := [NOTHING, s1, s2, s3], [first, second, Crash];
  }

  predicate OneSuccessor(scope: Scope) {
    scope == Scope(Source("src", "", ["c"], None, ""), [Successor("n", "t", ["c"], "")], "")
  }

  lemma PlanIsWritten(scope: Scope)
    requires OneSuccessor(scope)
    ensures var first := Planned(scope, Answers(false, {}, []));
      && Enabled(NOTHING, first)
      && Step(PLAIN, NOTHING, first) == NOTHING.(plans := map["src" := Plan(scope, ["n"])])
      && GoodPlan(PLAIN, "src", Plan(scope, ["n"]))
  {
    hide PlanSound, PlannedIds;
    PlanIsSound(scope);
    PlanIsFree(scope);
    assert Trimmed(PLAIN, ["n"][0]);
  }

  lemma PlanIsSound(scope: Scope)
    requires OneSuccessor(scope)
    ensures PlanSound(PLAIN, scope)
  {
    var one := scope.successors;
    OneClean();
    hide Clean;
    assert one[..0] == [] && Transferred(PLAIN, one) == ["c"];
  }

  lemma OneClean()
    ensures Clean(PLAIN, ["c"]) == ["c"]
  {
    assert ["c"][..0] == [];
  }

  lemma PlanIsFree(scope: Scope)
    requires OneSuccessor(scope)
    ensures PlannedIds(PLAIN, NOTHING, scope, {}) == Some(["n"])
  {
    var taken := Known(NOTHING, {}) + {"src"};
    assert Wanted(PLAIN, NOTHING, scope) == ["n"];
    assert ["n"][0] == "n" && ["n"][1..] == [];
    assert Choose(PLAIN, NOTHING, "src", "n", taken) == Some("n");
    assert Resolve(PLAIN, NOTHING, "src", [], taken + {"n"}) == Some([]);
    assert Resolve(PLAIN, NOTHING, "src", ["n"], taken) == Some(["n"] + []);
    assert ["n"] + [] == ["n"] && PLAIN.strip("src") == "src";
  }

  /** A number held by another key's intent alone is taken, and not the transfer's own. */
  lemma NotOurs(s: State, remoteIds: set<Id>)
    requires s.intents.Keys == {"k"} && s.intents["k"].identifier == "n" && s.created == []
    ensures !Usable(PLAIN, s, "src", ["n"], 0, Known(s, remoteIds) + {"src"})
  {
    assert "n" in Known(s, remoteIds);
  }
}
