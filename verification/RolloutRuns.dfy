/** Theorems over whole runs of the rolling update, under any environment. */
module RolloutRuns {
  import opened Common
  import opened TextOrder
  import opened Timestamps
  import opened RolloutModel
  import opened RolloutProofs
  import opened RolloutInvariant

  /** A run: any sequence of operations, agent reports and environment changes from the idle state. */
  ghost predicate IsRun(tr: seq<System>, es: seq<Event>) {
    && |tr| == |es| + 1
    && tr[0].rollout.state.Idle? && tr[0].rollout.nodes == []
    && forall k :: 0 <= k < |es| ==> tr[k + 1] == Step(tr[k], es[k])
  }

  lemma {:induction false} Reachable(tr: seq<System>, es: seq<Event>, n: nat)
    requires IsRun(tr, es) && n < |tr|
    ensures Inv(tr[n])
  {
    if n > 0 {
      Reachable(tr, es, n - 1);
      InvStep(tr[n - 1], es[n - 1]);
    }
  }

  /**
   In every reachable forward rollout the phases read READY..., at most one active, PENDING...;
   before promotion every node after the canary is still PENDING.
   */
  lemma OneNodeAtATime(tr: seq<System>, es: seq<Event>, n: nat) returns (a: nat)
    requires IsRun(tr, es) && n < |tr| && Forwards(tr[n].rollout.state)
    ensures var r := tr[n].rollout;
      && a <= |r.nodes| && Splits(r.nodes, a)
      && (a < |r.nodes| ==> Active(r.nodes[a].phase) || r.nodes[a].phase.Pending?)
      && (!r.promoted ==> a <= 1 && forall i :: 0 < i < |r.nodes| ==> r.nodes[i].phase.Pending?)
  {
    Reachable(tr, es, n);
    var nodes := tr[n].rollout.nodes;
    a := FirstActive(nodes, 0);
    if a == |nodes| { a := FirstPending(nodes, 0); }
    forall i | 0 <= i < |nodes| ensures Allowed(Running, nodes[i].phase) {}
    if a < |nodes| { ActiveSplits(nodes, a); }
    assert a > 1 ==> nodes[1].phase.Ready?;
  }

  // ------------------------------------------------------------------ what one step can do

  /** A new operation replaced the rollout. */
  ghost predicate Restarts(s: System, t: System) {
    && t.rollout.operation == s.drawn && t.drawn == s.drawn + 1
    && !Ongoing(s.rollout.state)
    && t.rollout.coordinators == map[] && t.workers == s.workers
    && forall i :: 0 <= i < |t.rollout.nodes| ==>
         t.rollout.nodes[i].phase.Pending? && t.rollout.nodes[i].request.None?
  }

  /** Node `i` became READY on the self-test that was on record, which echoes its own earlier request. */
  ghost predicate ApprovedIn(s: System, t: System, i: nat) {
    && i < |s.rollout.nodes| == |t.rollout.nodes|
    && s.rollout.nodes[i].phase.SelfTesting? && t.rollout.nodes[i].phase.Ready?
    && ApprovedBy(s, s.rollout.nodes[i])
  }

  /** Node `i` was confirmed rolled back by the self-test on record. */
  ghost predicate ConfirmedIn(s: System, t: System, i: nat) {
    && i < |s.rollout.nodes| == |t.rollout.nodes|
    && s.rollout.nodes[i].phase.RollingBack? && t.rollout.nodes[i].phase.RolledBack?
    && t.rollout.nodes[i].previous == s.rollout.nodes[i].previous
    && t.rollout.nodes[i].startedAt == s.rollout.nodes[i].startedAt
    && ConfirmedBy(s, t.rollout.nodes[i])
  }

  /** Node `i` went on to its update as its record reported drained, and noted the version it reported. */
  ghost predicate DrainedIn(s: System, t: System, i: nat) {
    && i < |s.rollout.nodes| == |t.rollout.nodes|
    && (s.rollout.nodes[i].phase.Pending? || s.rollout.nodes[i].phase.Draining?)
    && t.rollout.nodes[i].phase.Updating?
    && ReportsDrained(s, s.rollout.nodes[i].id)
    && t.rollout.nodes[i].previous == ReportedVersion(s, s.rollout.nodes[i].id)
  }

  function Rank(p: Phase): nat {
    match p
    case Pending => 0 case Draining => 1 case Updating => 2 case SelfTesting => 3 case Ready => 4
    case Failed => 5 case RollingBack => 6
    case Cancelled => 7 case RolledBack => 7 case RollbackFailed => 7
  }

  /** The phase of node `i` is unchanged or of higher rank. */
  ghost predicate Raises(s: System, t: System, i: nat)
    requires i < |s.rollout.nodes| && i < |t.rollout.nodes|
  {
    t.rollout.nodes[i].phase == s.rollout.nodes[i].phase
    || Rank(t.rollout.nodes[i].phase) > Rank(s.rollout.nodes[i].phase)
  }

  predicate RepeatedRollback(s: System, e: Event) {
    e.Rollback? && s.rollout.state.Reverting?
  }

  /** Everything a step that is not a restart does to one node. */
  ghost predicate NodeStep(s: System, t: System, i: nat, repeated: bool)
    requires i < |s.rollout.nodes| && i < |t.rollout.nodes|
  {
    && (t.rollout.nodes[i].phase.Ready? ==> s.rollout.nodes[i].phase.Ready? || ApprovedIn(s, t, i))
    && (t.rollout.nodes[i].phase.RolledBack? ==> s.rollout.nodes[i].phase.RolledBack? || ConfirmedIn(s, t, i))
    && (t.rollout.nodes[i].phase.Updating? ==> s.rollout.nodes[i].phase.Updating? || DrainedIn(s, t, i))
    && (t.rollout.nodes[i].phase.SelfTesting? ==>
          s.rollout.nodes[i].phase.SelfTesting? || s.rollout.nodes[i].phase.Updating?)
    && (t.rollout.nodes[i].previous == s.rollout.nodes[i].previous || DrainedIn(s, t, i))
    && (!repeated ==> Raises(s, t, i))
  }

  ghost predicate Continues(s: System, t: System, repeated: bool) {
    && Skeleton(s, t)
    && forall i :: 0 <= i < |s.rollout.nodes| ==> NodeStep(s, t, i, repeated)
  }

  lemma ForwardContinues(s: System, t: System, a: nat, now: Instant)
    requires Inv(s) && s.rollout.state.Running? && Forward(s, t, a, now)
    ensures Continues(s, t, false)
  {
    hide Wf, Frame, InLine, CanaryGate, Confirmed, Fails, ReportsDrained, ReportedVersion;
    FrameSkeleton(s, t);
    hide Skeleton;
    assert KeepsNode(s, t, a) by { SkeletonNode(s, t, a); }
  }

  lemma FrameSkeleton(s: System, t: System)
    requires Frame(s, t)
    ensures Skeleton(s, t) && |t.rollout.nodes| == |s.rollout.nodes|
  {}

  lemma SkeletonNode(s: System, t: System, i: nat)
    requires Skeleton(s, t) && i < |s.rollout.nodes|
    ensures KeepsNode(s, t, i)
  {}

  lemma CollapseContinues(s: System, t: System, a: nat, now: Instant)
    requires Inv(s) && Forwards(s.rollout.state) && Collapses(s, t, a, now)
    ensures Continues(s, t, false)
  {
    hide Wf, Frame, InLine, CanaryGate, Updated, AnyRollingBack;
    FrameSkeleton(s, t);
    hide Skeleton;
    forall i | 0 <= i < |s.rollout.nodes| ensures NodeStep(s, t, i, false) {
      assert Allowed(s.rollout.state, s.rollout.nodes[i].phase);
    }
  }

  lemma BeginContinues(s: System, now: Instant)
    requires Inv(s) && Ongoing(s.rollout.state)
    ensures Continues(s, Begin(s, now), s.rollout.state.Reverting?)
  {
    hide Wf, Frame, InLine, CanaryGate, Updated, AnyRollingBack, Begin;
    BeginMeaning(s, now);
    var t := Begin(s, now);
    FrameSkeleton(s, t);
    hide Skeleton;
    forall i | 0 <= i < |s.rollout.nodes| ensures NodeStep(s, t, i, s.rollout.state.Reverting?) {
      assert Allowed(s.rollout.state, s.rollout.nodes[i].phase);
    }
  }

  lemma RevertContinues(s: System, now: Instant)
    requires Inv(s) && s.rollout.state.Reverting?
    ensures Continues(s, RevertNodes(s, 0, now), false)
  {
    hide Wf, Frame, RevertNodes, AnyRollingBack, AnyOverdue, AnyRevertFailure, ConfirmedBy;
    RevertNodesMeaning(s, 0, now);
    var t := RevertNodes(s, 0, now);
    FrameSkeleton(s, t);
    hide Skeleton;
    forall i | 0 <= i < |s.rollout.nodes| ensures NodeStep(s, t, i, false) {
      assert Reverts(s, s.rollout.nodes[i], t.rollout.nodes[i]);
    }
  }

  lemma SameNodesContinues(s: System, t: System)
    requires t.rollout.nodes == s.rollout.nodes && s.drawn == t.drawn
    requires t.rollout.operation == s.rollout.operation && t.rollout.target == s.rollout.target &&
      t.rollout.timeout == s.rollout.timeout
    ensures Continues(s, t, false)
  {}

  lemma TickContinues(s: System, now: Instant)
    requires Inv(s)
    ensures Continues(s, Reconcile(s, now), false)
  {
    hide Wf, RevertNodes, RunActive, Forward, Collapses, Continues, Inv, Cleanup, Splits;
    CleanupKeeps(s);
    var t := Reconcile(s, now);
    match s.rollout.state
    case Reverting => RevertContinues(s, now);
    case Running =>
      var a := RunActiveMeaning(s, now);
      if AllReady(s.rollout.nodes) { SameNodesContinues(s, t); }
      else if Collapses(s, t, a, now) { CollapseContinues(s, t, a, now); }
      else { ForwardContinues(s, t, a, now); }
    case _ => SameNodesContinues(s, t);
  }

  lemma CancelContinues(s: System)
    requires Inv(s)
    ensures Continues(s, Cancel(s), false)
  {
    hide Wf, InLine, CanaryGate, AnyRollingBack;
    var t := Cancel(s);
    forall i | 0 <= i < |s.rollout.nodes| ensures KeepsNode(s, t, i) && NodeStep(s, t, i, false) {
      assert Allowed(s.rollout.state, s.rollout.nodes[i].phase);
    }
  }

  /** Every step restarts the rollout or continues it node by node. */
  lemma StepContinues(s: System, e: Event)
    requires Inv(s)
    ensures var t := Step(s, e);
      Restarts(s, t) || Continues(s, t, RepeatedRollback(s, e))
  {
    hide Inv, Continues, Begin, Reconcile, Cancel;
    var t := Step(s, e);
    match e
    case Launch(target, ids, order, timeout, canary, now) => if t == s { SameNodesContinues(s, t); }
    case Promotion => SameNodesContinues(s, t);
    case Cancellation => CancelContinues(s);
    case Rollback(now) => if Ongoing(s.rollout.state) { BeginContinues(s, now); } else { SameNodesContinues(s, s); }
    case Tick(now) => TickContinues(s, now);
    case Report(id, changes, now) => SameNodesContinues(s, t);
    case Environment(workers) => SameNodesContinues(s, t);
  }

  // ------------------------------------------------------------------ approval

  /** Between `k` and `n` the operation, its target and node `i` are the same. */
  ghost predicate SameNode(s: System, t: System, i: nat) {
    && i < |s.rollout.nodes| && i < |t.rollout.nodes|
    && s.rollout.operation == t.rollout.operation && s.rollout.target == t.rollout.target
    && s.rollout.nodes[i].id == t.rollout.nodes[i].id
  }

  lemma ContinuesSame(s: System, t: System, repeated: bool, i: nat)
    requires Continues(s, t, repeated) && i < |t.rollout.nodes|
    ensures SameNode(s, t, i) && NodeStep(s, t, i, repeated) && KeepsNode(s, t, i)
  {
    assert KeepsNode(s, t, i);
  }

  /** The step of the run at which a READY node was approved. */
  lemma {:induction false} ReadyWasApproved(tr: seq<System>, es: seq<Event>, n: nat, i: nat) returns (k: nat)
    requires IsRun(tr, es) && n < |tr| && i < |tr[n].rollout.nodes| && tr[n].rollout.nodes[i].phase.Ready?
    ensures k < n && SameNode(tr[k], tr[n], i) && ApprovedIn(tr[k], tr[k + 1], i)
  {
    hide Step, Continues, NodeStep, ApprovedIn, Inv;
    assert n > 0;
    var s, t := tr[n - 1], tr[n];
    Reachable(tr, es, n - 1);
    StepContinues(s, es[n - 1]);
    var repeated := RepeatedRollback(s, es[n - 1]);
    assert Continues(s, t, repeated);
    ContinuesSame(s, t, repeated, i);
    if s.rollout.nodes[i].phase.Ready? {
      k := ReadyWasApproved(tr, es, n - 1, i);
    } else {
      k := n - 1;
      assert ApprovedIn(s, t, i) by { NodeStepApproved(s, t, i, repeated); }
    }
  }

  lemma NodeStepApproved(s: System, t: System, i: nat, repeated: bool)
    requires i < |s.rollout.nodes| && i < |t.rollout.nodes| && NodeStep(s, t, i, repeated)
    ensures t.rollout.nodes[i].phase.Ready? && !s.rollout.nodes[i].phase.Ready? ==> ApprovedIn(s, t, i)
    ensures t.rollout.nodes[i].phase.RolledBack? && !s.rollout.nodes[i].phase.RolledBack? ==> ConfirmedIn(s, t, i)
    ensures t.rollout.nodes[i].phase.Updating? && !s.rollout.nodes[i].phase.Updating? ==> DrainedIn(s, t, i)
    ensures t.rollout.nodes[i].previous != s.rollout.nodes[i].previous ==> DrainedIn(s, t, i)
    ensures !t.rollout.nodes[i].phase.Updating? ==>
      t.rollout.nodes[i].previous == s.rollout.nodes[i].previous
    ensures t.rollout.nodes[i].phase.SelfTesting? ==>
      s.rollout.nodes[i].phase.SelfTesting? || s.rollout.nodes[i].phase.Updating?
    ensures !repeated ==> Raises(s, t, i)
  {}

  /** Some earlier step of the same operation approved node `i`. */
  ghost predicate WasApproved(tr: seq<System>, n: nat, i: nat)
    requires n < |tr|
  {
    exists k :: 0 <= k < n && SameNode(tr[k], tr[n], i) && ApprovedIn(tr[k], tr[k + 1], i)
  }

  /**
   SUCCEEDED only if every node, in this operation, became READY while its record reported the
   target version with a PASSED self-test that echoed the nonce, operation and version already
   requested from that node and was not stamped before the phase began.
   */
  lemma SucceededOnlyIfApproved(tr: seq<System>, es: seq<Event>, n: nat)
    requires IsRun(tr, es) && n < |tr| && tr[n].rollout.state.Succeeded?
    ensures forall i :: 0 <= i < |tr[n].rollout.nodes| ==> WasApproved(tr, n, i)
  {
    Reachable(tr, es, n);
    hide Step, ApprovedIn, SameNode;
    forall i | 0 <= i < |tr[n].rollout.nodes| ensures WasApproved(tr, n, i) {
      var k := ReadyWasApproved(tr, es, n, i);
    }
  }

  /**
   Not stamped before the start, as far as the text tells: a stamp in the tester's own UTC shape is
   not older than the start, nor is any with a zero or western offset unless it is marked `Z` with
   fewer than six digits; what another says is that its clock reading passes.
   */
  ghost predicate NotStampedBefore(text: string, start: Instant) {
    && (text != "" && text[0] >= '0')
    && (forall at: Instant :: text == Iso(at) ==> start <= at)
    && (forall r: Reading :: IsReading(r) && text == Stamp(r) ==>
         Passes(start, r) && (ZeroOrWest(r.zone) && !ShortZulu(r) ==> start <= TimeOf(r)))
  }

  lemma FreshText(text: string, start: Instant)
    requires NotBefore(text, start)
    ensures NotStampedBefore(text, start)
  {
    hide Iso, Stamp, TextLeq, Passes, ShortZulu, ShortOffset, YearOf;
    if text == "" || text[0] < '0' { EarlyText(start, text); }
    forall at: Instant | text == Iso(at) ensures start <= at { IsoOrder(start, at); }
    forall r: Reading | IsReading(r) && text == Stamp(r)
      ensures Passes(start, r) && (ZeroOrWest(r.zone) && !ShortZulu(r) ==> start <= TimeOf(r))
    {
      StampAgainstStart(start, r);
      if ZeroOrWest(r.zone) && !ShortZulu(r) { PassesByClock(start, r); }
    }
  }

  /** The evidence spelled out: what the record said in the step that made node `i` READY. */
  lemma ApprovalEvidence(s: System, t: System, i: nat)
    requires ApprovedIn(s, t, i)
    ensures var n := s.rollout.nodes[i];
      && RecordOf(s, n.id).Some?
      && var test := TestOf(RecordOf(s, n.id).value);
      && Get(RecordOf(s, n.id).value, Version) == s.rollout.target
      && n.request.Some? && n.request.value.operation == s.rollout.operation
      && n.request.value.target == s.rollout.target
      && test.status == Text("PASSED") && test.nonce == Token(n.request.value.nonce)
      && test.operation == Token(s.rollout.operation) && test.target == s.rollout.target
      && NotStampedBefore(test.checkedAt, n.startedAt)
  {
    hide NotStampedBefore, NotBefore;
    FreshText(TestOf(RecordOf(s, s.rollout.nodes[i].id).value).checkedAt, s.rollout.nodes[i].startedAt);
  }

  // ------------------------------------------------------------------ the version to go back to

  /**
   Every step of an operation, spelled out: a node that leaves PENDING or DRAINING for UPDATING has
   a record that reports drained, a CORE by a true `drained`, a worker by no current task and a
   status other than BUSY, and its previous version becomes the one that record reports; every
   other step keeps the previous version.
   */
  lemma PreviousStep(s: System, e: Event, i: nat)
    requires Inv(s) && i < |s.rollout.nodes| && !Restarts(s, Step(s, e))
    ensures var t := Step(s, e);
      && i < |t.rollout.nodes|
      && var n, m := s.rollout.nodes[i], t.rollout.nodes[i];
      if (n.phase.Pending? || n.phase.Draining?) && m.phase.Updating? then
        && RecordOf(s, n.id).Some?
        && var rec := RecordOf(s, n.id).value;
        && m.previous == Get(rec, Version)
        && (IsCore(n.id) ==>
             Get(rec, Drained) != Null && Get(rec, Drained) != Text("") && Get(rec, Drained) != Flag(false))
        && (!IsCore(n.id) ==>
             && (Get(rec, CurrentTask) == Null || Get(rec, CurrentTask) == Text("")
                 || Get(rec, CurrentTask) == Flag(false))
             && Get(rec, Status) != Text("BUSY"))
      else m.previous == n.previous
  {
    hide Step, Inv, Continues, NodeStep, IsCore;
    var t, repeated := Step(s, e), RepeatedRollback(s, e);
    StepContinues(s, e);
    ContinuesLength(s, t, repeated);
    ContinuesSame(s, t, repeated, i);
    NodeStepApproved(s, t, i, repeated);
  }

  lemma ContinuesLength(s: System, t: System, repeated: bool)
    requires Continues(s, t, repeated)
    ensures |t.rollout.nodes| == |s.rollout.nodes|
  {}

  predicate Underway(p: Phase) {
    p.Updating? || p.SelfTesting? || p.Ready?
  }

  /**
   In every run, a node with a previous version, or whose update has begun, left draining at an
   earlier step of the same operation while its record reported exactly that version.
   */
  lemma {:induction false} PreviousWasReported(tr: seq<System>, es: seq<Event>, n: nat, i: nat) returns (k: nat)
    requires IsRun(tr, es) && n < |tr| && i < |tr[n].rollout.nodes|
    requires tr[n].rollout.nodes[i].previous != Null || Underway(tr[n].rollout.nodes[i].phase)
    ensures k < n && SameNode(tr[k], tr[n], i) && DrainedIn(tr[k], tr[k + 1], i)
    ensures ReportedVersion(tr[k], tr[n].rollout.nodes[i].id) == tr[n].rollout.nodes[i].previous
  {
    hide Step, Continues, NodeStep, Inv, ReportedVersion, ReportsDrained;
    assert n > 0;
    var s, t := tr[n - 1], tr[n];
    Reachable(tr, es, n - 1);
    StepContinues(s, es[n - 1]);
    NeverRestarted(s, es[n - 1], i);
    var repeated := RepeatedRollback(s, es[n - 1]);
    ContinuesSame(s, t, repeated, i);
    NodeStepApproved(s, t, i, repeated);
    if DrainedIn(s, t, i) {
      k := n - 1;
    } else {
      k := PreviousWasReported(tr, es, n - 1, i);
    }
  }

  /** A new operation starts with nothing to go back to. */
  lemma NeverRestarted(s: System, e: Event, i: nat)
    requires Inv(s) && i < |Step(s, e).rollout.nodes|
    requires Step(s, e).rollout.nodes[i].previous != Null || Underway(Step(s, e).rollout.nodes[i].phase)
    ensures Continues(s, Step(s, e), RepeatedRollback(s, e))
  {
    StepContinues(s, e);
    hide Continues, Inv, Reconcile, Begin, Cancel, UpdateCoordinator, OrderedNodes;
    if Restarts(s, Step(s, e)) { StartsFresh(s, e, i); }
  }

  lemma StartsFresh(s: System, e: Event, i: nat)
    requires Restarts(s, Step(s, e)) && Inv(s) && i < |Step(s, e).rollout.nodes| && e.Launch?
    ensures Step(s, e).rollout.nodes[i].previous == Null
  {
    hide OrderedNodes;
  }

  // ------------------------------------------------------------------ nonces

  lemma {:induction false} DrawnGrows(tr: seq<System>, es: seq<Event>, m: nat, n: nat)
    requires IsRun(tr, es) && m <= n < |tr|
    ensures tr[m].drawn <= tr[n].drawn
    decreases n - m
  {
    hide Step, Continues, Inv;
    if m < n {
      DrawnGrows(tr, es, m, n - 1);
      Reachable(tr, es, n - 1);
      StepContinues(tr[n - 1], es[n - 1]);
      DrawnStep(tr[n - 1], tr[n], RepeatedRollback(tr[n - 1], es[n - 1]));
    }
  }

  lemma DrawnStep(s: System, t: System, repeated: bool)
    requires Restarts(s, t) || Continues(s, t, repeated)
    ensures s.drawn <= t.drawn
  {}

  /** A request seen later was already there, or its nonce was drawn in between. */
  lemma {:induction false} RequestAge(tr: seq<System>, es: seq<Event>, m: nat, n: nat, i: nat)
    requires IsRun(tr, es) && m <= n < |tr| && i < |tr[n].rollout.nodes| && tr[n].rollout.nodes[i].request.Some?
    ensures || tr[n].rollout.nodes[i].request.value.nonce >= tr[m].drawn
            || (SameNode(tr[m], tr[n], i) && tr[m].rollout.nodes[i].request == tr[n].rollout.nodes[i].request)
    decreases n - m
  {
    hide Step, Continues, NodeStep, Inv;
    if m < n {
      var s, t := tr[n - 1], tr[n];
      Reachable(tr, es, n - 1);
      StepContinues(s, es[n - 1]);
      DrawnGrows(tr, es, m, n - 1);
      ContinuesSame(s, t, RepeatedRollback(s, es[n - 1]), i);
      if t.rollout.nodes[i].request == s.rollout.nodes[i].request {
        RequestAge(tr, es, m, n - 1, i);
      }
    }
  }

  /**
   A nonce belongs to one node of one operation for one version: wherever in a run two requests
   carry the same nonce, they are the same request of the same node.
   */
  lemma NonceBelongsToOneNode(tr: seq<System>, es: seq<Event>, m: nat, i: nat, n: nat, j: nat)
    requires IsRun(tr, es) && m <= n < |tr|
    requires i < |tr[m].rollout.nodes| && tr[m].rollout.nodes[i].request.Some?
    requires j < |tr[n].rollout.nodes| && tr[n].rollout.nodes[j].request.Some?
    requires tr[m].rollout.nodes[i].request.value.nonce == tr[n].rollout.nodes[j].request.value.nonce
    ensures i == j && SameNode(tr[m], tr[n], i) && tr[m].rollout.nodes[i].request == tr[n].rollout.nodes[j].request
  {
    hide Step;
    Reachable(tr, es, m);
    RequestAge(tr, es, m, n, j);
  }

  // ------------------------------------------------------------------ progress and termination

  function TotalRank(nodes: seq<Node>): (r: nat)
    ensures r <= 7 * |nodes|
  {
    if nodes == [] then 0 else TotalRank(nodes[..|nodes| - 1]) + Rank(nodes[|nodes| - 1].phase)
  }

  /** How many nodes change phase between two states. */
  function Changed(a: seq<Node>, b: seq<Node>): nat
    requires |a| == |b|
  {
    if a == [] then 0
    else Changed(a[..|a| - 1], b[..|b| - 1]) + if a[|a| - 1].phase == b[|b| - 1].phase then 0 else 1
  }

  ghost predicate AllRaise(a: seq<Node>, b: seq<Node>) {
    |a| == |b| &&
    forall i :: 0 <= i < |a| ==> a[i].phase == b[i].phase || Rank(a[i].phase) < Rank(b[i].phase)
  }

  lemma {:induction false} ChangesRaiseRank(a: seq<Node>, b: seq<Node>)
    requires AllRaise(a, b)
    ensures TotalRank(a) + Changed(a, b) <= TotalRank(b)
  {
    if a != [] { ChangesRaiseRank(a[..|a| - 1], b[..|b| - 1]); }
  }

  /** One operation, no second operator rollback. */
  ghost predicate OneOperation(tr: seq<System>, es: seq<Event>, m: nat, n: nat) {
    && IsRun(tr, es) && m <= n < |tr|
    && (forall k :: m <= k < n ==> !Restarts(tr[k], tr[k + 1]) && !RepeatedRollback(tr[k], es[k]))
  }

  lemma StepRaises(tr: seq<System>, es: seq<Event>, k: nat)
    requires IsRun(tr, es) && k < |es| && !Restarts(tr[k], tr[k + 1]) && !RepeatedRollback(tr[k], es[k])
    ensures AllRaise(tr[k].rollout.nodes, tr[k + 1].rollout.nodes)
  {
    hide Step, Inv, ApprovedIn, ConfirmedIn;
    Reachable(tr, es, k);
    StepContinues(tr[k], es[k]);
    var s, t := tr[k], tr[k + 1];
    forall i | 0 <= i < |s.rollout.nodes|
      ensures s.rollout.nodes[i].phase == t.rollout.nodes[i].phase
           || Rank(s.rollout.nodes[i].phase) < Rank(t.rollout.nodes[i].phase)
    {
      assert NodeStep(s, t, i, false);
    }
  }

  function ChangesBetween(tr: seq<System>, m: nat, n: nat): nat
    requires m <= n < |tr|
    requires forall k :: m <= k < n ==> |tr[k].rollout.nodes| == |tr[k + 1].rollout.nodes|
  {
    if m == n then 0 else ChangesBetween(tr, m, n - 1) + Changed(tr[n - 1].rollout.nodes, tr[n].rollout.nodes)
  }

  /**
   Without a repeated operator rollback every phase change raises the node's rank, so an
   operation on n nodes makes at most 7n phase changes in all, however long it runs.
   */
  lemma {:induction false} LinearlyManyChanges(tr: seq<System>, es: seq<Event>, m: nat, n: nat)
    requires OneOperation(tr, es, m, n)
    ensures forall k :: m <= k < n ==> |tr[k].rollout.nodes| == |tr[k + 1].rollout.nodes|
    ensures |tr[n].rollout.nodes| == |tr[m].rollout.nodes|
    ensures TotalRank(tr[m].rollout.nodes) + ChangesBetween(tr, m, n) <= TotalRank(tr[n].rollout.nodes)
    ensures ChangesBetween(tr, m, n) <= 7 * |tr[m].rollout.nodes|
    decreases n - m
  {
    hide Step, Restarts;
    if m < n {
      LinearlyManyChanges(tr, es, m, n - 1);
      StepRaises(tr, es, n - 1);
      ChangesRaiseRank(tr[n - 1].rollout.nodes, tr[n].rollout.nodes);
    }
  }

  /** Exactly when a second operator rollback keeps ranks rising: no node is rolled back already,
      and no cancelled node's worker reports the target version. */
  lemma RepeatedRollbackExact(s: System, now: Instant)
    requires Inv(s) && s.rollout.state.Reverting?
    ensures var t := Step(s, Rollback(now));
      && |t.rollout.nodes| == |s.rollout.nodes|
      && ((forall i :: 0 <= i < |s.rollout.nodes| ==> Raises(s, t, i)) <==>
          forall i :: 0 <= i < |s.rollout.nodes| ==>
            !s.rollout.nodes[i].phase.RolledBack?
            && (s.rollout.nodes[i].phase.Cancelled? ==> !Updated(s, s.rollout.nodes[i])))
  {
    hide Wf, Frame, Updated, AnyRollingBack, Begin;
    BeginMeaning(s, now);
    var t := Begin(s, now);
    FrameSkeleton(s, t);
    forall i | 0 <= i < |s.rollout.nodes|
      ensures Raises(s, t, i) <==>
        (!s.rollout.nodes[i].phase.RolledBack? &&
            (s.rollout.nodes[i].phase.Cancelled? ==> !Updated(s, s.rollout.nodes[i])))
    {
      assert Allowed(Reverting, s.rollout.nodes[i].phase);
    }
  }

  /** Two workers: `w1` reports the target version from the start, `w2` only after a rollback began. */
  function TwoWorkers(late: bool): map<string, Record> {
    map["w1" := map[Version := Text("2.0")], "w2" := map[Version := Text(if late then "2.0" else "1.0")]]
  }

  /**
   A run in which the second operator rollback sends a cancelled node back: `w2` was cancelled
   by the first and has reported the target version since.
   */
  lemma RepeatedRollbackSendsBack(now: Instant) returns (tr: seq<System>, es: seq<Event>)
    ensures IsRun(tr, es) && |es| == 5 && RepeatedRollback(tr[4], es[4])
    ensures |tr[4].rollout.nodes| == |tr[5].rollout.nodes| == 2
    ensures tr[4].rollout.nodes[1].phase.Cancelled? && tr[5].rollout.nodes[1].phase.RollingBack? &&
      !Raises(tr[4], tr[5], 1)
  {
    hide Begin, Step, TwoWorkers, Raises;
    var first, last := Launch("2.0", ["w1", "w2"], Custom, 600, false, now), Rollback(now);
    var s0 := System(Rollout(0, Idle, Null, 0, true, [], map[], None), map[], 0);
    var s1 := Reporting(s0, false);
    LaunchesTwo(s1, now);
    var s2 := Step(s1, first);
    TurnedTwice(s2, s2.rollout.nodes, now);
    var s3 := Step(s2, last);
    var s4 := Reporting(s3, true);
    TurnedTwice(s4, s4.rollout.nodes, now);
    var s5 := Step(s4, last);
    tr, es := [s0, s1, s2, s3, s4, s5],
        [Environment(TwoWorkers(false)), first, last, Environment(TwoWorkers(true)), last];
    Lowers(s4, s5);
  }

  lemma Lowers(s: System, t: System)
    requires |s.rollout.nodes| == |t.rollout.nodes| == 2
    requires s.rollout.nodes[1].phase.Cancelled? && t.rollout.nodes[1].phase.RollingBack?
    ensures !Raises(s, t, 1)
  {}

  /** The environment's report of the two workers. */
  function Reporting(s: System, late: bool): (t: System)
    ensures t.rollout == s.rollout && "w1" in t.workers && "w2" in t.workers && t.workers == TwoWorkers(late)
    ensures Get(t.workers["w1"], Version) == Text("2.0")
    ensures Get(t.workers["w2"], Version) == Text(if late then "2.0" else "1.0")
  {
    Step(s, Environment(TwoWorkers(late)))
  }

  lemma LaunchesTwo(s: System, now: Instant)
    requires !Ongoing(s.rollout.state)
    ensures var t := Step(s, Launch("2.0", ["w1", "w2"], Custom, 600, false, now));
      && t.rollout.state.Running? && t.rollout.target == Text("2.0") && t.workers == s.workers
      && t.rollout.nodes == [Node("w1", Pending, false, Null, now, None), Node("w2", Pending, false, Null, now, None)]
  {
    hide OrderedNodes;
    AsListed();
    assert FreshNodes(["w1", "w2"], false, now)[0].id == "w1";
  }

  lemma AsListed()
    ensures OrderedNodes(["w1", "w2"], Custom) == ["w1", "w2"]
  {
    var ids := ["w1", "w2"];
    assert FirstUses(["w1"]) == ["w1"];
    assert ids[..1] == ["w1"] && FirstUses(ids) == ids;
  }

  /** A rollback over two worker nodes, one node after the other. */
  lemma TurnedTwice(s: System, nodes: seq<Node>, now: Instant)
    requires nodes == s.rollout.nodes && |nodes| == 2 && nodes[0].id == "w1" && nodes[1].id == "w2"
    requires "w1" in s.workers && "w2" in s.workers && Get(s.workers["w1"], Version) == s.rollout.target
    requires Ongoing(s.rollout.state)
    requires !nodes[1].phase.Ready? && !nodes[1].phase.SelfTesting? && !nodes[1].phase.Failed?
    ensures var t := Step(s, Rollback(now));
      && t.rollout.state.Reverting? && t.workers.Keys == s.workers.Keys && |t.rollout.nodes| == 2 &&
          t.rollout.target == s.rollout.target
      && t.rollout.nodes[0].id == "w1" && t.rollout.nodes[1].id == "w2"
      && t.rollout.nodes[1].phase == if Get(s.workers["w2"], Version) == s.rollout.target then RollingBack
          else Cancelled
  {
    hide RollbackCommand, BeginNode, Updated;
    var u := SetState(s, Reverting);
    var one := BeginNode(u, 0, now);
    TurnedOnce(u, 0, now);
    var two := BeginNode(one, 1, now);
    TurnedOnce(one, 1, now);
    assert BeginNodes(u, 0, now) == BeginNodes(one, 1, now) == BeginNodes(two, 2, now) == two;
    assert two.rollout.nodes[0].phase.RollingBack?;
  }

  /** A worker node whose record is there: rolled back if it is ready, under test or at the target, else cancelled. */
  lemma TurnedOnce(s: System, i: nat, now: Instant)
    requires i < |s.rollout.nodes| && !IsCore(s.rollout.nodes[i].id) && s.rollout.nodes[i].id in s.workers
    ensures var n, t := s.rollout.nodes[i], BeginNode(s, i, now);
      && t.rollout.nodes == s.rollout.nodes[i := t.rollout.nodes[i]] && t.rollout.nodes[i].id == n.id
      && t.rollout.state == s.rollout.state && t.rollout.target == s.rollout.target && t.workers.Keys == s.workers.Keys
      && (forall id :: id in s.workers ==> Get(t.workers[id], Version) == Get(s.workers[id], Version))
      && (Get(s.workers[n.id], Version) == s.rollout.target ==> t.rollout.nodes[i].phase.RollingBack?)
      && (Get(s.workers[n.id], Version) != s.rollout.target && !n.phase.Ready? && !n.phase.SelfTesting? &&
          !n.phase.Failed? ==>
            t.rollout.nodes[i].phase.Cancelled?)
  {
    hide IsCore;
  }

  /** Node `i` is active or rolling back, past its timeout. */
  predicate Overran(s: System, i: nat, now: Instant)
    requires i < |s.rollout.nodes|
  {
    && TimedOut(s.rollout.nodes[i], s.rollout.timeout, now)
    && ((s.rollout.state.Running? && Active(s.rollout.nodes[i].phase))
        || (s.rollout.state.Reverting? && s.rollout.nodes[i].phase.RollingBack?))
  }

  /** A reconcile past the timeout of an active or rolling-back node changes some phase. */
  lemma TimeoutChangesSomePhase(s: System, i: nat, now: Instant) returns (j: nat)
    requires Inv(s) && i < |s.rollout.nodes| && Overran(s, i, now)
    ensures var t := Step(s, Tick(now));
      j < |s.rollout.nodes| == |t.rollout.nodes| && t.rollout.nodes[j].phase != s.rollout.nodes[j].phase
  {
    hide Wf, Frame, InLine, CanaryGate, RevertNodes, RunActive, Cleanup;
    CleanupKeeps(s);
    var t := Step(s, Tick(now));
    if s.rollout.state.Running? {
      j := RunActiveMeaning(s, now);
      FrameSkeleton(s, t);
    } else {
      RevertNodesMeaning(s, 0, now);
      assert Overdue(s, s.rollout.nodes[i], now);
      assert AnyOverdue(s, 0, now);
      assert AnyRevertFailure(s, t, 0);
      j :| 0 <= j < |s.rollout.nodes| && s.rollout.nodes[j].phase.RollingBack? &&
          t.rollout.nodes[j].phase.RollbackFailed?;
    }
  }

  /** A reconcile that comes past some node's timeout. */
  ghost predicate LateTick(s: System, e: Event) {
    e.Tick? && exists i :: 0 <= i < |s.rollout.nodes| && Overran(s, i, e.now)
  }

  ghost function LateTicks(tr: seq<System>, es: seq<Event>, m: nat, n: nat): nat
    requires m <= n <= |es| <= |tr|
  {
    if m == n then 0 else LateTicks(tr, es, m, n - 1) + if LateTick(tr[n - 1], es[n - 1]) then 1 else 0
  }

  lemma {:induction false} ChangedSomewhere(a: seq<Node>, b: seq<Node>, j: nat)
    requires j < |a| == |b| && a[j].phase != b[j].phase
    ensures Changed(a, b) >= 1
  {
    if j < |a| - 1 { ChangedSomewhere(a[..|a| - 1], b[..|b| - 1], j); }
  }

  /** So an operation on n nodes sees at most 7n reconciles past a timeout, however long it runs. */
  lemma {:induction false} FewLateTicks(tr: seq<System>, es: seq<Event>, m: nat, n: nat)
    requires OneOperation(tr, es, m, n)
    ensures forall k :: m <= k < n ==> |tr[k].rollout.nodes| == |tr[k + 1].rollout.nodes|
    ensures LateTicks(tr, es, m, n) <= ChangesBetween(tr, m, n)
    ensures LateTicks(tr, es, m, n) <= 7 * |tr[m].rollout.nodes|
    decreases n - m
  {
    hide Step, Restarts, TimedOut, Inv, LateTick;
    LinearlyManyChanges(tr, es, m, n);
    if m < n {
      var k := n - 1;
      FewLateTicks(tr, es, m, k);
      if LateTick(tr[k], es[k]) {
        Reachable(tr, es, k);
        LateTickChanges(tr[k], es[k]);
      }
    }
  }

  lemma LateTickChanges(s: System, e: Event)
    requires Inv(s) && LateTick(s, e) && |Step(s, e).rollout.nodes| == |s.rollout.nodes|
    ensures Changed(s.rollout.nodes, Step(s, e).rollout.nodes) >= 1
  {
    hide Step, Overran, Inv;
    var i :| 0 <= i < |s.rollout.nodes| && Overran(s, i, e.now);
    var j := TimeoutChangesSomePhase(s, i, e.now);
    ChangedSomewhere(s.rollout.nodes, Step(s, e).rollout.nodes, j);
  }

  lemma TerminalStep(s: System, e: Event)
    requires Inv(s) && Terminal(s.rollout.state)
    ensures var t := Step(s, e);
      Restarts(s, t) || (t.rollout.state == s.rollout.state && t.rollout.nodes == s.rollout.nodes)
  {
    CleanupKeeps(s);
    hide Cleanup, Inv;
  }

  /** A finished rollout stays as it is until a new one starts. */
  lemma {:induction false} TerminalStays(tr: seq<System>, es: seq<Event>, m: nat, n: nat)
    requires IsRun(tr, es) && m <= n < |tr| && Terminal(tr[m].rollout.state)
    requires forall k :: m <= k < n ==> !Restarts(tr[k], tr[k + 1])
    ensures tr[n].rollout.state == tr[m].rollout.state && tr[n].rollout.nodes == tr[m].rollout.nodes
    decreases n - m
  {
    hide Step, Restarts;
    if m < n {
      TerminalStays(tr, es, m, n - 1);
      Reachable(tr, es, n - 1);
      TerminalStep(tr[n - 1], es[n - 1]);
    }
  }

  // ------------------------------------------------------------------ failure and rollback

  lemma RollbackTurns(s: System, now: Instant)
    requires Inv(s) && Forwards(s.rollout.state)
    ensures var t := Begin(s, now);
      && |t.rollout.nodes| == |s.rollout.nodes|
      && forall i :: 0 <= i < |s.rollout.nodes| ==>
           var n, m := s.rollout.nodes[i], t.rollout.nodes[i];
           && m.phase == (if n.phase.Ready? || n.phase.SelfTesting?
                             || (n.id in s.workers && Get(s.workers[n.id], Version) == s.rollout.target)
                          then RollingBack else Cancelled)
           && m.previous == n.previous
  {
    hide Wf, Frame, Begin, InLine, CanaryGate, AnyRollingBack;
    BeginMeaning(s, now);
    FrameSkeleton(s, Begin(s, now));
    hide Skeleton;
    forall i | 0 <= i < |s.rollout.nodes| ensures !s.rollout.nodes[i].phase.Failed? {
      assert Allowed(s.rollout.state, s.rollout.nodes[i].phase);
    }
  }

  lemma TickTurns(s: System, now: Instant) returns (a: nat)
    requires Inv(s) && s.rollout.state.Running?
    requires RunActive(s, now).rollout.state.Reverting? || RunActive(s, now).rollout.state.Defeated?
    ensures var t := RunActive(s, now);
      && |t.rollout.nodes| == |s.rollout.nodes|
      && a < |s.rollout.nodes| && !s.rollout.nodes[a].phase.Ready?
      && forall i :: 0 <= i < |s.rollout.nodes| ==>
           var n, m := s.rollout.nodes[i], t.rollout.nodes[i];
           && m.phase == (if n.phase.Ready? || (n.id in s.workers && Get(s.workers[n.id], Version) == s.rollout.target)
                          then RollingBack else if i == a then Failed else Cancelled)
           && m.previous == n.previous
  {
    hide Wf, Frame, RunActive, InLine, CanaryGate, AnyRollingBack, Fails, Forward, Allowed;
    var t := RunActive(s, now);
    a := RunActiveMeaning(s, now);
    if Forward(s, t, a, now) { ForwardState(s, t, a, now); }
    assert Collapses(s, t, a, now);
    FrameSkeleton(s, t);
    hide Skeleton;
  }

  lemma ForwardState(s: System, t: System, a: nat, now: Instant)
    requires s.rollout.state.Running? && Forward(s, t, a, now)
    ensures Forwards(t.rollout.state)
  {}

  /**
   A forward rollout that turns around leaves no node PENDING, active or READY. Rolling back are
   exactly the READY nodes, those under test unless the reconcile just failed them, and the workers
   that report the target version; only a reconcile fails a node, and the rest are cancelled.
   */
  lemma FailureTurnsEveryNode(s: System, e: Event)
    requires Inv(s) && Forwards(s.rollout.state) && !Forwards(Step(s, e).rollout.state)
    requires Step(s, e).rollout.state == Reverting || Step(s, e).rollout.state == Defeated
    ensures var t := Step(s, e);
      && |t.rollout.nodes| == |s.rollout.nodes|
      && forall i :: 0 <= i < |s.rollout.nodes| ==>
           var n, m := s.rollout.nodes[i], t.rollout.nodes[i];
           && (m.phase.RollingBack? <==>
                n.phase.Ready? || (n.phase.SelfTesting? && e.Rollback?)
                || (n.id in s.workers && Get(s.workers[n.id], Version) == s.rollout.target))
           && (m.phase.RollingBack? || m.phase.Failed? || m.phase.Cancelled?)
           && (m.phase.Failed? ==> e.Tick? && !n.phase.Ready?)
           && m.previous == n.previous
  {
    hide Wf, Frame, RunActive, Begin, InLine, CanaryGate, AnyRollingBack, Cleanup, ApprovedBy, Fails, Forward, Inv,
        Allowed;
    CleanupKeeps(s);
    var t := Step(s, e);
    match e
    case Rollback(now) => RollbackTurns(s, now);
    case Tick(now) => var a := TickTurns(s, now);
    case _ =>
  }

  /** The step of the run at which a rolled-back node was confirmed. */
  lemma {:induction false} RolledBackWasConfirmed(tr: seq<System>, es: seq<Event>, n: nat, i: nat) returns (k: nat)
    requires IsRun(tr, es) && n < |tr| && i < |tr[n].rollout.nodes| && tr[n].rollout.nodes[i].phase.RolledBack?
    ensures k < n && SameNode(tr[k], tr[n], i) && ConfirmedIn(tr[k], tr[k + 1], i)
    ensures tr[k + 1].rollout.nodes[i].previous == tr[n].rollout.nodes[i].previous
  {
    hide Step, Continues, NodeStep, ConfirmedIn, Inv;
    assert n > 0;
    var s, t := tr[n - 1], tr[n];
    Reachable(tr, es, n - 1);
    StepContinues(s, es[n - 1]);
    var repeated := RepeatedRollback(s, es[n - 1]);
    assert Continues(s, t, repeated);
    ContinuesSame(s, t, repeated, i);
    NodeStepApproved(s, t, i, repeated);
    if s.rollout.nodes[i].phase.RolledBack? {
      k := RolledBackWasConfirmed(tr, es, n - 1, i);
    } else {
      k := n - 1;
    }
  }

  ghost predicate WasConfirmed(tr: seq<System>, n: nat, i: nat)
    requires n < |tr|
  {
    exists k :: 0 <= k < n && SameNode(tr[k], tr[n], i) && ConfirmedIn(tr[k], tr[k + 1], i)
  }

  lemma RollingBackStep(s: System, e: Event, i: nat)
    requires Inv(s) && i < |s.rollout.nodes| && !e.Rollback? && !Restarts(s, Step(s, e))
    requires s.rollout.nodes[i].phase.RollingBack? || s.rollout.nodes[i].phase.RolledBack?
          || s.rollout.state.Aborted? || s.rollout.state.RevertFailed?
    ensures var t := Step(s, e);
      && i < |t.rollout.nodes|
      && (t.rollout.nodes[i].phase.RollingBack? || t.rollout.nodes[i].phase.RolledBack?
          || t.rollout.state.Aborted? || t.rollout.state.RevertFailed?)
  {
    hide Wf, Frame, RevertNodes, AnyRollingBack, AnyOverdue, ConfirmedBy, Cleanup;
    CleanupKeeps(s);
    assert Allowed(s.rollout.state, s.rollout.nodes[i].phase);
    match e
    case Tick(now) => if s.rollout.state.Reverting? { RevertNodesMeaning(s, 0, now); RevertFailureSeen(s, now, i); }
    case _ =>
  }

  lemma RevertFailureSeen(s: System, now: Instant, i: nat)
    requires Inv(s) && s.rollout.state.Reverting? && i < |s.rollout.nodes|
    ensures var t := RevertNodes(s, 0, now);
      && i < |t.rollout.nodes|
      && (s.rollout.nodes[i].phase.RollingBack? && t.rollout.nodes[i].phase.RollbackFailed? ==>
          t.rollout.state.RevertFailed?)
  {
    RevertNodesMeaning(s, 0, now);
    hide Wf, Frame, RevertNodes, Reverts, AnyOverdue;
  }

  lemma {:induction false} RollingBackPersists(tr: seq<System>, es: seq<Event>, m: nat, n: nat, i: nat)
    requires IsRun(tr, es) && m <= n < |tr| && i < |tr[m].rollout.nodes| && tr[m].rollout.nodes[i].phase.RollingBack?
    requires forall k :: m <= k < n ==> !Restarts(tr[k], tr[k + 1]) && !es[k].Rollback?
    ensures i < |tr[n].rollout.nodes| &&
      (tr[n].rollout.nodes[i].phase.RollingBack? || tr[n].rollout.nodes[i].phase.RolledBack?
       || tr[n].rollout.state.Aborted? || tr[n].rollout.state.RevertFailed?)
    decreases n - m
  {
    hide Step, Restarts, Inv;
    if m < n {
      RollingBackPersists(tr, es, m, n - 1, i);
      Reachable(tr, es, n - 1);
      var k := n - 1;
      assert !Restarts(tr[k], tr[k + 1]);
      RollingBackStep(tr[k], es[k], i);
    }
  }

  /**
   ROLLED_BACK only if every node that was rolling back was confirmed in this operation by a
   bound, PASSED self-test at its own previous version, taken since its rollback began.
   */
  lemma RevertedOnlyIfConfirmed(tr: seq<System>, es: seq<Event>, m: nat, n: nat, i: nat)
    requires IsRun(tr, es) && m <= n < |tr| && tr[n].rollout.state.Reverted?
    requires i < |tr[m].rollout.nodes| && tr[m].rollout.nodes[i].phase.RollingBack?
    requires forall k :: m <= k < n ==> !Restarts(tr[k], tr[k + 1]) && !es[k].Rollback?
    ensures i < |tr[n].rollout.nodes| && tr[n].rollout.nodes[i].phase.RolledBack? && WasConfirmed(tr, n, i)
  {
    hide Step, Restarts;
    RollingBackPersists(tr, es, m, n, i);
    Reachable(tr, es, n);
    assert Allowed(Reverted, tr[n].rollout.nodes[i].phase);
    var k := RolledBackWasConfirmed(tr, es, n, i);
  }

  /**
   A node is rolled back to what it ran before: if its previous version is not null, then earlier
   in the operation it left draining while its record reported that version, and later the record
   reported the same version again, with the self-test that confirmed it.
   */
  lemma RolledBackToWhatItRan(tr: seq<System>, es: seq<Event>, n: nat, i: nat) returns (k: nat, j: nat)
    requires IsRun(tr, es) && n < |tr| && i < |tr[n].rollout.nodes|
    requires tr[n].rollout.nodes[i].phase.RolledBack? && tr[n].rollout.nodes[i].previous != Null
    ensures k < j < n && SameNode(tr[k], tr[n], i) && SameNode(tr[j], tr[n], i)
    ensures DrainedIn(tr[k], tr[k + 1], i) && ConfirmedIn(tr[j], tr[j + 1], i)
    ensures var n := tr[n].rollout.nodes[i];
      ReportedVersion(tr[k], n.id) == ReportedVersion(tr[j], n.id) == n.previous
  {
    hide Step, ReportsDrained;
    j := RolledBackWasConfirmed(tr, es, n, i);
    assert tr[j].rollout.nodes[i].previous == tr[n].rollout.nodes[i].previous;
    k := PreviousWasReported(tr, es, j, i);
    assert ConfirmedBy(tr[j], tr[j + 1].rollout.nodes[i]);
    SameAgain(tr, es, j, n, i);
  }

  lemma SameAgain(tr: seq<System>, es: seq<Event>, j: nat, n: nat, i: nat)
    requires IsRun(tr, es) && j < n < |tr| && SameNode(tr[j], tr[n], i) && ConfirmedIn(tr[j], tr[j + 1], i)
    requires tr[j + 1].rollout.nodes[i].previous == tr[n].rollout.nodes[i].previous
    ensures ReportedVersion(tr[j], tr[n].rollout.nodes[i].id) == tr[n].rollout.nodes[i].previous
  {
    hide Step, Inv, Continues, NodeStep;
    Reachable(tr, es, j);
    StepContinues(tr[j], es[j]);
    StillSame(tr[j], tr[j + 1], RepeatedRollback(tr[j], es[j]), i);
  }

  lemma StillSame(s: System, t: System, repeated: bool, i: nat)
    requires (Restarts(s, t) || Continues(s, t, repeated)) && ConfirmedIn(s, t, i)
    ensures t.rollout.nodes[i].id == s.rollout.nodes[i].id
  {
    if Continues(s, t, repeated) { ContinuesSame(s, t, repeated, i); }
  }

  /** The evidence spelled out: what the record said in the step that confirmed node `i`. */
  lemma ConfirmationEvidence(s: System, t: System, i: nat)
    requires ConfirmedIn(s, t, i)
    ensures var n := t.rollout.nodes[i];
      && RecordOf(s, n.id).Some?
      && var test := TestOf(RecordOf(s, n.id).value);
      && Get(RecordOf(s, n.id).value, Version) == s.rollout.nodes[i].previous
      && n.request.Some? && n.request.value.operation == s.rollout.operation
      && test.status == Text("PASSED") && test.nonce == Token(n.request.value.nonce)
      && test.operation == Token(s.rollout.operation) && test.target == s.rollout.nodes[i].previous
      && NotStampedBefore(test.checkedAt, s.rollout.nodes[i].startedAt)
  {
    hide NotStampedBefore, NotBefore;
    FreshText(TestOf(RecordOf(s, t.rollout.nodes[i].id).value).checkedAt, s.rollout.nodes[i].startedAt);
  }

  // ------------------------------------------------------------------ unguessed tokens

  /** A record mentions only tokens that have been drawn. */
  predicate Known(rec: Record, drawn: nat) {
    && (TestOf(rec).nonce.Token? ==> TestOf(rec).nonce.id < drawn)
    && (Get(rec, FenceAck).Ack? && Get(rec, FenceAck).fence.Token? ==> Get(rec, FenceAck).fence.id < drawn)
  }

  /** Tokens are random: nobody reports one before it is drawn. */
  ghost predicate Unguessed(s: System, e: Event) {
    match e
    case Report(id, changes, now) => Known(changes, s.drawn)
    case Environment(workers) => forall id :: id in workers ==> Known(workers[id], s.drawn)
    case _ => true
  }

  ghost predicate AllKnown(s: System) {
    && (forall id :: id in s.workers ==> Known(s.workers[id], s.drawn))
    && (forall id :: id in s.rollout.coordinators ==> Known(s.rollout.coordinators[id], s.drawn))
  }

  ghost predicate IsHonestRun(tr: seq<System>, es: seq<Event>) {
    IsRun(tr, es) && AllKnown(tr[0]) && forall k :: 0 <= k < |es| ==> Unguessed(tr[k], es[k])
  }

  lemma KnownFrame(s: System, t: System)
    requires AllKnown(s) && SameReports(s, t) && s.drawn <= t.drawn
    ensures AllKnown(t)
  {
    forall id | id in t.workers ensures Known(t.workers[id], t.drawn) {
      assert Reported(t, false, id) == Reported(s, false, id);
    }
    forall id | id in t.rollout.coordinators ensures Known(t.rollout.coordinators[id], t.drawn) {
      assert Reported(t, true, id) == Reported(s, true, id);
    }
  }

  lemma KnownTick(s: System, now: Instant)
    requires Inv(s) && AllKnown(s)
    ensures AllKnown(Reconcile(s, now))
  {
    hide Wf, RevertNodes, RunActive, Known, InLine, CanaryGate, AnyRollingBack, ApprovedBy, ConfirmedBy, Splits,
        Skeleton;
    var t := Reconcile(s, now);
    if s.rollout.state.Aborted? {
      KnownCleanup(s);
    } else if s.rollout.state.Reverting? {
      RevertNodesMeaning(s, 0, now);
      FrameKnown(s, t);
    } else if s.rollout.state.Running? {
      var a := RunActiveMeaning(s, now);
      if t == SetState(s, Succeeded) {} else { FrameKnown(s, t); }
    }
  }

  lemma FrameKnown(s: System, t: System)
    requires AllKnown(s) && Frame(s, t)
    ensures AllKnown(t)
  {
    KnownFrame(s, t);
  }

  lemma KnownCleanup(s: System)
    requires AllKnown(s)
    ensures AllKnown(Cleanup(s))
  {}

  lemma KnownReport(s: System, id: string, changes: Record, now: Instant)
    requires AllKnown(s) && Known(changes, s.drawn)
    ensures AllKnown(UpdateCoordinator(s, id, changes, now))
  {}

  lemma KnownCancel(s: System)
    requires AllKnown(s)
    ensures AllKnown(Cancel(s))
  {}

  lemma KnownStart(s: System, target: string, ids: seq<string>, timeout: int, canary: bool, now: Instant)
    requires AllKnown(s)
    ensures AllKnown(Start(s, target, ids, timeout, canary, now))
  {}

  lemma KnownStep(s: System, e: Event)
    requires Inv(s) && AllKnown(s) && Unguessed(s, e)
    ensures AllKnown(Step(s, e))
  {
    hide Inv, Reconcile, Begin, Cancel, Start, UpdateCoordinator, OrderedNodes, Known;
    match e
    case Launch(target, ids, order, timeout, canary, now) =>
      KnownStart(s, target, OrderedNodes(ids, order), timeout, canary, now);
    case Cancellation => KnownCancel(s);
    case Tick(now) => KnownTick(s, now);
    case Rollback(now) => if Ongoing(s.rollout.state) { KnownBegin(s, now); }
    case Report(id, changes, now) => KnownReport(s, id, changes, now);
    case _ =>
  }

  lemma KnownBegin(s: System, now: Instant)
    requires Inv(s) && AllKnown(s)
    ensures AllKnown(Begin(s, now))
  {
    hide Begin, Known, Wf, Frame;
    BeginMeaning(s, now);
    FrameKnown(s, Begin(s, now));
  }

  lemma {:induction false} HonestRunKnown(tr: seq<System>, es: seq<Event>, n: nat)
    requires IsHonestRun(tr, es) && n < |tr|
    ensures AllKnown(tr[n])
  {
    hide Step, AllKnown;
    if n > 0 {
      HonestRunKnown(tr, es, n - 1);
      Reachable(tr, es, n - 1);
      KnownStep(tr[n - 1], es[n - 1]);
    }
  }

  /** In an honest run a rollback is confirmed only by an answer to a request issued before the step. */
  lemma ConfirmationAnswersEarlierRequest(tr: seq<System>, es: seq<Event>, k: nat, i: nat)
    requires IsHonestRun(tr, es) && k < |es| && ConfirmedIn(tr[k], tr[k + 1], i)
    ensures tr[k + 1].rollout.nodes[i].request == tr[k].rollout.nodes[i].request
  {
    hide Step;
    var s, t := tr[k], tr[k + 1];
    HonestRunKnown(tr, es, k);
    Reachable(tr, es, k);
    StepContinues(s, es[k]);
    assert KeepsNode(s, t, i);
    var rec := RecordOf(s, t.rollout.nodes[i].id).value;
    assert Known(rec, s.drawn);
  }

  // ------------------------------------------------------------------ the cancel fence

  /** When the fence is raised nobody has acknowledged it yet. */
  lemma CancelUnacknowledged(s: System, id: string)
    requires Inv(s) && AllKnown(s) && Ongoing(s.rollout.state)
    ensures var t := Cancel(s);
      t.rollout.state.Aborted? && !Acknowledges(Get(Coordinator(t.rollout, id), FenceAck), t.rollout)
  {
    hide Inv;
  }

  lemma FencedReport(s: System, x: string, changes: Record, now: Instant, id: string)
    requires s.rollout.state.Aborted? && Fenced(Coordinator(s.rollout, id), s.rollout)
    requires x == id ==> !Acknowledges(Get(changes, FenceAck), s.rollout)
    ensures var t := UpdateCoordinator(s, x, changes, now);
      && Coordinator(t.rollout, id) == Coordinator(s.rollout, id)
      && t.rollout == s.rollout.(coordinators := t.rollout.coordinators)
  {}

  lemma FencedStep(s: System, e: Event, id: string)
    requires s.rollout.state.Aborted? && Fenced(Coordinator(s.rollout, id), s.rollout)
    requires !Restarts(s, Step(s, e))
    requires e.Report? && e.id == id ==> !Acknowledges(Get(e.changes, FenceAck), s.rollout)
    ensures var t := Step(s, e);
      && Coordinator(t.rollout, id) == Coordinator(s.rollout, id)
      && t.rollout == s.rollout.(coordinators := t.rollout.coordinators)
  {
    hide UpdateCoordinator, OrderedNodes, RunActive, RevertNodes, Begin, Coordinator, Fenced, Acknowledges;
    if e.Report? { FencedReport(s, e.id, e.changes, e.now, id); }
  }

  /**
   After a cancel, a CORE coordinator record tied to the operation stays exactly as it is until
   a report carries the matching acknowledgement, whatever else happens before the next start.
   */
  lemma {:induction false} FenceHolds(tr: seq<System>, es: seq<Event>, m: nat, n: nat, id: string)
    requires IsRun(tr, es) && m <= n < |tr|
    requires tr[m].rollout.state.Aborted? && Fenced(Coordinator(tr[m].rollout, id), tr[m].rollout)
    requires forall k :: m <= k < n ==> !Restarts(tr[k], tr[k + 1])
    requires forall k :: m <= k < n && es[k].Report? && es[k].id == id ==>
               !Acknowledges(Get(es[k].changes, FenceAck), tr[m].rollout)
    ensures Coordinator(tr[n].rollout, id) == Coordinator(tr[m].rollout, id)
    ensures tr[n].rollout == tr[m].rollout.(coordinators := tr[n].rollout.coordinators)
    decreases n - m
  {
    hide Step, Restarts;
    if m < n {
      FenceHolds(tr, es, m, n - 1, id);
      var k := n - 1;
      assert !Restarts(tr[k], tr[k + 1]);
      FencedStep(tr[k], es[k], id);
    }
  }

  /**
   Over an honest run: from a cancel on, every CORE record tied to the operation stays exactly as
   the cancel left it, until a report carries the matching acknowledgement or a new rollout starts.
   */
  lemma CancelHolds(tr: seq<System>, es: seq<Event>, m: nat, n: nat, id: string)
    requires IsHonestRun(tr, es) && m < n < |tr| && es[m].Cancellation? && Ongoing(tr[m].rollout.state)
    requires Tied(Coordinator(tr[m + 1].rollout, id), tr[m + 1].rollout)
    requires forall k :: m < k < n ==> !Restarts(tr[k], tr[k + 1])
    requires forall k :: m < k < n && es[k].Report? && es[k].id == id ==>
               !Acknowledges(Get(es[k].changes, FenceAck), tr[m + 1].rollout)
    ensures Coordinator(tr[n].rollout, id) == Coordinator(tr[m].rollout, id)
    ensures tr[n].rollout.state.Aborted? && Fenced(Coordinator(tr[n].rollout, id), tr[n].rollout)
  {
    hide Restarts, Inv, AllKnown, Tied, Acknowledges;
    Reachable(tr, es, m);
    HonestRunKnown(tr, es, m);
    CancelUnacknowledged(tr[m], id);
    FenceHolds(tr, es, m + 1, n, id);
    SameFence(tr[m + 1].rollout, tr[n].rollout, id);
  }

  lemma SameFence(r: Rollout, q: Rollout, id: string)
    requires q == r.(coordinators := q.coordinators) && Coordinator(q, id) == Coordinator(r, id)
    ensures Fenced(Coordinator(q, id), q) <==> Fenced(Coordinator(r, id), r)
  {}

  /** Clearing a cancelled worker's commands ties it to the fence and keeps its acknowledgement. */
  lemma CleanupNeverUnties(s: System, id: string)
    requires Inv(s) && s.rollout.state.Aborted? && id in s.workers
    ensures var t := Cleanup(s);
      && id in t.workers
      && (Tied(s.workers[id], s.rollout) ==> Tied(t.workers[id], t.rollout))
      && (IsCancelledNode(s.rollout, id) ==>
            && Tied(t.workers[id], t.rollout)
            && Get(t.workers[id], DesiredState).Null? && Get(t.workers[id], OperationId).Null?)
      && (Fenced(t.workers[id], t.rollout) <==>
            Tied(t.workers[id], t.rollout) && !Acknowledges(Get(s.workers[id], FenceAck), s.rollout))
  {
    hide Wf;
  }

  // ------------------------------------------------------------------ self-test times

  /** A node under test whose record reports the target version and a passed, bound test with this time. */
  function UnderTest(checkedAt: string, start: Instant): System {
    var test := SelfTest(Text("PASSED"), Token(1), Token(0), Text("2.0"), checkedAt);
    System(
      Rollout(0, Running, Text("2.0"), 600, true,
              [Node("w1", SelfTesting, false, Text("1.0"), start, Some(Request(1, 0, Text("2.0"))))], map[], None),
      map["w1" := map[Version := Text("2.0"), Test := Tested(test)]], 2)
  }

  predicate Approves(checkedAt: string, start: Instant) {
    Step(UnderTest(checkedAt, start), Tick(start)).rollout.nodes[0].phase.Ready?
  }

  lemma ApprovesByText(checkedAt: string, start: Instant)
    ensures Inv(UnderTest(checkedAt, start))
    ensures Approves(checkedAt, start) <==> NotBefore(checkedAt, start)
  {
    hide NotBefore, Advance, Examine;
    var s := UnderTest(checkedAt, start);
    assert !IsCore("w1");
    Examined(s, checkedAt, start);
    assert RunActive(s, start) == Advance(s, 0, start) == Examine(s, 0, start,
        s.workers["w1"]) by { FirstIsActive(s, start); }
  }

  lemma FirstIsActive(s: System, now: Instant)
    requires |s.rollout.nodes| == 1 && s.rollout.nodes[0].phase.SelfTesting? && s.rollout.nodes[0].startedAt == now
    requires !IsCore(s.rollout.nodes[0].id) && s.rollout.nodes[0].id in s.workers && s.rollout.timeout >= 0
    ensures RunActive(s, now) == Advance(s, 0, now)
      && Advance(s, 0, now) == Examine(s, 0, now, s.workers[s.rollout.nodes[0].id])
  {
    hide Examine;
  }

  lemma Examined(s: System, checkedAt: string, start: Instant)
    requires s == UnderTest(checkedAt, start)
    ensures Examine(s, 0, start, s.workers["w1"]).rollout.nodes[0].phase.Ready? <==> NotBefore(checkedAt, start)
  {
    hide NotBefore;
  }

  /**
   Freshness is decided by texts. Whatever the text, and whatever time it stands for: it approves
   no phase begun after that time if and only if it does not approve one begun a microsecond
   after it, and exactly those begun by then if and only if it also approves one begun just then.
   */
  lemma FreshnessOfAnyText(text: string, time: Instant)
    requires InRange(time + 1)
    ensures (forall start: Instant :: Approves(text, start) ==> start <= time) <==> !Approves(text, time + 1)
    ensures (forall start: Instant :: Approves(text, start) <==> start <= time) <==>
      Approves(text, time) && !Approves(text, time + 1)
  {
    hide Approves, Iso, TextLeq, UnderTest;
    ApprovesAsText(text);
    AnyTextExactly(text, time);
  }

  lemma ApprovesAsText(text: string)
    ensures forall start: Instant :: Approves(text, start) <==> TextLeq(Iso(start), text)
  {
    hide Approves, Iso, TextLeq, UnderTest;
    forall start: Instant ensures Approves(text, start) <==> TextLeq(Iso(start), text) { ApprovesByText(text, start); }
  }

  /**
   For a stamp with any digits of a fraction and any zone, in those terms: it approves no phase
   begun after it if and only if its offset is zero or west and it is not marked `Z` with fewer
   than six digits; it approves exactly those begun by then if and only if its offset is zero and
   it has six digits or more, or a numeric zone and no digits but zeros.
   */
  lemma FreshnessExact(r: Reading)
    requires IsReading(r) && InRange(TimeOf(r))
    ensures (forall start: Instant :: Approves(Stamp(r), start) ==> start <= TimeOf(r))
      <==> ZeroOrWest(r.zone) && !ShortZulu(r)
    ensures (forall start: Instant :: Approves(Stamp(r), start) <==> start <= TimeOf(r))
      <==> ZeroOffset(r.zone) && (|r.fraction| >= 6 || (r.zone.Offset? && Micro(r.fraction) == 0))
  {
    hide Approves, Stamp, Iso, TextLeq, UnderTest, IsReading, Power, Unit;
    ApprovesAsText(Stamp(r));
    ComparesExactly(r);
  }

  /** A stamp in a zone east of UTC approves phases begun after it, up to its offset later. */
  lemma OlderOffsetApproves(r: Reading, start: Instant)
    requires IsReading(r) && r.zone.Offset? && TimeOf(r) < start < ClockOf(r)
    ensures Approves(Stamp(r), start)
  {
    hide Approves, Stamp, Iso, TextLeq, UnderTest, Passes;
    ApprovesAsText(Stamp(r));
    StampAgainstStart(start, r);
    PassesByClock(start, r);
  }

  /** A stamp marked `Z` with fewer than six digits approves phases begun after it, up to its last digit's unit. */
  lemma OlderZuluApproves(r: Reading, start: Instant)
    requires IsReading(r) && ShortZulu(r) && TimeOf(r) < start < TimeOf(r) + Unit(|r.fraction|)
    ensures Approves(Stamp(r), start)
  {
    hide Approves, Stamp, Iso, TextLeq, UnderTest, Passes;
    ApprovesAsText(Stamp(r));
    StampAgainstStart(start, r);
    UnitPasses(r, start);
  }

  /** A self-test whose time is null, read as `None`, approves every phase, however long ago it ran. */
  lemma NullTimeApproves(start: Instant)
    ensures Inv(UnderTest("None", start)) && Approves("None", start)
  {
    hide Approves, Iso, TextLeq, UnderTest;
    LateText(start, "None");
    ApprovesByText("None", start);
  }
}
