/** The invariant of every reachable rollout, and the node order it starts from. */
module RolloutInvariant {
  import opened Common
  import opened TextOrder
  import opened Timestamps
  import opened RolloutModel
  import opened RolloutProofs

  // ------------------------------------------------------------------ node order

  ghost predicate Distinct(ids: seq<string>) {
    forall i, j :: 0 <= i < j < |ids| ==> ids[i] != ids[j]
  }

  ghost predicate Sorted(ids: seq<string>) {
    forall i, j :: 0 <= i < j < |ids| ==> TextLeq(ids[i], ids[j])
  }

  lemma {:induction false} InsertMeaning(id: string, ids: seq<string>)
    requires Distinct(ids) && Sorted(ids)
    ensures var r := Insert(id, ids);
      Distinct(r) && Sorted(r) && forall x :: x in r <==> x == id || x in ids
  {
    if ids != [] && id != ids[0] {
      if TextLeq(id, ids[0]) {
        forall k | 0 <= k < |ids| ensures TextLeq(id, ids[k]) && id != ids[k] {
          LeqTotal(ids[0], ids[k]);
          LeqTransitive(id, ids[0], ids[k]);
          if id == ids[k] { LeqAntisymmetric(ids[0], ids[k]); }
        }
      } else {
        InsertMeaning(id, ids[1..]);
        LeqTotal(id, ids[0]);
        var rest := Insert(id, ids[1..]);
        forall k | 0 <= k < |rest| ensures TextLeq(ids[0], rest[k]) && ids[0] != rest[k] {
          assert rest[k] == id || rest[k] in ids[1..];
        }
      }
    }
  }

  lemma {:induction false} SortedSetMeaning(ids: seq<string>)
    ensures var r := SortedSet(ids);
      Distinct(r) && Sorted(r) && forall x :: x in r <==> x in ids
  {
    if ids != [] {
      SortedSetMeaning(ids[..|ids| - 1]);
      InsertMeaning(ids[|ids| - 1], SortedSet(ids[..|ids| - 1]));
      assert ids == ids[..|ids| - 1] + [ids[|ids| - 1]];
    }
  }

  lemma {:induction false} FirstUsesMeaning(ids: seq<string>)
    ensures var r := FirstUses(ids);
      Distinct(r) && forall x :: x in r <==> x in ids
  {
    if ids != [] {
      FirstUsesMeaning(ids[..|ids| - 1]);
      assert ids == ids[..|ids| - 1] + [ids[|ids| - 1]];
    }
  }

  lemma {:induction false} SelectMeaning(ids: seq<string>, core: bool)
    requires Distinct(ids) && Sorted(ids)
    ensures var r := Select(ids, core);
      Distinct(r) && Sorted(r) && forall x :: x in r <==> x in ids && IsCore(x) == core
  {
    if ids != [] {
      SelectMeaning(ids[1..], core);
      var rest := Select(ids[1..], core);
      forall k | 0 <= k < |rest| ensures TextLeq(ids[0], rest[k]) && ids[0] != rest[k] {
        assert rest[k] in ids[1..];
      }
    }
  }

  /**
   `_ordered_nodes`: each requested node exactly once; in the two named orders one kind
   precedes the other and each kind is sorted.
   */
  lemma OrderedNodesMeaning(ids: seq<string>, order: Order)
    ensures var r := OrderedNodes(ids, order);
      && Distinct(r) && (forall x :: x in r <==> x in ids)
      && (order != Custom ==> forall i, j :: 0 <= i < j < |r| ==>
            if IsCore(r[i]) == IsCore(r[j]) then TextLeq(r[i], r[j]) else IsCore(r[i]) == order.CoreFirst?)
  {
    hide FirstUses, SortedSet, Select, TextLeq, IsCore;
    FirstUsesMeaning(ids);
    SortedSetMeaning(ids);
    if order != Custom {
      var first := order.CoreFirst?;
      SelectMeaning(SortedSet(ids), first);
      SelectMeaning(SortedSet(ids), !first);
      var a, b := Select(SortedSet(ids), first), Select(SortedSet(ids), !first);
      assert OrderedNodes(ids, order) == a + b;
      assert forall k :: 0 <= k < |a| ==> a[k] in a;
      assert forall k :: 0 <= k < |b| ==> b[k] in b;
    }
  }

  // ------------------------------------------------------------------ the invariant

  predicate Allowed(state: State, p: Phase) {
    match state
    case Idle => false
    case Running => p.Pending? || Active(p) || p.Ready?
    case AwaitingPromotion => p.Pending? || p.Ready?
    case Succeeded => p.Ready?
    case Reverting => p.RollingBack? || p.RolledBack? || p.Failed? || p.Cancelled?
    case Reverted => p.RolledBack? || p.Failed? || p.Cancelled?
    case RevertFailed => p.RollingBack? || p.RollbackFailed? || p.RolledBack? || p.Failed? || p.Cancelled?
    case Defeated => p.Failed? || p.Cancelled?
    case Aborted => p.Ready? || p.RolledBack? || p.Failed? || p.Cancelled?
  }

  /** READY nodes, then at most one active node, then PENDING nodes. */
  ghost predicate InLine(nodes: seq<Node>) {
    forall i, j :: 0 <= i < j < |nodes| && !nodes[j].phase.Pending? ==> nodes[i].phase.Ready?
  }

  /** Until promotion nothing moves past the canary, and a READY canary waits. */
  ghost predicate CanaryGate(r: Rollout) {
    if r.promoted then r.state.Running?
    else
      && r.nodes != [] && r.nodes[0].canary
      && (r.state.AwaitingPromotion? <==> r.nodes[0].phase.Ready?)
      && forall i :: 0 < i < |r.nodes| ==> r.nodes[i].phase.Pending?
  }

  predicate Forwards(state: State) {
    state.Running? || state.AwaitingPromotion?
  }

  ghost predicate Inv(s: System) {
    var r := s.rollout;
    && Wf(s)
    && (r.nodes == [] <==> r.state.Idle?)
    && (forall i :: 0 <= i < |r.nodes| ==> Allowed(r.state, r.nodes[i].phase))
    && (forall i :: 0 <= i < |r.nodes| && r.nodes[i].phase.SelfTesting? ==> AsksForTarget(r, r.nodes[i]))
    && (Forwards(r.state) ==> InLine(r.nodes) && CanaryGate(r))
    && (r.state.Reverting? ==> AnyRollingBack(r.nodes))
    && (r.state.Aborted? ==> r.fence.Some? && r.fence.value < s.drawn)
  }

  /** Everything before `a` is READY and everything after it PENDING. */
  ghost predicate Splits(nodes: seq<Node>, a: nat) {
    && (forall i :: 0 <= i < a && i < |nodes| ==> nodes[i].phase.Ready?)
    && (forall i :: a < i < |nodes| ==> nodes[i].phase.Pending?)
  }

  ghost predicate AllReady(nodes: seq<Node>) {
    forall i :: 0 <= i < |nodes| ==> nodes[i].phase.Ready?
  }

  lemma InvForward(s: System, t: System, a: nat, now: Instant)
    requires Inv(s) && s.rollout.state.Running? && Wf(t) && Forward(s, t, a, now)
    requires Splits(s.rollout.nodes, a)
    ensures Inv(t)
  {
    hide Wf, ApprovedBy, SameReports;
    assert KeepsNode(s, t, a);
  }

  lemma InvCollapse(s: System, t: System, a: nat, now: Instant)
    requires Inv(s) && Forwards(s.rollout.state) && Wf(t) && Collapses(s, t, a, now)
    ensures Inv(t)
  {
    hide Wf, SameReports, Updated;
  }

  lemma InvBegin(s: System, now: Instant)
    requires Inv(s) && Ongoing(s.rollout.state)
    ensures Inv(Begin(s, now))
  {
    hide Wf, Frame, Updated, Begin, InLine, CanaryGate;
    BeginMeaning(s, now);
    FrameLength(s, Begin(s, now));
  }

  /** In a running rollout the node being worked on splits the line. */
  lemma ActiveSplits(nodes: seq<Node>, a: nat)
    requires InLine(nodes) && a < |nodes| && !nodes[a].phase.Ready?
    requires forall i :: 0 <= i < |nodes| ==> Allowed(Running, nodes[i].phase)
    requires nodes[a].phase.Pending? ==> forall i :: 0 <= i < a ==> nodes[i].phase.Ready?
    ensures Splits(nodes, a)
  {}

  /**
   A running step succeeds when every node is ready; otherwise the node it works on fails the
   rollout exactly when it must, and moves forward as stated when it need not.
   */
  lemma RunActiveMeaning(s: System, now: Instant) returns (a: nat)
    requires Inv(s) && s.rollout.state.Running?
    ensures var t := RunActive(s, now);
      if AllReady(s.rollout.nodes) then t == SetState(s, Succeeded)
      else
        && Wf(t) && a < |s.rollout.nodes| && Splits(s.rollout.nodes, a) && !s.rollout.nodes[a].phase.Ready?
        && if Fails(s, Opened(s.rollout.nodes[a], now), now) then Collapses(s, t, a, now) else Forward(s, t, a, now)
  {
    hide Wf, Forward, Collapses, Advance, Fails;
    var nodes := s.rollout.nodes;
    assert forall i :: 0 <= i < |nodes| ==> Allowed(Running, nodes[i].phase);
    a := FirstActive(nodes, 0);
    if a < |nodes| {
      ActiveSplits(nodes, a);
      AdvanceMeaning(s, a, now);
    } else {
      a := FirstPending(nodes, 0);
      if a < |nodes| { BeginPending(s, a, now); }
    }
  }

  lemma BeginPending(s: System, p: nat, now: Instant)
    requires Inv(s) && s.rollout.state.Running? && p < |s.rollout.nodes| && s.rollout.nodes[p].phase.Pending?
    requires forall i :: 0 <= i < |s.rollout.nodes| ==> !Active(s.rollout.nodes[i].phase)
    requires forall i :: 0 <= i < p ==> !s.rollout.nodes[i].phase.Pending?
    ensures var n := Opened(s.rollout.nodes[p], now);
      var t := Advance(PutNode(s, p, n), p, now);
      && n == s.rollout.nodes[p].(phase := Draining, startedAt := now)
      && Wf(t) && Splits(s.rollout.nodes, p)
      && if Fails(s, n, now) then Collapses(s, t, p, now) else Forward(s, t, p, now)
  {
    hide Wf, Forward, Collapses, Advance, Fails;
    var n := Opened(s.rollout.nodes[p], now);
    var m := PutNode(s, p, n);
    assert forall i :: 0 <= i < p ==> Allowed(Running, s.rollout.nodes[i].phase);
    ActiveSplits(s.rollout.nodes, p);
    PutNodeKeeps(s, p, n, s.drawn);
    assert m.(drawn := s.drawn) == m;
    AdvanceMeaning(m, p, now);
    assert Fails(m, n, now) == Fails(s, n, now) by { SameFailure(s, p, n, now); }
    if Fails(m, n, now) {
      CollapsesAfter(s, m, Advance(m, p, now), p, now);
    } else {
      ForwardAfter(s, m, Advance(m, p, now), p, now);
    }
  }

  lemma SameFailure(s: System, p: nat, n: Node, now: Instant)
    requires p < |s.rollout.nodes|
    ensures Fails(PutNode(s, p, n), n, now) == Fails(s, n, now)
  {}

  lemma ForwardAfter(s: System, m: System, t: System, p: nat, now: Instant)
    requires p < |s.rollout.nodes| && s.rollout.nodes[p].phase.Pending?
    requires m == PutNode(s, p, Opened(s.rollout.nodes[p], now)) && Frame(s, m)
    requires Forward(m, t, p, now)
    ensures Forward(s, t, p, now)
  {
    FrameTransitive(s, m, t);
    hide Frame;
    assert m.rollout.promoted == s.rollout.promoted by { FramePromoted(s, m); }
  }

  lemma FramePromoted(s: System, m: System)
    requires Frame(s, m)
    ensures m.rollout.promoted == s.rollout.promoted
  {}

  lemma InvRevert(s: System, now: Instant)
    requires Inv(s) && s.rollout.state.Reverting?
    ensures Inv(RevertNodes(s, 0, now))
  {
    hide Wf, Frame, ConfirmedBy, RevertNodes, AnyOverdue, AnyRollingBack;
    RevertNodesMeaning(s, 0, now);
    var t := RevertNodes(s, 0, now);
    forall i | 0 <= i < |t.rollout.nodes|
      ensures Allowed(t.rollout.state, t.rollout.nodes[i].phase) && !t.rollout.nodes[i].phase.SelfTesting?
    {
      assert Allowed(Reverting, s.rollout.nodes[i].phase);
      assert Reverts(s, s.rollout.nodes[i], t.rollout.nodes[i]);
      assert t.rollout.state.Reverted? ==>
          !t.rollout.nodes[i].phase.RollingBack? by { NoneRollingBack(t.rollout.nodes); }
    }
  }

  lemma NoneRollingBack(nodes: seq<Node>)
    ensures !AnyRollingBack(nodes) ==> forall i :: 0 <= i < |nodes| ==> !nodes[i].phase.RollingBack?
  {}

  /** Cleaning up workers touches nothing else. */
  lemma CleanupKeeps(s: System)
    ensures Cleanup(s).rollout == s.rollout && Cleanup(s).drawn == s.drawn
    ensures !s.rollout.state.Aborted? ==> Cleanup(s) == s
  {}

  lemma InvReconcile(s: System, now: Instant)
    requires Inv(s)
    ensures Inv(Reconcile(s, now))
  {
    hide Wf, RevertNodes, RunActive, Forward, Collapses, InLine, CanaryGate, AnyRollingBack, Cleanup, Splits;
    CleanupKeeps(s);
    var t := Reconcile(s, now);
    match s.rollout.state
    case Reverting => InvRevert(s, now);
    case Running =>
      var a := RunActiveMeaning(s, now);
      if AllReady(s.rollout.nodes) {
        WfState(s, Succeeded);
      } else if Collapses(s, t, a, now) {
        InvCollapse(s, t, a, now);
      } else {
        InvForward(s, t, a, now);
      }
    case _ => WfWorkers(s, t);
  }

  lemma WfState(s: System, state: State)
    requires Wf(s)
    ensures Wf(SetState(s, state))
  {}

  lemma WfWorkers(s: System, t: System)
    requires Wf(s) && t.rollout == s.rollout && t.drawn == s.drawn
    ensures Wf(t)
  {}

  lemma InvCancel(s: System)
    requires Inv(s)
    ensures Inv(Cancel(s))
  {}

  lemma InvStart(s: System, target: string, ids: seq<string>, timeout: int, canary: bool, now: Instant)
    requires Inv(s) && Distinct(ids)
    ensures Inv(Start(s, target, ids, timeout, canary, now))
  {}

  /** Every step keeps the invariant. */
  lemma InvStep(s: System, e: Event)
    requires Inv(s)
    ensures Inv(Step(s, e))
  {
    hide Reconcile, Begin, Cancel, Start, OrderedNodes, AnyRollingBack;
    match e
    case Launch(target, ids, order, timeout, canary, now) =>
      OrderedNodesMeaning(ids, order);
      InvStart(s, target, OrderedNodes(ids, order), timeout, canary, now);
    case Promotion =>
    case Cancellation => InvCancel(s);
    case Rollback(now) => if Ongoing(s.rollout.state) { InvBegin(s, now); }
    case Tick(now) => InvReconcile(s, now);
    case Report(id, changes, now) =>
    case Environment(workers) =>
  }
}
