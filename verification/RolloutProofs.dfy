/** What every step of a rollout keeps, and what its phase changes mean. */
module RolloutProofs {
  import opened Common
  import opened TextOrder
  import opened Timestamps
  import opened RolloutModel

  // ------------------------------------------------------------------ well-formed systems

  /** Node ids are distinct, and every nonce was drawn for this operation and for one node only. */
  ghost predicate Wf(s: System) {
    var r := s.rollout;
    && (forall i, j :: 0 <= i < j < |r.nodes| ==> r.nodes[i].id != r.nodes[j].id)
    && (r.nodes != [] ==> r.operation < s.drawn)
    && (forall i :: 0 <= i < |r.nodes| && r.nodes[i].request.Some? ==>
          r.nodes[i].request.value.operation == r.operation && r.nodes[i].request.value.nonce < s.drawn)
    && (forall i, j :: 0 <= i < j < |r.nodes| && r.nodes[i].request.Some? && r.nodes[j].request.Some? ==>
          r.nodes[i].request.value.nonce != r.nodes[j].request.value.nonce)
  }

  /** What a record reports: is it there, its version, its last self-test, its fence acknowledgement. */
  function Reported(s: System, core: bool, id: string): (bool, Value, Value, Value) {
    var rec := if core then Coordinator(s.rollout, id) else if id in s.workers then s.workers[id] else map[];
    (core || id in s.workers, Get(rec, Version), Get(rec, Test), Get(rec, FenceAck))
  }

  ghost predicate SameReports(s: System, t: System) {
    forall core, id :: Reported(t, core, id) == Reported(s, core, id)
  }

  /** Identity is kept and a request is kept or freshly drawn for this operation. */
  ghost predicate KeepsNode(s: System, t: System, i: nat)
    requires i < |s.rollout.nodes| && i < |t.rollout.nodes|
  {
    var n, m := s.rollout.nodes[i], t.rollout.nodes[i];
    && m.id == n.id && m.canary == n.canary
    && (m.request == n.request ||
        (m.request.Some? && m.request.value.operation == s.rollout.operation
         && s.drawn <= m.request.value.nonce < t.drawn))
  }

  /** What no step but a new start changes. */
  ghost predicate Skeleton(s: System, t: System) {
    && t.rollout.operation == s.rollout.operation && t.rollout.target == s.rollout.target
    && t.rollout.timeout == s.rollout.timeout
    && |t.rollout.nodes| == |s.rollout.nodes| && s.drawn <= t.drawn
    && forall i :: 0 <= i < |s.rollout.nodes| ==> KeepsNode(s, t, i)
  }

  /** What a reconcile or rollback keeps besides. */
  ghost predicate Frame(s: System, t: System) {
    && Skeleton(s, t) && SameReports(s, t)
    && t.rollout.promoted == s.rollout.promoted && t.rollout.fence == s.rollout.fence
  }

  lemma FrameTransitive(s: System, t: System, u: System)
    requires Frame(s, t) && Frame(t, u)
    ensures Frame(s, u)
  {
    forall i | 0 <= i < |s.rollout.nodes| ensures KeepsNode(s, u, i) {
      assert KeepsNode(s, t, i) && KeepsNode(t, u, i);
    }
  }

  /** A rewritten node keeps its identity, and its request is kept or drawn afresh. */
  ghost predicate Rewrites(s: System, i: nat, n: Node, drawn: nat)
    requires i < |s.rollout.nodes|
  {
    && n.id == s.rollout.nodes[i].id && n.canary == s.rollout.nodes[i].canary
    && ((n.request == s.rollout.nodes[i].request && drawn == s.drawn)
        || (n.request.Some? && n.request.value.operation == s.rollout.operation
            && n.request.value.nonce == s.drawn && drawn == s.drawn + 1))
  }

  /** No node but `i` changed. */
  ghost predicate OnlyNode(s: System, t: System, i: nat) {
    i < |s.rollout.nodes| == |t.rollout.nodes| && t.rollout.nodes == s.rollout.nodes[i := t.rollout.nodes[i]]
  }

  lemma PutNodeKeeps(s: System, i: nat, n: Node, drawn: nat)
    requires Wf(s) && i < |s.rollout.nodes| && Rewrites(s, i, n, drawn)
    ensures var t := PutNode(s, i, n).(drawn := drawn);
      Wf(t) && Frame(s, t)
  {
    var t := PutNode(s, i, n).(drawn := drawn);
    assert forall core, id :: Reported(t, core, id) == Reported(s, core, id);
  }

  /** Commands written into a record change nothing it reports. */
  predicate SameReport(a: Record, b: Record) {
    Get(a, Version) == Get(b, Version) && Get(a, Test) == Get(b, Test) && Get(a, FenceAck) == Get(b, FenceAck)
  }

  lemma PutRecordReports(s: System, id: string, rec: Record)
    requires RecordOf(s, id).Some? && SameReport(rec, RecordOf(s, id).value)
    ensures SameReports(s, PutRecord(s, id, rec))
  {
    var t := PutRecord(s, id, rec);
    forall core, x ensures Reported(t, core, x) == Reported(s, core, x) {
      if x == id { hide Get; }
    }
  }

  lemma PutRecordKeeps(s: System, id: string, rec: Record)
    requires Wf(s) && RecordOf(s, id).Some? && SameReport(rec, RecordOf(s, id).value)
    ensures Wf(PutRecord(s, id, rec)) && Frame(s, PutRecord(s, id, rec))
  {
    hide SameReports, SameReport;
    PutRecordReports(s, id, rec);
  }

  /** One node and its record rewritten together. */
  lemma PutBoth(s: System, i: nat, n: Node, drawn: nat, rec: Record)
    requires Wf(s) && i < |s.rollout.nodes| && Rewrites(s, i, n, drawn)
    requires RecordOf(s, n.id).Some? && SameReport(rec, RecordOf(s, n.id).value)
    ensures var t := PutRecord(PutNode(s, i, n), n.id, rec).(drawn := drawn);
      Wf(t) && Frame(s, t) && OnlyNode(s, t, i) && t.rollout.nodes[i] == n && t.rollout.state == s.rollout.state
  {
    hide Wf, Frame, SameReport;
    var m := PutNode(s, i, n).(drawn := drawn);
    PutNodeKeeps(s, i, n, drawn);
    PutRecordKeeps(m, n.id, rec);
    FrameTransitive(s, m, PutRecord(m, n.id, rec));
    assert PutRecord(m, n.id, rec) == PutRecord(PutNode(s, i, n), n.id, rec).(drawn := drawn);
  }

  /** The same, with the nonce drawn first. */
  lemma PutDrawn(s: System, i: nat, n: Node, drawn: nat, rec: Record)
    requires Wf(s) && i < |s.rollout.nodes| && Rewrites(s, i, n, drawn)
    requires RecordOf(s, n.id).Some? && SameReport(rec, RecordOf(s, n.id).value)
    ensures var t := PutRecord(PutNode(s.(drawn := drawn), i, n), n.id, rec);
      Wf(t) && Frame(s, t) && OnlyNode(s, t, i) && t.rollout.nodes[i] == n && t.rollout.state == s.rollout.state
  {
    hide Wf, Frame, SameReport;
    PutBoth(s, i, n, drawn, rec);
    assert PutRecord(PutNode(s, i, n), n.id, rec).(drawn := drawn)
        == PutRecord(PutNode(s.(drawn := drawn), i, n), n.id, rec);
  }

  lemma SetStateKeeps(s: System, state: State)
    requires Wf(s)
    ensures Wf(SetState(s, state)) && Frame(s, SetState(s, state))
  {
    assert forall core, id :: Reported(SetState(s, state), core, id) == Reported(s, core, id);
  }

  // ------------------------------------------------------------------ beginning a rollback

  function BeginPhase(s: System, n: Node): Phase {
    if Updated(s, n) then RollingBack else if n.phase.Failed? then Failed else Cancelled
  }

  predicate AsksFor(r: Rollout, n: Node, version: Value) {
    n.request.Some? && n.request.value.operation == r.operation && n.request.value.target == version
  }

  /**
   What a beginning rollback does to one node: phase, start and request as stated, a matching
   request kept, and everything else, the version to go back to among it, as it was.
   */
  ghost predicate Turns(s: System, n: Node, m: Node, now: Instant) {
    && m == n.(phase := BeginPhase(s, n), startedAt := if Updated(s, n) then now else n.startedAt,
               request := m.request)
    && if Updated(s, n) && RecordOf(s, n.id).Some?
       then AsksFor(s.rollout, m, n.previous) && (AsksFor(s.rollout, n, n.previous) ==> m.request == n.request)
       else m.request == n.request
  }

  lemma BeginNodeMeaning(s: System, i: nat, now: Instant)
    requires Wf(s) && i < |s.rollout.nodes|
    ensures var t := BeginNode(s, i, now);
      && Wf(t) && Frame(s, t) && t.rollout.state == s.rollout.state
      && OnlyNode(s, t, i) && Turns(s, s.rollout.nodes[i], t.rollout.nodes[i], now)
  {
    hide Wf, Frame, SameReport, RollbackCommand;
    var n, t := s.rollout.nodes[i], BeginNode(s, i, now);
    var rec := RecordOf(s, n.id);
    if Updated(s, n) && rec.Some? {
      var (asked, drawn) := Ensure(n.(phase := RollingBack, startedAt := now), s.rollout.operation, n.previous,
          s.drawn);
      RollbackCommandKeeps(IsCore(n.id), rec.value, asked, s.rollout.operation, now);
      PutBoth(s, i, asked, drawn,
        RollbackCommand(IsCore(n.id), rec.value, asked, s.rollout.operation)[TestRequestedAt := Time(now)]);
    } else {
      PutNodeKeeps(s, i, t.rollout.nodes[i], s.drawn);
      assert s.rollout.nodes[i := n] == s.rollout.nodes;
    }
  }

  lemma UpdatedFrame(s: System, t: System, n: Node)
    requires SameReports(s, t) && t.rollout.target == s.rollout.target
    ensures Updated(s, n) == Updated(t, n)
  {
    assert Reported(t, false, n.id) == Reported(s, false, n.id);
  }

  lemma TurnsFrame(s: System, t: System, n: Node, m: Node, now: Instant)
    requires Frame(s, t) && Turns(t, n, m, now)
    ensures Turns(s, n, m, now)
  {
    UpdatedFrame(s, t, n);
    assert Reported(t, IsCore(n.id), n.id) == Reported(s, IsCore(n.id), n.id);
    hide SameReports, Updated, Skeleton;
    FrameOperation(s, t);
  }

  lemma FrameOperation(s: System, t: System)
    requires Frame(s, t)
    ensures t.rollout.operation == s.rollout.operation && t.rollout.target == s.rollout.target
  {}

  lemma {:induction false} BeginNodesMeaning(s: System, i: nat, now: Instant)
    requires Wf(s) && i <= |s.rollout.nodes|
    ensures var t := BeginNodes(s, i, now);
      && Wf(t) && Frame(s, t) && t.rollout.state == s.rollout.state
      && (forall j :: 0 <= j < i ==> t.rollout.nodes[j] == s.rollout.nodes[j])
      && (forall j :: i <= j < |s.rollout.nodes| ==> Turns(s, s.rollout.nodes[j], t.rollout.nodes[j], now))
    decreases |s.rollout.nodes| - i
  {
    if i < |s.rollout.nodes| {
      hide BeginNode, Wf, Turns, SameReports;
      var m := BeginNode(s, i, now);
      BeginNodeMeaning(s, i, now);
      BeginNodesMeaning(m, i + 1, now);
      var t := BeginNodes(s, i, now);
      FrameTransitive(s, m, t);
      forall j | i < j < |s.rollout.nodes| ensures Turns(s, s.rollout.nodes[j], t.rollout.nodes[j], now) {
        TurnsFrame(s, m, s.rollout.nodes[j], t.rollout.nodes[j], now);
      }
    }
  }

  /** `_begin_rollback`: every updated node rolls back, the rest are failed or cancelled. */
  lemma BeginMeaning(s: System, now: Instant)
    requires Wf(s)
    ensures var t := Begin(s, now);
      && Wf(t) && Frame(s, t)
      && (forall j :: 0 <= j < |s.rollout.nodes| ==> Turns(s, s.rollout.nodes[j], t.rollout.nodes[j], now))
      && t.rollout.state == if AnyRollingBack(t.rollout.nodes) then Reverting else Defeated
  {
    hide Wf, Frame, BeginNodes, Turns;
    var u := SetState(s, Reverting);
    SetStateKeeps(s, Reverting);
    BeginNodesMeaning(u, 0, now);
    var t := BeginNodes(u, 0, now);
    FrameTransitive(s, u, t);
    SetStateKeeps(t, Defeated);
    FrameTransitive(s, t, SetState(t, Defeated));
    FrameLength(s, t);
    forall j | 0 <= j < |s.rollout.nodes| ensures Turns(s, s.rollout.nodes[j], t.rollout.nodes[j], now) {
      TurnsFrame(s, u, s.rollout.nodes[j], t.rollout.nodes[j], now);
    }
  }

  // ------------------------------------------------------------------ reconciling a rollback

  /** The self-test on record confirms the node as it stands: bound, passed, at its own previous version. */
  ghost predicate ConfirmedBy(s: System, n: Node) {
    RecordOf(s, n.id).Some? && Confirmed(RecordOf(s, n.id).value, n, s.rollout.operation)
  }

  lemma ConfirmedFrame(s: System, t: System, n: Node)
    requires Frame(s, t)
    ensures ConfirmedBy(s, n) == ConfirmedBy(t, n)
    ensures RecordOf(s, n.id).Some? == RecordOf(t, n.id).Some?
  {
    assert Reported(t, IsCore(n.id), n.id) == Reported(s, IsCore(n.id), n.id);
  }

  /** What a reconcile does to one rolling-back node. */
  ghost predicate Reverts(s: System, n: Node, m: Node) {
    if !n.phase.RollingBack? then m == n
    else
      && m == n.(phase := m.phase, request := m.request)
      && (m.phase.RollingBack? || m.phase.RollbackFailed? || (m.phase.RolledBack? && ConfirmedBy(s, m)))
  }

  /** Asked for a self-test of its previous version, a rolling-back node is rolled back exactly when confirmed. */
  ghost predicate Settles(s: System, n: Node, m: Node) {
    n.phase.RollingBack? ==>
      && AsksFor(s.rollout, m, n.previous) && (AsksFor(s.rollout, n, n.previous) ==> m.request == n.request)
      && m.phase == if ConfirmedBy(s, m) then RolledBack else RollingBack
  }

  ghost predicate Overdue(s: System, n: Node, now: Instant) {
    n.phase.RollingBack? && (RecordOf(s, n.id).None? || now - n.startedAt > s.rollout.timeout * 1_000_000)
  }

  /** Two records that report the same. */
  lemma RollbackCommandKeeps(core: bool, rec: Record, n: Node, operation: nat, now: Instant)
    requires n.request.Some?
    ensures var told := RollbackCommand(core, rec, n, operation);
      && SameReport(told, rec) && SameReport(told[TestRequestedAt := Time(now)], rec)
      && SameReport(Command(core, told, "ROLLED_BACK") - {TestRequestedAt}, rec)
      && SameReport(told - {DesiredState, RollbackTarget, TestRequestedAt}, rec)
  {}

  /** The node asked again, and its record, with whatever the confirmation decides. */
  lemma AskedMeaning(s: System, i: nat, now: Instant)
    requires Wf(s) && i < |s.rollout.nodes| && s.rollout.nodes[i].phase.RollingBack?
    requires RecordOf(s, s.rollout.nodes[i].id).Some? && !TimedOut(s.rollout.nodes[i], s.rollout.timeout, now)
    ensures var (t, stop) := RevertNode(s, i, now);
      && !stop && Wf(t) && Frame(s, t) && OnlyNode(s, t, i) && t.rollout.state == s.rollout.state
      && Reverts(s, s.rollout.nodes[i], t.rollout.nodes[i]) && !t.rollout.nodes[i].phase.RollbackFailed?
      && Settles(s, s.rollout.nodes[i], t.rollout.nodes[i])
  {
    hide NotBefore, Wf, Frame, SameReport, ConfirmedBy;
    var n, r := s.rollout.nodes[i], s.rollout;
    var core, rec := IsCore(n.id), RecordOf(s, n.id).value;
    var (asked, drawn) := Ensure(n, r.operation, n.previous, s.drawn);
    var told := RollbackCommand(core, rec, asked, r.operation);
    RollbackCommandKeeps(core, rec, asked, r.operation, now);
    ConfirmedTold(s, asked, told);
    hide RollbackCommand, Command, Confirmed, Bound, PutRecord, PutNode;
    if Confirmed(told, asked, r.operation) {
      var cleared := if core then Command(core, told, "ROLLED_BACK") - {TestRequestedAt}
                     else told - {DesiredState, RollbackTarget, TestRequestedAt};
      PutDrawn(s, i, asked.(phase := RolledBack), drawn, cleared);
    } else if !Bound(TestOf(told), asked, r.operation) {
      PutDrawn(s, i, asked, drawn, told[TestRequestedAt := Time(now)]);
    } else {
      PutDrawn(s, i, asked, drawn, told);
    }
  }

  /** A confirmation read from the record with the commands in it is one read from the record itself. */
  lemma ConfirmedTold(s: System, asked: Node, told: Record)
    requires RecordOf(s, asked.id).Some? && SameReport(told, RecordOf(s, asked.id).value)
    ensures Confirmed(told, asked, s.rollout.operation) <==> ConfirmedBy(s, asked)
    ensures ConfirmedBy(s, asked) <==> ConfirmedBy(s, asked.(phase := RolledBack))
  {
    hide NotBefore;
  }

  lemma RevertNodeMeaning(s: System, i: nat, now: Instant)
    requires Wf(s) && i < |s.rollout.nodes|
    ensures var (t, stop) := RevertNode(s, i, now);
      && Wf(t) && Frame(s, t) && OnlyNode(s, t, i)
      && Reverts(s, s.rollout.nodes[i], t.rollout.nodes[i])
      && (!stop ==> Settles(s, s.rollout.nodes[i], t.rollout.nodes[i]))
      && stop == Overdue(s, s.rollout.nodes[i], now)
      && (stop ==> t.rollout.nodes[i] == s.rollout.nodes[i].(phase := RollbackFailed))
      && stop == (s.rollout.nodes[i].phase.RollingBack? && t.rollout.nodes[i].phase.RollbackFailed?)
      && t.rollout.state == if stop then RevertFailed else s.rollout.state
  {
    hide Wf, Frame, ConfirmedBy, RollbackCommand, Confirmed, Command, Bound;
    var n := s.rollout.nodes[i];
    if !n.phase.RollingBack? {
      PutNodeKeeps(s, i, n, s.drawn);
      assert s.rollout.nodes[i := n] == s.rollout.nodes;
    } else if RecordOf(s, n.id).None? || TimedOut(n, s.rollout.timeout, now) {
      var m := n.(phase := RollbackFailed);
      PutNodeKeeps(s, i, m, s.drawn);
      SetStateKeeps(PutNode(s, i, m), RevertFailed);
      FrameTransitive(s, PutNode(s, i, m), SetState(PutNode(s, i, m), RevertFailed));
    } else {
      hide RevertNode;
      AskedMeaning(s, i, now);
    }
  }

  ghost predicate AnyOverdue(s: System, i: nat, now: Instant) {
    exists j :: i <= j < |s.rollout.nodes| && Overdue(s, s.rollout.nodes[j], now)
  }

  ghost predicate AnyRevertFailure(s: System, t: System, i: nat) {
    exists j :: i <= j < |s.rollout.nodes| && j < |t.rollout.nodes|
      && s.rollout.nodes[j].phase.RollingBack? && t.rollout.nodes[j].phase.RollbackFailed?
  }

  /** Whether the loop, begun at node `i`, returned before it came to node `j`. */
  ghost predicate Spared(s: System, i: nat, j: nat, now: Instant) {
    exists k :: i <= k < j && k < |s.rollout.nodes| && Overdue(s, s.rollout.nodes[k], now)
  }

  /** What the loop makes of node `j`: untouched once it returned, failed when overdue, else settled. */
  ghost predicate Fate(s: System, i: nat, j: nat, m: Node, now: Instant)
    requires j < |s.rollout.nodes|
  {
    var n := s.rollout.nodes[j];
    if Spared(s, i, j, now) then m == n
    else if Overdue(s, n, now) then m == n.(phase := RollbackFailed)
    else Settles(s, n, m)
  }

  /** The outcome of the rolling-back loop from node `i` on. */
  ghost predicate RevertsFrom(s: System, t: System, i: nat, now: Instant) {
    && |t.rollout.nodes| == |s.rollout.nodes|
    && (forall j :: 0 <= j < |s.rollout.nodes| ==>
          if j < i then t.rollout.nodes[j] == s.rollout.nodes[j]
          else Reverts(s, s.rollout.nodes[j], t.rollout.nodes[j]))
    && (t.rollout.state == RevertFailed <==> AnyOverdue(s, i, now))
    && (t.rollout.state == RevertFailed <==> AnyRevertFailure(s, t, i))
    && (t.rollout.state != RevertFailed ==>
          t.rollout.state == if AnyRollingBack(t.rollout.nodes) then Reverting else Reverted)
    && (forall j :: i <= j < |s.rollout.nodes| ==> Fate(s, i, j, t.rollout.nodes[j], now))
  }

  lemma RevertsFrame(s: System, m: System, n: Node, x: Node, now: Instant)
    requires Frame(s, m) && Reverts(m, n, x)
    ensures Reverts(s, n, x) && (Settles(m, n, x) ==> Settles(s, n, x))
    ensures Overdue(m, n, now) == Overdue(s, n, now)
  {
    ConfirmedFrame(s, m, x);
    ConfirmedFrame(s, m, n);
    hide ConfirmedBy, RecordOf;
  }

  lemma RevertsStep(s: System, m: System, t: System, i: nat, now: Instant)
    requires i < |s.rollout.nodes| && Frame(s, m) && OnlyNode(s, m, i)
    requires Reverts(s, s.rollout.nodes[i], m.rollout.nodes[i]) && Settles(s, s.rollout.nodes[i], m.rollout.nodes[i])
    requires !Overdue(s, s.rollout.nodes[i], now)
    requires !(s.rollout.nodes[i].phase.RollingBack? && m.rollout.nodes[i].phase.RollbackFailed?)
    requires RevertsFrom(m, t, i + 1, now)
    ensures RevertsFrom(s, t, i, now)
  {
    hide Frame, Reverts, Settles, Overdue, AnyRollingBack, Fate;
    forall j | i < j < |s.rollout.nodes|
      ensures m.rollout.nodes[j] == s.rollout.nodes[j]
      ensures Reverts(s, s.rollout.nodes[j], t.rollout.nodes[j])
      ensures Settles(m, s.rollout.nodes[j], t.rollout.nodes[j]) ==> Settles(s, s.rollout.nodes[j], t.rollout.nodes[j])
      ensures Overdue(m, s.rollout.nodes[j], now) == Overdue(s, s.rollout.nodes[j], now)
    {
      RevertsFrame(s, m, s.rollout.nodes[j], t.rollout.nodes[j], now);
    }
    assert t.rollout.nodes[i] == m.rollout.nodes[i];
    SameOverdue(s, m, i, now);
    SameFates(s, m, t, i, now);
    SameFailures(s, m, t, i);
  }

  lemma SameOverdue(s: System, m: System, i: nat, now: Instant)
    requires i < |s.rollout.nodes| == |m.rollout.nodes| && !Overdue(s, s.rollout.nodes[i], now)
    requires forall j :: i < j < |s.rollout.nodes| ==>
      m.rollout.nodes[j] == s.rollout.nodes[j] &&
          Overdue(m, s.rollout.nodes[j], now) == Overdue(s, s.rollout.nodes[j], now)
    ensures AnyOverdue(s, i, now) == AnyOverdue(m, i + 1, now)
  {
    hide Overdue;
    if AnyOverdue(s, i, now) {
      var j :| i <= j < |s.rollout.nodes| && Overdue(s, s.rollout.nodes[j], now);
      assert Overdue(m, m.rollout.nodes[j], now);
    }
    if AnyOverdue(m, i + 1, now) {
      var j :| i + 1 <= j < |m.rollout.nodes| && Overdue(m, m.rollout.nodes[j], now);
      assert Overdue(s, s.rollout.nodes[j], now);
    }
  }

  lemma SameFates(s: System, m: System, t: System, i: nat, now: Instant)
    requires i < |s.rollout.nodes| == |m.rollout.nodes| == |t.rollout.nodes| && !Overdue(s, s.rollout.nodes[i], now)
    requires t.rollout.nodes[i] == m.rollout.nodes[i] && Settles(s, s.rollout.nodes[i], m.rollout.nodes[i])
    requires forall j :: i < j < |s.rollout.nodes| ==>
      && m.rollout.nodes[j] == s.rollout.nodes[j]
      && Overdue(m, s.rollout.nodes[j], now) == Overdue(s, s.rollout.nodes[j], now)
      && (Settles(m, s.rollout.nodes[j], t.rollout.nodes[j]) ==> Settles(s, s.rollout.nodes[j], t.rollout.nodes[j]))
    requires forall j :: i < j < |s.rollout.nodes| ==> Fate(m, i + 1, j, t.rollout.nodes[j], now)
    ensures forall j :: i <= j < |s.rollout.nodes| ==> Fate(s, i, j, t.rollout.nodes[j], now)
  {
    hide Overdue, Settles;
    forall j | i <= j < |s.rollout.nodes| ensures Fate(s, i, j, t.rollout.nodes[j], now) {
      if i < j {
        assert Fate(m, i + 1, j, t.rollout.nodes[j], now);
        if Spared(s, i, j, now) {
          var k :| i <= k < j && Overdue(s, s.rollout.nodes[k], now);
          assert Overdue(m, m.rollout.nodes[k], now);
        }
      }
    }
  }

  lemma SameFailures(s: System, m: System, t: System, i: nat)
    requires i < |s.rollout.nodes| == |m.rollout.nodes| == |t.rollout.nodes|
    requires !(s.rollout.nodes[i].phase.RollingBack? && t.rollout.nodes[i].phase.RollbackFailed?)
    requires forall j :: i < j < |s.rollout.nodes| ==> m.rollout.nodes[j] == s.rollout.nodes[j]
    ensures AnyRevertFailure(s, t, i) == AnyRevertFailure(m, t, i + 1)
  {
    if AnyRevertFailure(s, t, i) {
      var j :| i <= j < |s.rollout.nodes| && s.rollout.nodes[j].phase.RollingBack? &&
          t.rollout.nodes[j].phase.RollbackFailed?;
      assert m.rollout.nodes[j].phase.RollingBack?;
    }
    if AnyRevertFailure(m, t, i + 1) {
      var j :| i + 1 <= j < |m.rollout.nodes| && m.rollout.nodes[j].phase.RollingBack? &&
          t.rollout.nodes[j].phase.RollbackFailed?;
      assert s.rollout.nodes[j].phase.RollingBack?;
    }
  }

  lemma RevertsStop(s: System, m: System, i: nat, now: Instant)
    requires i < |s.rollout.nodes| && OnlyNode(s, m, i)
    requires Reverts(s, s.rollout.nodes[i], m.rollout.nodes[i])
    requires Overdue(s, s.rollout.nodes[i], now)
    requires m.rollout.nodes[i] == s.rollout.nodes[i].(phase := RollbackFailed)
    requires m.rollout.state == RevertFailed
    ensures RevertsFrom(s, m, i, now)
  {
    hide Confirmed, TimedOut, RecordOf;
  }

  lemma RevertsEnd(s: System, t: System, now: Instant)
    requires t == if AnyRollingBack(s.rollout.nodes) then s else SetState(s, Reverted)
    requires s.rollout.state.Reverting?
    ensures RevertsFrom(s, t, |s.rollout.nodes|, now)
  {
    hide Overdue, Reverts, AnyRollingBack;
  }

  lemma {:induction false} RevertNodesMeaning(s: System, i: nat, now: Instant)
    requires Wf(s) && i <= |s.rollout.nodes| && s.rollout.state.Reverting?
    ensures var t := RevertNodes(s, i, now);
      Wf(t) && Frame(s, t) && RevertsFrom(s, t, i, now)
    decreases |s.rollout.nodes| - i
  {
    hide RevertNode, Wf, Frame, RevertsFrom, Reverts, Overdue, AnyRollingBack;
    var t := RevertNodes(s, i, now);
    if i == |s.rollout.nodes| {
      SetStateKeeps(s, Reverted);
      SetStateKeeps(s, Reverting);
      RevertsEnd(s, t, now);
    } else {
      var (m, stop) := RevertNode(s, i, now);
      RevertNodeMeaning(s, i, now);
      if stop {
        assert Overdue(s, s.rollout.nodes[i], now);
        RevertsStop(s, m, i, now);
      } else {
        RevertNodesMeaning(m, i + 1, now);
        FrameTransitive(s, m, t);
        RevertsStep(s, m, t, i, now);
      }
    }
  }

  // ------------------------------------------------------------------ forward progress

  /** The record on file approves the node: at the target version, with a bound, passed self-test. */
  ghost predicate ApprovedBy(s: System, n: Node) {
    && RecordOf(s, n.id).Some?
    && Get(RecordOf(s, n.id).value, Version) == s.rollout.target
    && n.request.Some? && n.request.value.operation == s.rollout.operation && n.request.value.target == s.rollout.target
    && Passed(TestOf(RecordOf(s, n.id).value), n, s.rollout.operation)
  }

  predicate AsksForTarget(r: Rollout, n: Node) {
    AsksFor(r, n, r.target)
  }

  /** The node as a reconcile finds it active: one still pending starts draining. */
  function Opened(n: Node, now: Instant): Node {
    if n.phase.Pending? then n.(phase := Draining, startedAt := now) else n
  }

  /** The record reports drained: a CORE a true `drained`, a worker no current task and not being busy. */
  ghost predicate ReportsDrained(s: System, id: string) {
    && RecordOf(s, id).Some?
    && var rec := RecordOf(s, id).value;
       if IsCore(id) then Get(rec, Drained) != Null && Get(rec, Drained) != Text("") && Get(rec, Drained) != Flag(false)
       else
         && (Get(rec, CurrentTask) == Null || Get(rec, CurrentTask) == Text("") || Get(rec, CurrentTask) == Flag(false))
         && Get(rec, Status) != Text("BUSY")
  }

  /** The version the record reports. */
  ghost function ReportedVersion(s: System, id: string): Value {
    if RecordOf(s, id).Some? then Get(RecordOf(s, id).value, Version) else Null
  }

  /** Exactly when a reconcile fails the node: no record, past its timeout, an update error, a failed self-test. */
  ghost predicate Fails(s: System, n: Node, now: Instant) {
    || RecordOf(s, n.id).None?
    || now - n.startedAt > s.rollout.timeout * 1_000_000
    || (n.phase.Updating? && !IsCore(n.id) && Get(RecordOf(s, n.id).value, Status) == Text("ERROR"))
    || (n.phase.SelfTesting? && TestOf(RecordOf(s, n.id).value).status == Text("FAILED"))
  }

  /**
   One forward move of the active node: it is updated once its record reports drained, and only
   then is the version noted that the record reports; it is tested once the record reports the
   target, and ready exactly when the record approves it.
   */
  ghost predicate Moves(s: System, n: Node, m: Node, now: Instant) {
    match n.phase
    case Draining =>
      m == if ReportsDrained(s, n.id)
           then n.(phase := Updating, startedAt := now, previous := ReportedVersion(s, n.id)) else n
    case Updating =>
      if ReportedVersion(s, n.id) == s.rollout.target
      then m == n.(phase := SelfTesting, startedAt := now, request := m.request) && AsksForTarget(s.rollout, m)
      else m == n
    case SelfTesting =>
      && m == n.(phase := m.phase, request := m.request) && AsksForTarget(s.rollout, m)
      && (AsksForTarget(s.rollout, n) ==> m.request == n.request)
      && m.phase == if ApprovedBy(s, m) then Ready else SelfTesting
    case _ => false
  }

  ghost predicate Forward(s: System, t: System, a: nat, now: Instant) {
    && Frame(s, t) && OnlyNode(s, t, a)
    && !Fails(s, Opened(s.rollout.nodes[a], now), now)
    && Moves(s, Opened(s.rollout.nodes[a], now), t.rollout.nodes[a], now)
    && t.rollout.state ==
         if t.rollout.nodes[a].phase.Ready? && t.rollout.nodes[a].canary && !s.rollout.promoted then AwaitingPromotion
         else s.rollout.state
  }

  /** The active node failed and the rollout turned around. */
  ghost predicate Collapses(s: System, t: System, a: nat, now: Instant) {
    && Frame(s, t) && a < |s.rollout.nodes|
    && (forall j :: 0 <= j < |s.rollout.nodes| ==>
          Turns(s, if j == a then Opened(s.rollout.nodes[j], now).(phase := Failed) else s.rollout.nodes[j],
            t.rollout.nodes[j], now))
    && t.rollout.state == if AnyRollingBack(t.rollout.nodes) then Reverting else Defeated
  }

  lemma FailMeaning(s: System, i: nat, now: Instant)
    requires Wf(s) && i < |s.rollout.nodes| && !s.rollout.nodes[i].phase.Pending?
    ensures Wf(Fail(s, i, now)) && Collapses(s, Fail(s, i, now), i, now)
  {
    hide Wf, Frame, Begin, AnyRollingBack, Turns;
    var n := s.rollout.nodes[i].(phase := Failed);
    var u := PutNode(s, i, n);
    PutNodeKeeps(s, i, n, s.drawn);
    assert u.(drawn := s.drawn) == u;
    BeginMeaning(u, now);
    var t := Begin(u, now);
    FrameTransitive(s, u, t);
    FrameLength(s, t);
    forall j | 0 <= j < |s.rollout.nodes|
      ensures Turns(s, if j == i then n else s.rollout.nodes[j], t.rollout.nodes[j], now)
    {
      TurnsFrame(s, u, u.rollout.nodes[j], t.rollout.nodes[j], now);
    }
  }

  lemma FrameLength(s: System, t: System)
    requires Frame(s, t)
    ensures |t.rollout.nodes| == |s.rollout.nodes|
  {}

  /** A failure after commands were written is a failure of the state before them. */
  lemma CollapsesAfter(s: System, m: System, t: System, a: nat, now: Instant)
    requires Frame(s, m) && Collapses(m, t, a, now) && a < |s.rollout.nodes| == |m.rollout.nodes|
    requires forall j :: 0 <= j < |s.rollout.nodes| ==>
      m.rollout.nodes[j] == if j == a then Opened(s.rollout.nodes[j], now) else s.rollout.nodes[j]
    ensures Collapses(s, t, a, now)
  {
    FrameTransitive(s, m, t);
    hide Frame, Turns;
    forall j | 0 <= j < |s.rollout.nodes|
      ensures Turns(s, if j == a then Opened(s.rollout.nodes[j], now).(phase := Failed) else s.rollout.nodes[j],
                t.rollout.nodes[j], now)
    {
      var n := if j == a then Opened(s.rollout.nodes[j], now).(phase := Failed) else s.rollout.nodes[j];
      TurnsFrame(s, m, n, t.rollout.nodes[j], now);
    }
  }

  lemma SomeRecord(s: System, n: Node, now: Instant)
    requires !Fails(s, n, now)
    ensures RecordOf(s, n.id).Some?
  {}

  lemma DrainKeeps(core: bool, rec: Record, r: Rollout)
    ensures var told := Command(core, rec, "DRAINING")[OperationId := Token(r.operation)];
      SameReport(told, rec) && SameReport(Command(core, told, "UPDATING")[TargetVersion := r.target], rec)
  {}

  /** The order to drain changes nothing of what decides whether the record is drained. */
  lemma DrainReads(s: System, id: string)
    requires RecordOf(s, id).Some?
    ensures var told := Command(IsCore(id), RecordOf(s, id).value, "DRAINING")
        [OperationId := Token(s.rollout.operation)];
      IsDrained(IsCore(id), told) == ReportsDrained(s, id) && Get(told, Version) == ReportedVersion(s, id)
  {
    hide IsCore;
  }

  lemma DrainMeaning(s: System, i: nat, now: Instant)
    requires Wf(s) && i < |s.rollout.nodes| && s.rollout.nodes[i].phase.Draining?
    requires !Fails(s, s.rollout.nodes[i], now)
    ensures var t := Drain(s, i, now, RecordOf(s, s.rollout.nodes[i].id).value);
      Wf(t) && Forward(s, t, i, now)
  {
    hide Wf, Frame, Command, Fails;
    SomeRecord(s, s.rollout.nodes[i], now);
    var r, n := s.rollout, s.rollout.nodes[i];
    var core, rec := IsCore(n.id), RecordOf(s, n.id).value;
    var told := Command(core, rec, "DRAINING")[OperationId := Token(r.operation)];
    hide IsDrained, ReportsDrained, ReportedVersion, SameReport;
    DrainKeeps(core, rec, r);
    DrainReads(s, n.id);
    if IsDrained(core, told) {
      PutBoth(s, i, n.(phase := Updating, startedAt := now, previous := Get(told, Version)), s.drawn,
        Command(core, told, "UPDATING")[TargetVersion := r.target]);
    } else {
      PutBoth(s, i, n, s.drawn, told);
      assert PutNode(s, i, n) == s;
    }
  }

  function UpdateTold(core: bool, rec: Record, r: Rollout): Record {
    Command(core, rec, "UPDATING")[TargetVersion := r.target][OperationId := Token(r.operation)]
  }

  function TestTold(core: bool, rec: Record, r: Rollout, req: Request, now: Instant): Record {
    Command(core, UpdateTold(core, rec, r), "SELF_TESTING")[TestRequestedAt := Time(now)][TestRequest := Asked(req)]
  }

  lemma UpdateKeeps(core: bool, rec: Record, r: Rollout, req: Request, now: Instant)
    ensures SameReport(UpdateTold(core, rec, r), rec) && SameReport(TestTold(core, rec, r, req, now), rec)
    ensures Get(UpdateTold(core, rec, r), Status) == Get(rec, Status)
  {}

  /** The record told to update, and nothing else. */
  lemma ToldMeaning(s: System, i: nat, told: Record)
    requires Wf(s) && i < |s.rollout.nodes| && RecordOf(s, s.rollout.nodes[i].id).Some?
    requires SameReport(told, RecordOf(s, s.rollout.nodes[i].id).value)
    ensures var t := PutRecord(s, s.rollout.nodes[i].id, told);
      Wf(t) && Frame(s, t) && t.rollout.nodes == s.rollout.nodes && t.rollout.state == s.rollout.state
  {
    hide Wf, Frame, SameReport;
    PutRecordKeeps(s, s.rollout.nodes[i].id, told);
  }

  lemma UpdateMeaning(s: System, i: nat, now: Instant)
    requires Wf(s) && i < |s.rollout.nodes| && s.rollout.nodes[i].phase.Updating?
    requires RecordOf(s, s.rollout.nodes[i].id).Some? && !TimedOut(s.rollout.nodes[i], s.rollout.timeout, now)
    ensures var t := Update(s, i, now, RecordOf(s, s.rollout.nodes[i].id).value);
      Wf(t) && if Fails(s, s.rollout.nodes[i], now) then Collapses(s, t, i, now) else Forward(s, t, i, now)
  {
    hide Wf, Frame, Fail, Collapses, SameReport, Command;
    var r, n := s.rollout, s.rollout.nodes[i];
    var core, rec := IsCore(n.id), RecordOf(s, n.id).value;
    var told := UpdateTold(core, rec, r);
    var (asked, drawn) := Ensure(n.(phase := SelfTesting, startedAt := now), r.operation, r.target, s.drawn);
    UpdateKeeps(core, rec, r, asked.request.value, now);
    assert Get(told, Version) == ReportedVersion(s, n.id);
    if !core && Get(told, Status) == Text("ERROR") {
      ToldMeaning(s, i, told);
      var m := PutRecord(s, n.id, told);
      FailMeaning(m, i, now);
      CollapsesAfter(s, m, Fail(m, i, now), i, now);
    } else if Get(told, Version) == r.target {
      PutBoth(s, i, asked, drawn, TestTold(core, rec, r, asked.request.value, now));
    } else {
      ToldMeaning(s, i, told);
    }
  }

  function ReadyTold(core: bool, rec: Record, req: Request): Record {
    var noted := rec[TestRequest := Asked(req)];
    if core then Command(core, noted, "READY") - {TestRequestedAt}
    else noted - {DesiredState, TargetVersion, TestRequestedAt}
  }

  lemma ReadyKeeps(core: bool, rec: Record, req: Request, now: Instant)
    ensures var noted := rec[TestRequest := Asked(req)];
      && SameReport(noted, rec) && SameReport(noted[TestRequestedAt := Time(now)], rec)
      && SameReport(ReadyTold(core, rec, req), rec) && Get(noted, Version) == Get(rec, Version)
  {}

  /** A node made ready, and the canary's pause. */
  lemma ReadyMeaning(s: System, i: nat, asked: Node, drawn: nat, rec: Record, now: Instant)
    requires Wf(s) && i < |s.rollout.nodes| && s.rollout.nodes[i].phase.SelfTesting? && Rewrites(s, i, asked, drawn)
    requires RecordOf(s, asked.id).Some? && SameReport(rec, RecordOf(s, asked.id).value)
    requires Moves(s, s.rollout.nodes[i], asked.(phase := Ready), now) && !Fails(s, s.rollout.nodes[i], now)
    ensures var done := PutRecord(PutNode(s.(drawn := drawn), i, asked.(phase := Ready)), asked.id, rec);
      var t := if asked.canary && !s.rollout.promoted then SetState(done, AwaitingPromotion) else done;
      Wf(t) && Forward(s, t, i, now)
  {
    hide Wf, Frame, SameReport, Moves, Fails;
    PutDrawn(s, i, asked.(phase := Ready), drawn, rec);
    var done := PutRecord(PutNode(s.(drawn := drawn), i, asked.(phase := Ready)), asked.id, rec);
    SetStateKeeps(done, AwaitingPromotion);
    FrameTransitive(s, done, SetState(done, AwaitingPromotion));
  }

  lemma PassedWhenReady(t: SelfTest, n: Node, operation: nat)
    ensures Passed(t, n.(phase := Ready), operation) == Passed(t, n, operation)
  {
    hide NotBefore;
  }

  lemma ExamineMeaning(s: System, i: nat, now: Instant)
    requires Wf(s) && i < |s.rollout.nodes| && s.rollout.nodes[i].phase.SelfTesting?
    requires RecordOf(s, s.rollout.nodes[i].id).Some? && !TimedOut(s.rollout.nodes[i], s.rollout.timeout, now)
    ensures var t := Examine(s, i, now, RecordOf(s, s.rollout.nodes[i].id).value);
      Wf(t) && if Fails(s, s.rollout.nodes[i], now) then Collapses(s, t, i, now) else Forward(s, t, i, now)
  {
    hide Wf, Frame, Fail, Collapses, SameReport, Command, Passed, Bound, PutRecord, PutNode;
    var r, n := s.rollout, s.rollout.nodes[i];
    var core, rec := IsCore(n.id), RecordOf(s, n.id).value;
    if TestOf(rec).status == Text("FAILED") {
      FailMeaning(s, i, now);
    } else {
      var (asked, drawn) := Ensure(n, r.operation, r.target, s.drawn);
      var noted := rec[TestRequest := Asked(asked.request.value)];
      ReadyKeeps(core, rec, asked.request.value, now);
      if Passed(TestOf(rec), asked, r.operation) && Get(noted, Version) == r.target {
        PassedWhenReady(TestOf(rec), asked, r.operation);
        ReadyMeaning(s, i, asked, drawn, ReadyTold(core, rec, asked.request.value), now);
      } else {
        WaitMeaning(s, i, asked, drawn,
          if Bound(TestOf(rec), asked, r.operation) then noted else noted[TestRequestedAt := Time(now)], now);
      }
    }
  }

  lemma WaitMeaning(s: System, i: nat, asked: Node, drawn: nat, rec: Record, now: Instant)
    requires Wf(s) && i < |s.rollout.nodes| && Rewrites(s, i, asked, drawn)
    requires s.rollout.nodes[i].phase.SelfTesting? && Moves(s, s.rollout.nodes[i], asked, now)
    requires !Fails(s, s.rollout.nodes[i], now)
    requires RecordOf(s, asked.id).Some? && SameReport(rec, RecordOf(s, asked.id).value) && !asked.phase.Ready?
    ensures var t := PutRecord(PutNode(s.(drawn := drawn), i, asked), asked.id, rec);
      Wf(t) && Forward(s, t, i, now)
  {
    hide Wf, Frame, SameReport, Moves, Fails, PutRecord, PutNode;
    PutDrawn(s, i, asked, drawn, rec);
  }

  /** The active node fails exactly when it must, and otherwise moves forward as stated. */
  lemma AdvanceMeaning(s: System, i: nat, now: Instant)
    requires Wf(s) && i < |s.rollout.nodes| && Active(s.rollout.nodes[i].phase)
    ensures Wf(Advance(s, i, now))
    ensures if Fails(s, s.rollout.nodes[i], now) then Collapses(s, Advance(s, i, now), i, now)
            else Forward(s, Advance(s, i, now), i, now)
  {
    hide Wf, Fail, Collapses, Forward, Drain, Update, Examine;
    var n := s.rollout.nodes[i];
    if RecordOf(s, n.id).None? || TimedOut(n, s.rollout.timeout, now) {
      FailMeaning(s, i, now);
    } else {
      match n.phase
      case Draining => DrainMeaning(s, i, now);
      case Updating => UpdateMeaning(s, i, now);
      case SelfTesting => ExamineMeaning(s, i, now);
    }
  }
}
