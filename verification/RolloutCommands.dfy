/** What a step tells the agents: the commands in the records follow the phases of the nodes. */
module RolloutCommands {
  import opened Common
  import opened TextOrder
  import opened Timestamps
  import opened RolloutModel
  import opened RolloutProofs
  import opened RolloutInvariant

  /** The command of the record, which coordinators and workers read from different fields. */
  function CommandIn(core: bool, rec: Record): Value {
    Get(rec, if core then CoordinatorState else DesiredState)
  }

  predicate IsCommand(f: Field) {
    f.DesiredState? || f.CoordinatorState? || f.TargetVersion? || f.OperationId? || f.RollbackTarget? || f.TestRequest?
    || f.TestRequestedAt?
  }

  /** Nothing the agent itself wrote is changed. */
  ghost predicate OnlyCommands(was: Record, rec: Record) {
    forall f: Field :: !IsCommand(f) ==> Get(rec, f) == Get(was, f)
  }

  // ------------------------------------------------------------------ going back

  /** Go back to the node's previous version, in this operation, and answer this self-test request. */
  ghost predicate SentBack(operation: nat, n: Node, rec: Record) {
    && CommandIn(IsCore(n.id), rec) == Text("ROLLBACK") && Get(rec, RollbackTarget) == n.previous
    && Get(rec, OperationId) == Token(operation)
    && n.request.Some? && Get(rec, TestRequest) == Asked(n.request.value)
  }

  /** The commands are gone once the node is back; a CORE is told so. */
  ghost predicate Released(n: Node, rec: Record) {
    && Get(rec, TestRequestedAt) == Null
    && if IsCore(n.id) then Get(rec, CoordinatorState) == Text("ROLLED_BACK")
       else Get(rec, DesiredState) == Null && Get(rec, RollbackTarget) == Null
  }

  /** The record of node `j` once a rollback has begun: told to go back if there is one to tell, else untouched. */
  ghost predicate BeginsBack(s: System, t: System, j: nat, now: Instant)
    requires j < |s.rollout.nodes| && j < |t.rollout.nodes|
  {
    var n, m := s.rollout.nodes[j], t.rollout.nodes[j];
    if RecordOf(s, n.id).Some? && m.phase.RollingBack? then
      && RecordOf(t, n.id).Some? && SentBack(s.rollout.operation, m, RecordOf(t, n.id).value)
      && OnlyCommands(RecordOf(s, n.id).value, RecordOf(t, n.id).value)
      && Get(RecordOf(t, n.id).value, TestRequestedAt) == Time(now)
    else RecordOf(t, n.id) == RecordOf(s, n.id)
  }

  /** No record is touched but those of the nodes from `i` to before `k`. */
  ghost predicate OthersAlone(s: System, t: System, i: nat, k: nat) {
    forall id :: (forall j :: i <= j < k && j < |s.rollout.nodes| ==> s.rollout.nodes[j].id != id) ==>
      RecordOf(t, id) == RecordOf(s, id)
  }

  /** A node and its record replaced: the record is as put, and no other is touched. */
  lemma PutTells(s: System, i: nat, n: Node, drawn: nat, rec: Record)
    requires i < |s.rollout.nodes| && n.id == s.rollout.nodes[i].id
    ensures var t := PutRecord(PutNode(s.(drawn := drawn), i, n), n.id, rec);
      && t == PutRecord(PutNode(s, i, n), n.id, rec).(drawn := drawn)
      && |t.rollout.nodes| == |s.rollout.nodes| && t.rollout.nodes[i] == n
      && RecordOf(t, n.id) == Some(rec) && OthersAlone(s, t, i, i + 1)
  {
    hide IsCore;
  }

  lemma BackReads(rec: Record, n: Node, operation: nat, now: Instant)
    requires n.request.Some?
    ensures var told := RollbackCommand(IsCore(n.id), rec, n, operation)[TestRequestedAt := Time(now)];
      SentBack(operation, n, told) && Get(told, TestRequestedAt) == Time(now) && OnlyCommands(rec, told)
  {
    hide IsCore;
  }

  lemma BeginNodeTells(s: System, i: nat, now: Instant)
    requires Wf(s) && i < |s.rollout.nodes|
    ensures |BeginNode(s, i, now).rollout.nodes| == |s.rollout.nodes|
    ensures BeginsBack(s, BeginNode(s, i, now), i, now) && OthersAlone(s, BeginNode(s, i, now), i, i + 1)
  {
    hide Wf, Updated, RollbackCommand, SentBack, OnlyCommands, IsCore;
    var n := s.rollout.nodes[i];
    if Updated(s, n) && RecordOf(s, n.id).Some? {
      var rec := RecordOf(s, n.id).value;
      var (asked, drawn) := Ensure(n.(phase := RollingBack, startedAt := now), s.rollout.operation, n.previous,
          s.drawn);
      hide RecordOf, PutRecord, PutNode, Ensure, OthersAlone;
      BackReads(rec, asked, s.rollout.operation, now);
      PutTells(s, i, asked, drawn,
        RollbackCommand(IsCore(n.id), rec, asked, s.rollout.operation)[TestRequestedAt := Time(now)]);
    } else {
      NoneTold(s, i, now);
    }
  }

  /** A node without a record, or one that is not rolled back, leaves every record as it is. */
  lemma NoneTold(s: System, i: nat, now: Instant)
    requires i < |s.rollout.nodes|
    requires !Updated(s, s.rollout.nodes[i]) || RecordOf(s, s.rollout.nodes[i].id).None?
    ensures var t := BeginNode(s, i, now);
      && |t.rollout.nodes| == |s.rollout.nodes|
      && RecordOf(t, s.rollout.nodes[i].id) == RecordOf(s, s.rollout.nodes[i].id) && OthersAlone(s, t, i, i + 1)
      && (t.rollout.nodes[i].phase.RollingBack? ==> RecordOf(s, s.rollout.nodes[i].id).None?)
  {
    hide Updated, IsCore, RollbackCommand, Ensure;
  }

  /** The rest of the loop leaves the record of node `i` as the iteration for it left it. */
  lemma OthersLater(s: System, m: System, t: System, i: nat)
    requires Wf(s) && i < |s.rollout.nodes| == |m.rollout.nodes|
    requires forall j :: 0 <= j < |s.rollout.nodes| ==> m.rollout.nodes[j].id == s.rollout.nodes[j].id
    requires OthersAlone(s, m, i, i + 1) && OthersAlone(m, t, i + 1, |s.rollout.nodes|)
    ensures RecordOf(t, s.rollout.nodes[i].id) == RecordOf(m, s.rollout.nodes[i].id)
    ensures forall j :: i < j < |s.rollout.nodes| ==>
      RecordOf(m, s.rollout.nodes[j].id) == RecordOf(s, s.rollout.nodes[j].id)
    ensures OthersAlone(s, t, i, |s.rollout.nodes|)
  {
    hide RecordOf;
    forall id | forall j :: i <= j < |s.rollout.nodes| ==> s.rollout.nodes[j].id != id
      ensures RecordOf(t, id) == RecordOf(s, id)
    {
      assert RecordOf(m, id) == RecordOf(s, id);
    }
  }

  lemma {:induction false} BeginNodesTell(s: System, i: nat, now: Instant)
    requires Wf(s) && i <= |s.rollout.nodes|
    ensures var t := BeginNodes(s, i, now);
      && |t.rollout.nodes| == |s.rollout.nodes| && OthersAlone(s, t, i, |s.rollout.nodes|)
      && forall j :: i <= j < |s.rollout.nodes| ==> BeginsBack(s, t, j, now)
    decreases |s.rollout.nodes| - i
  {
    hide BeginNode, Wf, Turns, Frame, OthersAlone, RecordOf, SentBack, OnlyCommands;
    BeginNodesMeaning(s, i, now);
    FrameLength(s, BeginNodes(s, i, now));
    if i < |s.rollout.nodes| {
      var m, t := BeginNode(s, i, now), BeginNodes(s, i, now);
      BeginNodeMeaning(s, i, now);
      BeginNodeTells(s, i, now);
      BeginNodesMeaning(m, i + 1, now);
      BeginNodesTell(m, i + 1, now);
      SameIds(s, m);
      SameIds(s, t);
      OthersLater(s, m, t, i);
      assert t.rollout.nodes[i] == m.rollout.nodes[i];
      FrameOperation(s, m);
      assert BeginsBack(s, m, i, now);
      forall j | i < j < |s.rollout.nodes| ensures BeginsBack(s, t, j, now) {
        assert BeginsBack(m, t, j, now);
        assert m.rollout.nodes[j] == s.rollout.nodes[j];
      }
    } else {
      NothingTold(s, i);
    }
  }

  lemma SameIds(s: System, t: System)
    requires Frame(s, t)
    ensures |t.rollout.nodes| == |s.rollout.nodes|
    ensures forall j :: 0 <= j < |s.rollout.nodes| ==> t.rollout.nodes[j].id == s.rollout.nodes[j].id
  {
    forall j | 0 <= j < |s.rollout.nodes| ensures t.rollout.nodes[j].id == s.rollout.nodes[j].id {
      assert KeepsNode(s, t, j);
    }
  }

  lemma NothingTold(s: System, i: nat)
    ensures OthersAlone(s, s, i, |s.rollout.nodes|)
  {}

  /** `_begin_rollback`: every node that rolls back is told so, and no other record is touched. */
  lemma BeginTells(s: System, now: Instant)
    requires Wf(s)
    ensures var t := Begin(s, now);
      && |t.rollout.nodes| == |s.rollout.nodes| && OthersAlone(s, t, 0, |s.rollout.nodes|)
      && forall j :: 0 <= j < |s.rollout.nodes| ==> BeginsBack(s, t, j, now)
  {
    hide BeginNodes, Wf, OthersAlone;
    var u := SetState(s, Reverting);
    SetStateKeeps(s, Reverting);
    BeginNodesTell(u, 0, now);
    var t := BeginNodes(u, 0, now);
    SameRecords(s, u, t, SetState(t, Defeated));
    forall j | 0 <= j < |s.rollout.nodes| ensures BeginsBack(s, Begin(s, now), j, now) {
      assert BeginsBack(u, t, j, now);
      hide SentBack, OnlyCommands;
    }
  }

  /** The state of the rollout is no record. */
  lemma SameRecords(s: System, u: System, t: System, v: System)
    requires u.workers == s.workers && u.rollout == s.rollout.(state := u.rollout.state)
    requires v.workers == t.workers && v.rollout == t.rollout.(state := v.rollout.state)
    requires OthersAlone(u, t, 0, |s.rollout.nodes|)
    ensures OthersAlone(s, t, 0, |s.rollout.nodes|) && OthersAlone(s, v, 0, |s.rollout.nodes|)
  {
    forall id ensures RecordOf(u, id) == RecordOf(s, id) && RecordOf(v, id) == RecordOf(t, id) {}
    hide RecordOf;
  }

  // ------------------------------------------------------------------ reconciling a rollback

  /** The record of a rolling-back node after a reconcile came to it in time. */
  ghost predicate Reminded(s: System, t: System, j: nat, now: Instant)
    requires j < |s.rollout.nodes| && j < |t.rollout.nodes|
  {
    var n, m := s.rollout.nodes[j], t.rollout.nodes[j];
    && RecordOf(s, n.id).Some? && RecordOf(t, n.id).Some?
    && var was, rec := RecordOf(s, n.id).value, RecordOf(t, n.id).value;
    && OnlyCommands(was, rec)
    && if m.phase.RolledBack? then Released(m, rec)
       else
         && SentBack(s.rollout.operation, m, rec)
         && Get(rec, TestRequestedAt) ==
           if Bound(TestOf(was), m, s.rollout.operation) then Get(was, TestRequestedAt) else Time(now)
  }

  ghost predicate RevertTells(s: System, t: System, j: nat, now: Instant)
    requires j < |s.rollout.nodes| && j < |t.rollout.nodes|
  {
    if s.rollout.nodes[j].phase.RollingBack? && !Overdue(s, s.rollout.nodes[j], now) then Reminded(s, t, j, now)
    else RecordOf(t, s.rollout.nodes[j].id) == RecordOf(s, s.rollout.nodes[j].id)
  }

  lemma CommandReads(rec: Record, n: Node, operation: nat, now: Instant)
    requires n.request.Some?
    ensures var core := IsCore(n.id);
      var told := RollbackCommand(core, rec, n, operation);
      && SentBack(operation, n, told) && Get(told, TestRequestedAt) == Get(rec, TestRequestedAt)
      && SentBack(operation, n, told[TestRequestedAt := Time(now)]) && TestOf(told) == TestOf(rec)
      && Get(told[TestRequestedAt := Time(now)], TestRequestedAt) == Time(now)
      && OnlyCommands(rec, told) && OnlyCommands(rec, told[TestRequestedAt := Time(now)])
  {
    hide IsCore;
  }

  lemma ReleaseReads(rec: Record, n: Node, operation: nat)
    requires n.request.Some?
    ensures var core := IsCore(n.id);
      var told := RollbackCommand(core, rec, n, operation);
      var cleared := if core then Command(core, told, "ROLLED_BACK") - {TestRequestedAt}
                     else told - {DesiredState, RollbackTarget, TestRequestedAt};
      Released(n, cleared) && OnlyCommands(rec, cleared)
  {
    hide IsCore;
  }

  lemma RevertNodeTells(s: System, i: nat, now: Instant)
    requires i < |s.rollout.nodes|
    ensures var (t, stop) := RevertNode(s, i, now);
      && |t.rollout.nodes| == |s.rollout.nodes|
      && RevertTells(s, t, i, now) && OthersAlone(s, t, i, i + 1)
  {
    hide IsCore, Bound, Confirmed, RecordOf, SentBack, Released, OnlyCommands;
    var n, r := s.rollout.nodes[i], s.rollout;
    if n.phase.RollingBack? && !Overdue(s, n, now) {
      var core, rec := IsCore(n.id), RecordOf(s, n.id).value;
      var (asked, drawn) := Ensure(n, r.operation, n.previous, s.drawn);
      var told := RollbackCommand(core, rec, asked, r.operation);
      CommandReads(rec, asked, r.operation, now);
      ReleaseReads(rec, asked, r.operation);
      hide RollbackCommand, Command, PutRecord, PutNode, OthersAlone, Ensure;
      BoundAlike(TestOf(rec), asked, r.operation);
      ReleasedAlike(asked);
      if Confirmed(told, asked, r.operation) {
        PutTells(s, i, asked.(phase := RolledBack), drawn,
          if core then Command(core, told, "ROLLED_BACK") - {TestRequestedAt}
          else told - {DesiredState, RollbackTarget, TestRequestedAt});
      } else if !Bound(TestOf(told), asked, r.operation) {
        PutTells(s, i, asked, drawn, told[TestRequestedAt := Time(now)]);
      } else {
        PutTells(s, i, asked, drawn, told);
      }
    } else {
      RecordsKept(s, i, now);
    }
  }

  lemma BoundAlike(t: SelfTest, n: Node, operation: nat)
    ensures Bound(t, n.(phase := RolledBack), operation) == Bound(t, n, operation)
  {}

  lemma ReleasedAlike(n: Node)
    ensures forall rec :: Released(n.(phase := RolledBack), rec) == Released(n, rec)
  {}

  lemma RecordsKept(s: System, i: nat, now: Instant)
    requires i < |s.rollout.nodes|
    requires !s.rollout.nodes[i].phase.RollingBack? || Overdue(s, s.rollout.nodes[i], now)
    ensures var t := RevertNode(s, i, now).0;
      && |t.rollout.nodes| == |s.rollout.nodes| && RecordOf(t, s.rollout.nodes[i].id) == RecordOf(s,
          s.rollout.nodes[i].id)
      && OthersAlone(s, t, i, i + 1)
  {
    hide IsCore, RollbackCommand, Ensure;
  }

  /** The loop's effect on the record of node `j`: none once it returned. */
  ghost predicate RevertTellsFrom(s: System, t: System, i: nat, j: nat, now: Instant)
    requires j < |s.rollout.nodes| && j < |t.rollout.nodes|
  {
    if Spared(s, i, j, now) then RecordOf(t, s.rollout.nodes[j].id) == RecordOf(s, s.rollout.nodes[j].id)
    else RevertTells(s, t, j, now)
  }

  ghost predicate AllRevertTold(s: System, t: System, i: nat, now: Instant) {
    && |t.rollout.nodes| == |s.rollout.nodes|
    && forall j :: i <= j < |s.rollout.nodes| ==> RevertTellsFrom(s, t, i, j, now)
  }

  lemma SparedLater(s: System, m: System, i: nat, j: nat, now: Instant)
    requires i < j < |s.rollout.nodes| == |m.rollout.nodes| && !Overdue(s, s.rollout.nodes[i], now)
    requires forall k :: i < k < |s.rollout.nodes| ==>
      Overdue(m, m.rollout.nodes[k], now) == Overdue(s, s.rollout.nodes[k], now)
    ensures Spared(m, i + 1, j, now) == Spared(s, i, j, now)
  {
    hide Overdue;
    if Spared(s, i, j, now) {
      var k :| i <= k < j && Overdue(s, s.rollout.nodes[k], now);
      assert Overdue(m, m.rollout.nodes[k], now);
    }
  }

  lemma RevertLater(s: System, m: System, t: System, i: nat, j: nat, now: Instant)
    requires i < j < |s.rollout.nodes| == |m.rollout.nodes| == |t.rollout.nodes|
    requires m.rollout.nodes[j] == s.rollout.nodes[j] && m.rollout.operation == s.rollout.operation
    requires RecordOf(m, s.rollout.nodes[j].id) == RecordOf(s, s.rollout.nodes[j].id)
    requires Overdue(m, s.rollout.nodes[j], now) == Overdue(s, s.rollout.nodes[j], now)
    requires RevertTells(m, t, j, now)
    ensures RevertTells(s, t, j, now)
  {
    hide Overdue, RecordOf, SentBack, Released, OnlyCommands, Bound;
  }

  lemma {:induction false} RevertNodesTell(s: System, i: nat, now: Instant)
    requires Wf(s) && i <= |s.rollout.nodes| && s.rollout.state.Reverting?
    ensures var t := RevertNodes(s, i, now);
      OthersAlone(s, t, i, |s.rollout.nodes|) && AllRevertTold(s, t, i, now)
    decreases |s.rollout.nodes| - i
  {
    hide RevertNode, Wf, Frame, Reverts, Settles, Overdue, OthersAlone, RevertTells, RecordOf, Spared, RevertsFrom;
    var t := RevertNodes(s, i, now);
    if i == |s.rollout.nodes| {
      EndAlone(s, t);
    } else {
      var (m, stop) := RevertNode(s, i, now);
      RevertNodeMeaning(s, i, now);
      RevertNodeTells(s, i, now);
      SameIds(s, m);
      SparedNever(s, i, now);
      if stop {
        StopTells(s, m, i, now);
      } else {
        RevertNodesTell(m, i + 1, now);
        RevertNodesMeaning(m, i + 1, now);
        OthersLater(s, m, t, i);
        FrameOperation(s, m);
        assert t.rollout.nodes[i] == m.rollout.nodes[i] by { RevertsBefore(m, t, i + 1, i, now); }
        ContinueTells(s, m, t, i, now);
      }
    }
  }

  lemma RevertsBefore(m: System, t: System, i: nat, j: nat, now: Instant)
    requires RevertsFrom(m, t, i, now) && j < i && j < |m.rollout.nodes|
    ensures t.rollout.nodes[j] == m.rollout.nodes[j]
  {}

  lemma EndAlone(s: System, t: System)
    requires t == s || t == SetState(s, Reverted)
    ensures OthersAlone(s, t, |s.rollout.nodes|, |s.rollout.nodes|)
  {}

  lemma SparedNever(s: System, i: nat, now: Instant)
    ensures !Spared(s, i, i, now)
  {}

  /** The loop returned at node `i`. */
  lemma StopTells(s: System, m: System, i: nat, now: Instant)
    requires Wf(s) && i < |s.rollout.nodes| == |m.rollout.nodes| && Overdue(s, s.rollout.nodes[i], now)
    requires RevertTells(s, m, i, now) && OthersAlone(s, m, i, i + 1)
    ensures OthersAlone(s, m, i, |s.rollout.nodes|)
    ensures AllRevertTold(s, m, i, now)
  {
    hide RecordOf, Overdue, RevertTells;
    SparedNever(s, i, now);
    forall j | i < j < |s.rollout.nodes| ensures Spared(s, i, j, now) {}
  }

  lemma ContinueTells(s: System, m: System, t: System, i: nat, now: Instant)
    requires i < |s.rollout.nodes| == |m.rollout.nodes| == |t.rollout.nodes| && Frame(s, m) && OnlyNode(s, m, i)
    requires !Overdue(s, s.rollout.nodes[i], now) && m.rollout.operation == s.rollout.operation
    requires RecordOf(t, s.rollout.nodes[i].id) == RecordOf(m, s.rollout.nodes[i].id)
    requires t.rollout.nodes[i] == m.rollout.nodes[i] && RevertTells(s, m, i, now)
    requires forall j :: i < j < |s.rollout.nodes| ==>
      RecordOf(m, s.rollout.nodes[j].id) == RecordOf(s, s.rollout.nodes[j].id)
    requires AllRevertTold(m, t, i + 1, now)
    ensures AllRevertTold(s, t, i, now)
  {
    hide RecordOf, Overdue, Frame, Spared, RevertTells;
    SparedNever(s, i, now);
    SameVisit(s, m, t, i, now);
    forall k | i < k < |s.rollout.nodes|
      ensures m.rollout.nodes[k] == s.rollout.nodes[k]
      ensures Overdue(m, m.rollout.nodes[k], now) == Overdue(s, s.rollout.nodes[k], now)
    {
      SameDue(s, m, s.rollout.nodes[k], now);
    }
    forall j | i < j < |s.rollout.nodes| ensures RevertTellsFrom(s, t, i, j, now) {
      assert RevertTellsFrom(m, t, i + 1, j, now);
      SparedLater(s, m, i, j, now);
      if !Spared(s, i, j, now) { RevertLater(s, m, t, i, j, now); }
    }
  }

  lemma SameVisit(s: System, m: System, t: System, i: nat, now: Instant)
    requires i < |s.rollout.nodes| == |m.rollout.nodes| == |t.rollout.nodes|
    requires RecordOf(t, s.rollout.nodes[i].id) == RecordOf(m, s.rollout.nodes[i].id)
    requires t.rollout.nodes[i] == m.rollout.nodes[i] && RevertTells(s, m, i, now)
    ensures RevertTells(s, t, i, now)
  {
    hide Overdue, RecordOf, SentBack, Released, OnlyCommands, Bound;
  }

  lemma SameDue(s: System, m: System, n: Node, now: Instant)
    requires Frame(s, m)
    ensures Overdue(m, n, now) == Overdue(s, n, now)
  {
    ConfirmedFrame(s, m, n);
    hide ConfirmedBy, RecordOf;
  }

  // ------------------------------------------------------------------ going forward

  /** What the record of the active node tells its agent, by the phase the node is in now. */
  ghost predicate SentOn(r: Rollout, n: Node, m: Node, was: Record, rec: Record, now: Instant) {
    var core := IsCore(m.id);
    && OnlyCommands(was, rec)
    && match m.phase
    case Draining => CommandIn(core, rec) == Text("DRAINING") && Get(rec, OperationId) == Token(r.operation)
    case Updating =>
      && CommandIn(core, rec) == Text("UPDATING") && Get(rec, TargetVersion) == r.target
      && Get(rec, OperationId) == Token(r.operation)
    case SelfTesting =>
      && m.request.Some? && Get(rec, TestRequest) == Asked(m.request.value)
      && if n.phase.SelfTesting? then
           && CommandIn(core, rec) == CommandIn(core, was)
           && Get(rec, TestRequestedAt) ==
                if Bound(TestOf(was), m, r.operation) then Get(was, TestRequestedAt) else Time(now)
         else
           && CommandIn(core, rec) == Text("SELF_TESTING") && Get(rec, TargetVersion) == r.target
           && Get(rec, OperationId) == Token(r.operation) && Get(rec, TestRequestedAt) == Time(now)
    case Ready =>
      && Get(rec, TestRequestedAt) == Null
      && if core then Get(rec, CoordinatorState) == Text("READY")
         else Get(rec, DesiredState) == Null && Get(rec, TargetVersion) == Null
    case _ => false
  }

  ghost predicate ForwardTells(s: System, t: System, a: nat, now: Instant)
    requires a < |s.rollout.nodes| && a < |t.rollout.nodes|
  {
    var id := s.rollout.nodes[a].id;
    && OthersAlone(s, t, a, a + 1) && RecordOf(s, id).Some? && RecordOf(t, id).Some?
    && SentOn(s.rollout, s.rollout.nodes[a], t.rollout.nodes[a], RecordOf(s, id).value, RecordOf(t, id).value, now)
  }

  lemma DrainTold(s: System, n: Node, rec: Record, now: Instant)
    ensures var core, r := IsCore(n.id), s.rollout;
      var told := Command(core, rec, "DRAINING")[OperationId := Token(r.operation)];
      && (n.phase.Draining? ==> SentOn(r, n, n, rec, told, now))
      && forall m: Node :: m.id == n.id && m.phase.Updating? ==>
           SentOn(r, n, m, rec, Command(core, told, "UPDATING")[TargetVersion := r.target], now)
  {
    hide IsCore;
  }

  lemma DrainTells(s: System, i: nat, now: Instant)
    requires i < |s.rollout.nodes| && s.rollout.nodes[i].phase.Draining? && RecordOf(s, s.rollout.nodes[i].id).Some?
    ensures var t := Drain(s, i, now, RecordOf(s, s.rollout.nodes[i].id).value);
      |t.rollout.nodes| == |s.rollout.nodes| && ForwardTells(s, t, i, now)
  {
    hide IsCore, IsDrained, Command, SentOn, PutRecord, RecordOf, OthersAlone;
    var r, n := s.rollout, s.rollout.nodes[i];
    var rec := RecordOf(s, n.id).value;
    var told := Command(IsCore(n.id), rec, "DRAINING")[OperationId := Token(r.operation)];
    DrainTold(s, n, rec, now);
    PutTells(s, i, n, s.drawn, told);
    PutTells(s, i, n.(phase := Updating, startedAt := now, previous := Get(told, Version)), s.drawn,
      Command(IsCore(n.id), told, "UPDATING")[TargetVersion := r.target]);
    assert PutNode(s, i, n) == s && s.(drawn := s.drawn) == s;
  }

  lemma UpdateReads(r: Rollout, n: Node, asked: Node, rec: Record, now: Instant)
    requires asked.id == n.id && asked.phase.SelfTesting? && asked.request.Some? && n.phase.Updating?
    ensures SentOn(r, n, n, rec, UpdateTold(IsCore(n.id), rec, r), now)
    ensures SentOn(r, n, asked, rec, TestTold(IsCore(n.id), rec, r, asked.request.value, now), now)
  {
    hide IsCore;
  }

  lemma UpdateTells(s: System, i: nat, now: Instant)
    requires i < |s.rollout.nodes| && s.rollout.nodes[i].phase.Updating? && !Fails(s, s.rollout.nodes[i], now)
    ensures var t := Update(s, i, now, RecordOf(s, s.rollout.nodes[i].id).value);
      |t.rollout.nodes| == |s.rollout.nodes| && ForwardTells(s, t, i, now)
  {
    hide IsCore, Command, SentOn, PutRecord, OthersAlone, Fail;
    var r, n := s.rollout, s.rollout.nodes[i];
    var rec := RecordOf(s, n.id).value;
    var (asked, drawn) := Ensure(n.(phase := SelfTesting, startedAt := now), r.operation, r.target, s.drawn);
    UpdateReads(r, n, asked, rec, now);
    UpdateKeeps(IsCore(n.id), rec, r, asked.request.value, now);
    hide RecordOf, Ensure;
    PutTells(s, i, n, s.drawn, UpdateTold(IsCore(n.id), rec, r));
    PutTells(s, i, asked, drawn, TestTold(IsCore(n.id), rec, r, asked.request.value, now));
    assert PutNode(s, i, n) == s && s.(drawn := s.drawn) == s;
  }

  lemma ReadyReads(r: Rollout, n: Node, asked: Node, rec: Record, now: Instant)
    requires asked.id == n.id && asked.phase.SelfTesting? && asked.request.Some? && n.phase.SelfTesting?
    ensures var noted := rec[TestRequest := Asked(asked.request.value)];
      && SentOn(r, n, asked, rec,
           if Bound(TestOf(rec), asked, r.operation) then noted else noted[TestRequestedAt := Time(now)], now)
      && SentOn(r, n, asked.(phase := Ready), rec, ReadyTold(IsCore(n.id), rec, asked.request.value), now)
  {
    hide IsCore, Bound;
  }

  lemma ExamineTells(s: System, i: nat, now: Instant)
    requires i < |s.rollout.nodes| && s.rollout.nodes[i].phase.SelfTesting? && !Fails(s, s.rollout.nodes[i], now)
    ensures var t := Examine(s, i, now, RecordOf(s, s.rollout.nodes[i].id).value);
      |t.rollout.nodes| == |s.rollout.nodes| && ForwardTells(s, t, i, now)
  {
    hide IsCore, Command, SentOn, PutRecord, PutNode, OthersAlone, Fail, Bound, Passed;
    var r, n := s.rollout, s.rollout.nodes[i];
    var rec := RecordOf(s, n.id).value;
    var (asked, drawn) := Ensure(n, r.operation, r.target, s.drawn);
    ReadyReads(r, n, asked, rec, now);
    hide Ensure;
    var noted := rec[TestRequest := Asked(asked.request.value)];
    PutTells(s, i, asked.(phase := Ready), drawn, ReadyTold(IsCore(n.id), rec, asked.request.value));
    PutTells(s, i, asked, drawn,
      if Bound(TestOf(rec), asked, r.operation) then noted else noted[TestRequestedAt := Time(now)]);
    var done := PutRecord(PutNode(s.(drawn := drawn), i, asked.(phase := Ready)), n.id,
        ReadyTold(IsCore(n.id), rec, asked.request.value));
    PausedAlone(s, done, i);
  }

  /** The canary's pause touches no record. */
  lemma PausedAlone(s: System, done: System, i: nat)
    requires OthersAlone(s, done, i, i + 1)
    ensures OthersAlone(s, SetState(done, AwaitingPromotion), i, i + 1)
    ensures forall id :: RecordOf(SetState(done, AwaitingPromotion), id) == RecordOf(done, id)
  {
    assert forall id :: RecordOf(SetState(done, AwaitingPromotion), id) == RecordOf(done, id);
  }

  lemma AdvanceTells(s: System, i: nat, now: Instant)
    requires i < |s.rollout.nodes| && Active(s.rollout.nodes[i].phase) && !Fails(s, s.rollout.nodes[i], now)
    ensures var t := Advance(s, i, now);
      |t.rollout.nodes| == |s.rollout.nodes| && ForwardTells(s, t, i, now)
  {
    hide Drain, Update, Examine, ForwardTells;
    var n := s.rollout.nodes[i];
    SomeRecord(s, n, now);
    match n.phase
    case Draining => DrainTells(s, i, now);
    case Updating => UpdateTells(s, i, now);
    case SelfTesting => ExamineTells(s, i, now);
  }

  /** The failed node turned around with the rest: told to go back when it, too, rolls back. */
  ghost predicate CollapseTells(s: System, t: System, a: nat, now: Instant) {
    && |t.rollout.nodes| == |s.rollout.nodes| && a < |s.rollout.nodes| && OthersAlone(s, t, 0, |s.rollout.nodes|)
    && (forall j :: 0 <= j < |s.rollout.nodes| && j != a ==> BeginsBack(s, t, j, now))
    && (t.rollout.nodes[a].phase.RollingBack? && RecordOf(s, s.rollout.nodes[a].id).Some? ==>
         && RecordOf(t, s.rollout.nodes[a].id).Some?
         && SentBack(s.rollout.operation, t.rollout.nodes[a], RecordOf(t, s.rollout.nodes[a].id).value)
         && Get(RecordOf(t, s.rollout.nodes[a].id).value, TestRequestedAt) == Time(now))
  }

  /** A failure of node `a` in a state that differs at most in that node and its record. */
  lemma FailTells(s: System, m: System, a: nat, now: Instant)
    requires Wf(m) && a < |s.rollout.nodes| == |m.rollout.nodes| && m.rollout.operation == s.rollout.operation
    requires forall j :: 0 <= j < |s.rollout.nodes| ==> m.rollout.nodes[j].id == s.rollout.nodes[j].id
    requires forall j :: 0 <= j < |s.rollout.nodes| && j != a ==> m.rollout.nodes[j] == s.rollout.nodes[j]
    requires OthersAlone(s, m, a, a + 1)
    requires RecordOf(s, s.rollout.nodes[a].id).Some? ==> RecordOf(m, s.rollout.nodes[a].id).Some?
    ensures CollapseTells(s, Fail(m, a, now), a, now)
  {
    hide Begin, Wf, SentBack, OnlyCommands;
    var u := PutNode(m, a, m.rollout.nodes[a].(phase := Failed));
    PutNodeKeeps(m, a, m.rollout.nodes[a].(phase := Failed), m.drawn);
    assert u.(drawn := m.drawn) == u;
    BeginTells(u, now);
    var t := Begin(u, now);
    forall id ensures RecordOf(u, id) == RecordOf(m, id) {}
    hide RecordOf;
    AloneThrough(s, m, u, t, a);
    forall j | 0 <= j < |s.rollout.nodes| && j != a ensures BeginsBack(s, t, j, now) {
      assert BeginsBack(u, t, j, now);
      DistinctIds(m, j, a);
    }
    assert BeginsBack(u, t, a, now);
  }

  lemma DistinctIds(s: System, i: nat, j: nat)
    requires Wf(s) && i < |s.rollout.nodes| && j < |s.rollout.nodes| && i != j
    ensures s.rollout.nodes[i].id != s.rollout.nodes[j].id
  {}

  lemma AloneThrough(s: System, m: System, u: System, t: System, a: nat)
    requires a < |s.rollout.nodes| == |u.rollout.nodes|
    requires forall j :: 0 <= j < |s.rollout.nodes| ==> u.rollout.nodes[j].id == s.rollout.nodes[j].id
    requires OthersAlone(s, m, a, a + 1) && OthersAlone(u, t, 0, |s.rollout.nodes|)
    requires forall id :: RecordOf(u, id) == RecordOf(m, id)
    ensures OthersAlone(s, t, 0, |s.rollout.nodes|)
  {
    hide RecordOf;
  }

  lemma AdvanceFailTells(s: System, i: nat, now: Instant)
    requires Wf(s) && i < |s.rollout.nodes| && Active(s.rollout.nodes[i].phase) && Fails(s, s.rollout.nodes[i], now)
    ensures CollapseTells(s, Advance(s, i, now), i, now)
  {
    hide Wf, Fail, CollapseTells, IsCore;
    var n := s.rollout.nodes[i];
    if n.phase.Updating? && RecordOf(s, n.id).Some? && !TimedOut(n, s.rollout.timeout, now) {
      var told := UpdateTold(IsCore(n.id), RecordOf(s, n.id).value, s.rollout);
      var m := PutRecord(s, n.id, told);
      ErrorKept(s, i, now);
      assert Advance(s, i, now) == Fail(m, i, now);
      UpdateKeeps(IsCore(n.id), RecordOf(s, n.id).value, s.rollout, Request(0, 0, Null), now);
      ToldMeaning(s, i, told);
      forall id | id != n.id ensures RecordOf(m, id) == RecordOf(s, id) {}
      FailTells(s, m, i, now);
    } else {
      FailTells(s, s, i, now);
    }
  }

  lemma ErrorKept(s: System, i: nat, now: Instant)
    requires i < |s.rollout.nodes| && s.rollout.nodes[i].phase.Updating? && Fails(s, s.rollout.nodes[i], now)
    requires RecordOf(s, s.rollout.nodes[i].id).Some? && !TimedOut(s.rollout.nodes[i], s.rollout.timeout, now)
    ensures var n := s.rollout.nodes[i];
      && !IsCore(n.id)
      && Get(UpdateTold(IsCore(n.id), RecordOf(s, n.id).value, s.rollout), Status) == Text("ERROR")
  {}

  /**
   Every reconcile of a running rollout: the node it works on is told exactly what its new phase
   calls for, or, when it fails, the nodes that roll back are told so; no other record is touched.
   */
  lemma RunActiveTells(s: System, now: Instant) returns (a: nat)
    requires Inv(s) && s.rollout.state.Running? && !AllReady(s.rollout.nodes)
    ensures var t := RunActive(s, now);
      && a < |s.rollout.nodes| == |t.rollout.nodes| && Splits(s.rollout.nodes, a)
      && if Fails(s, Opened(s.rollout.nodes[a], now), now) then CollapseTells(s, t, a, now)
         else
           && OthersAlone(s, t, a, a + 1)
           && RecordOf(s, s.rollout.nodes[a].id).Some? && RecordOf(t, s.rollout.nodes[a].id).Some?
           && SentOn(s.rollout, Opened(s.rollout.nodes[a], now), t.rollout.nodes[a],
                RecordOf(s, s.rollout.nodes[a].id).value, RecordOf(t, s.rollout.nodes[a].id).value, now)
  {
    hide Wf, Advance, Fails, CollapseTells, SentOn, OthersAlone, RecordOf;
    var nodes := s.rollout.nodes;
    assert forall i :: 0 <= i < |nodes| ==> Allowed(Running, nodes[i].phase);
    a := FirstActive(nodes, 0);
    if a < |nodes| {
      ActiveSplits(nodes, a);
      if Fails(s, nodes[a], now) { AdvanceFailTells(s, a, now); CollapseLength(s, Advance(s, a, now), a, now); }
      else { AdvanceTells(s, a, now); }
    } else {
      a := FirstPending(nodes, 0);
      ActiveSplits(nodes, a);
      PendingTells(s, a, now);
    }
  }

  lemma CollapseLength(s: System, t: System, a: nat, now: Instant)
    requires CollapseTells(s, t, a, now)
    ensures |t.rollout.nodes| == |s.rollout.nodes|
  {}

  lemma PendingTells(s: System, p: nat, now: Instant)
    requires Wf(s) && p < |s.rollout.nodes| && s.rollout.nodes[p].phase.Pending?
    ensures var n := Opened(s.rollout.nodes[p], now);
      var t := Advance(PutNode(s, p, n), p, now);
      && |t.rollout.nodes| == |s.rollout.nodes|
      && if Fails(s, n, now) then CollapseTells(s, t, p, now)
         else
           && OthersAlone(s, t, p, p + 1) && RecordOf(s, n.id).Some? && RecordOf(t, n.id).Some?
           && SentOn(s.rollout, n, t.rollout.nodes[p], RecordOf(s, n.id).value, RecordOf(t, n.id).value, now)
  {
    hide Wf, Advance, Fails, SentOn, SentBack, OnlyCommands;
    var n := Opened(s.rollout.nodes[p], now);
    var m := PutNode(s, p, n);
    PutNodeKeeps(s, p, n, s.drawn);
    assert m.(drawn := s.drawn) == m;
    SameFailure(s, p, n, now);
    forall id ensures RecordOf(m, id) == RecordOf(s, id) {}
    if Fails(m, n, now) {
      AdvanceFailTells(m, p, now);
      hide RecordOf;
      var t := Advance(m, p, now);
      AloneThrough(s, s, m, t, p);
      forall j | 0 <= j < |s.rollout.nodes| && j != p ensures BeginsBack(s, t, j, now) {
        assert BeginsBack(m, t, j, now);
      }
    } else {
      AdvanceTells(m, p, now);
      SentOnAlike(s.rollout, m.rollout);
    }
  }

  lemma SentOnAlike(r: Rollout, q: Rollout)
    requires r.operation == q.operation && r.target == q.target
    ensures forall n, m, was, rec, now :: SentOn(r, n, m, was, rec, now) == SentOn(q, n, m, was, rec, now)
  {}

  // ------------------------------------------------------------------ reports and cancellation

  /**
   A CORE agent's report, by fields: it is refused exactly when the node is no CORE of this rollout,
   or the cancelled rollout's fence holds and neither the record nor the report acknowledges it.
   Refused, it changes nothing; taken, it writes its own fields and the time, and keeps the others.
   */
  lemma ReportMeaning(s: System, id: string, changes: Record, now: Instant)
    ensures var t := Step(s, Report(id, changes, now));
      var r, was := s.rollout, Coordinator(s.rollout, id);
      var ack := if Get(changes, FenceAck).Ack? && Truthy(Get(changes, FenceAck).fence) then Get(changes, FenceAck)
                 else Get(was, FenceAck);
      var fenced := r.state.Aborted? && r.fence.Some? && ack != Ack(Token(r.fence.value), Token(r.operation))
        && (Get(was, OperationId) == Token(r.operation) || Get(was, CancelledOperation) == Token(r.operation)
            || Get(was, FenceToken) == Token(r.fence.value));
      if !IsCore(id) || (forall i :: 0 <= i < |r.nodes| ==> r.nodes[i].id != id) || fenced then t == s
      else
        && t == s.(rollout := r.(coordinators := t.rollout.coordinators))
        && (forall x :: x != id ==> Coordinator(t.rollout, x) == Coordinator(r, x))
        && forall f: Field :: Get(Coordinator(t.rollout, id), f) ==
             if f == UpdatedAt then Time(now) else if f in changes then changes[f] else Get(was, f)
  {
    hide IsCore, Fenced, WithAck, Truthy, Coordinator;
    var r, was := s.rollout, Coordinator(s.rollout, id);
    FencedAfterAck(r, was, changes);
    if IsCore(id) && Has(r, id) && !Fenced(WithAck(was, changes), r) {
      MergedFields(was, changes, now);
      OneCoordinator(r, id, (WithAck(was, changes) + changes)[UpdatedAt := Time(now)]);
    } else if !Has(r, id) {
      assert forall i :: 0 <= i < |r.nodes| ==> r.nodes[i].id != id;
    }
  }

  lemma FencedAfterAck(r: Rollout, was: Record, changes: Record)
    ensures var ack := if Get(changes, FenceAck).Ack? && Truthy(Get(changes, FenceAck).fence)
        then Get(changes, FenceAck) else Get(was, FenceAck);
      Fenced(WithAck(was, changes), r) <==>
        && r.state.Aborted? && r.fence.Some? && ack != Ack(Token(r.fence.value), Token(r.operation))
        && (Get(was, OperationId) == Token(r.operation) || Get(was, CancelledOperation) == Token(r.operation)
            || Get(was, FenceToken) == Token(r.fence.value))
  {
    hide Truthy;
  }

  lemma MergedFields(was: Record, changes: Record, now: Instant)
    ensures var rec := (WithAck(was, changes) + changes)[UpdatedAt := Time(now)];
      forall f: Field :: Get(rec, f) == MergedField(was, changes, now, f)
  {
    hide Truthy;
    var rec := (WithAck(was, changes) + changes)[UpdatedAt := Time(now)];
    forall f: Field ensures Get(rec, f) == MergedField(was, changes, now, f) {
      if f.FenceAck? && f !in changes { assert !Get(changes, FenceAck).Ack?; }
    }
  }

  function MergedField(was: Record, changes: Record, now: Instant, f: Field): Value {
    if f == UpdatedAt then Time(now) else if f in changes then changes[f] else Get(was, f)
  }

  lemma OneCoordinator(r: Rollout, id: string, rec: Record)
    ensures var q := r.(coordinators := r.coordinators[id := rec]);
      Coordinator(q, id) == rec && forall x :: x != id ==> Coordinator(q, x) == Coordinator(r, x)
  {}

  /**
   A cancel, by nodes: nodes that are ready, failed or rolled back stay, every other is cancelled;
   no record is touched, and the fence is a token never used before.
   */
  lemma CancelMeaning(s: System)
    requires Ongoing(s.rollout.state)
    ensures var t := Step(s, Cancellation);
      && t.rollout.state.Aborted? && t.rollout.fence == Some(s.drawn) && t.drawn == s.drawn + 1
      && (forall id :: RecordOf(t, id) == RecordOf(s, id))
      && |t.rollout.nodes| == |s.rollout.nodes|
      && forall i :: 0 <= i < |s.rollout.nodes| ==>
           var n := s.rollout.nodes[i];
           t.rollout.nodes[i] ==
             if n.phase == Ready || n.phase == Failed || n.phase == RolledBack then n else n.(phase := Cancelled)
  {
    var t := Step(s, Cancellation);
    forall id ensures RecordOf(t, id) == RecordOf(s, id) {}
  }

  /**
   A launch is taken exactly when the target has 1 to 64 characters, the timeout is 60 to 86400
   seconds, some node is asked for and no rollout goes on; it starts each requested node once, all
   PENDING, with nothing to go back to, under a token never used before.
   */
  lemma LaunchMeaning(s: System, target: string, ids: seq<string>, order: Order, timeout: int, canary: bool,
      now: Instant)
    ensures var t := Step(s, Launch(target, ids, order, timeout, canary, now));
      if 1 <= |target| <= 64 && 60 <= timeout <= 86400 && ids != [] && !Ongoing(s.rollout.state) then
        && t.workers == s.workers && t.drawn == s.drawn + 1
        && t.rollout.operation == s.drawn && t.rollout.state.Running? && t.rollout.target == Text(target)
        && t.rollout.timeout == timeout && t.rollout.promoted == !canary
        && t.rollout.coordinators == map[] && t.rollout.fence.None?
        && (forall x :: x in ids <==> exists i :: 0 <= i < |t.rollout.nodes| && t.rollout.nodes[i].id == x)
        && (forall i, j :: 0 <= i < j < |t.rollout.nodes| ==> t.rollout.nodes[i].id != t.rollout.nodes[j].id)
        && forall i :: 0 <= i < |t.rollout.nodes| ==>
             var n := t.rollout.nodes[i];
             && n.phase.Pending? && n.canary == (canary && i == 0) && n.previous == Null && n.request.None?
             && n.startedAt == now
      else t == s
  {
    hide OrderedNodes, Ongoing;
    OrderedNodesMeaning(ids, order);
    var r := OrderedNodes(ids, order);
    assert r == [] <==> ids == [] by {
      if ids != [] { assert ids[0] in r; }
      if r != [] { assert r[0] in ids; }
    }
    var nodes := FreshNodes(r, canary, now);
    forall x ensures x in ids <==> exists i :: 0 <= i < |nodes| && nodes[i].id == x {
      if x in ids {
        var i :| 0 <= i < |r| && r[i] == x;
        assert nodes[i].id == x;
      }
      if i :| 0 <= i < |nodes| && nodes[i].id == x {
        assert r[i] == x;
      }
    }
  }

  // ------------------------------------------------------------------ names and cleaning

  /** CORE nodes are `core` itself and every name that begins with `core-`. */
  lemma CoreNames(id: string)
    ensures IsCore(id) <==> id == "core" || (|id| >= 5 && id[..5] == "core-")
  {
    if |id| >= 5 && id[..5] == "core-" { assert id == "core-" + id[5..]; }
  }

  /**
   A reconcile after a cancel clears the workers of cancelled nodes: no command is left on them, a
   self-test request time only if no command was, and the fence and operation are stamped on; what
   else they hold stays, and so does every other worker. Before a cancel nothing is cleared.
   */
  lemma CleanupMeaning(s: System, id: string)
    requires Inv(s) && id in s.workers
    ensures var t := Cleanup(s);
      && t.workers.Keys == s.workers.Keys
      && if s.rollout.state.Aborted?
            && exists i ::
                 0 <= i < |s.rollout.nodes| && s.rollout.nodes[i].id == id && s.rollout.nodes[i].phase.Cancelled?
         then CleanedOf(s.workers[id], t.workers[id], s.rollout)
         else t.workers[id] == s.workers[id]
  {
    hide Wf, Cleaned;
    CleanedFields(s.workers[id], s.rollout);
  }

  ghost predicate CleanedOf(was: Record, rec: Record, r: Rollout) {
    var commanded := Get(was, DesiredState) != Null || Get(was, TargetVersion) != Null
                  || Get(was, OperationId) != Null || Get(was, RollbackTarget) != Null;
    && Get(rec, DesiredState) == Get(rec, TargetVersion) == Get(rec, OperationId) == Get(rec, RollbackTarget) == Null
    && Get(rec, TestRequestedAt) == (if commanded then Null else Get(was, TestRequestedAt))
    && (r.fence.Some? ==>
         Get(rec, FenceToken) == Token(r.fence.value) && Get(rec, CancelledOperation) == Token(r.operation))
    && forall f: Field :: Unrelated(f) ==> Get(rec, f) == Get(was, f)
  }

  predicate Unrelated(f: Field) {
    f.Version? || f.Status? || f.CurrentTask? || f.Drained? || f.Test? || f.CoordinatorState? || f.TestRequest?
    || f.FenceAck? || f.UpdatedAt?
  }

  lemma CleanedFields(rec: Record, r: Rollout)
    ensures CleanedOf(rec, Cleaned(rec, r), r)
  {}
}
