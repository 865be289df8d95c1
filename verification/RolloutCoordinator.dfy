/**
 The coordinator as the source writes it: records rewritten in place, with separate code for
 CORE coordinators and workers. Every method is one step of the state machine.
 */
module RolloutCoordinator {
  import opened Common
  import opened TextOrder
  import opened Timestamps
  import opened RolloutModel
  import opened RolloutProofs

  class RolloutStore {
    var rollout: Rollout
    var workers: map<string, Record>
    var drawn: nat

    function Now(): System
      reads this
    {
      System(rollout, workers, drawn)
    }

    constructor ()
      ensures rollout.state.Idle? && rollout.nodes == []
    {
      rollout := Rollout(0, Idle, Null, 600, true, [], map[], None);
      workers, drawn := map[], 0;
    }

    method StartRollout(target: string, ids: seq<string>, order: Order, timeout: int, canary: bool, now: Instant)
        returns (ok: bool)
      modifies this
      ensures Now() == Step(old(Now()), Launch(target, ids, order, timeout, canary, now))
      ensures ok <==> Now() != old(Now())
    {
      if target == "" || |target| > 64 { return false; }
      if timeout < 60 || timeout > 86400 { return false; }
      var ordered := OrderedNodes(ids, order);
      if ordered == [] { return false; }
      if Ongoing(rollout.state) { return false; }
      rollout := Rollout(drawn, Running, Text(target), timeout, !canary, FreshNodes(ordered, canary, now), map[], None);
      drawn := drawn + 1;
      return true;
    }

    method PromoteRollout() returns (ok: bool)
      modifies this
      ensures Now() == Step(old(Now()), Promotion)
      ensures ok == old(rollout.state.AwaitingPromotion?)
    {
      if !rollout.state.AwaitingPromotion? { return false; }
      rollout := rollout.(state := Running, promoted := true);
      return true;
    }

    method CancelRollout()
      modifies this
      ensures Now() == Step(old(Now()), Cancellation)
    {
      if Ongoing(rollout.state) {
        var before := rollout.nodes;
        var i := 0;
        while i < |rollout.nodes|
          invariant i <= |rollout.nodes| == |before|
          invariant rollout == old(rollout).(nodes := rollout.nodes) && workers == old(workers) && drawn == old(drawn)
          invariant forall k :: 0 <= k < |before| ==>
            rollout.nodes[k] == if k < i then CancelNode(before[k]) else before[k]
        {
          var node := rollout.nodes[i];
          if !node.phase.Ready? && !node.phase.Failed? && !node.phase.RolledBack? {
            rollout := rollout.(nodes := rollout.nodes[i := node.(phase := Cancelled)]);
          }
          i := i + 1;
        }
        rollout := rollout.(state := Aborted, fence := Some(drawn));
        drawn := drawn + 1;
        assert rollout.nodes == Cancel(old(Now())).rollout.nodes;
      }
    }

    method UpdateCoreCoordinator(id: string, changes: Record, now: Instant) returns (ok: bool)
      modifies this
      ensures Now() == Step(old(Now()), Report(id, changes, now))
      ensures ok <==> old(IsCore(id) && Has(rollout, id) &&
        !Fenced(WithAck(Coordinator(rollout, id), changes), rollout))
    {
      if !IsCore(id) { return false; }
      var k := 0;
      while k < |rollout.nodes| && rollout.nodes[k].id != id
        invariant k <= |rollout.nodes|
        invariant forall j :: 0 <= j < k ==> rollout.nodes[j].id != id
      {
        k := k + 1;
      }
      if k == |rollout.nodes| { return false; }
      var coordinator := Coordinator(rollout, id);
      var ack := Get(changes, FenceAck);
      if ack.Ack? && Truthy(ack.fence) {
        coordinator := coordinator[FenceAck := ack];
      }
      if Fenced(coordinator, rollout) { return false; }
      coordinator := coordinator + changes;
      coordinator := coordinator[UpdatedAt := Time(now)];
      rollout := rollout.(coordinators := rollout.coordinators[id := coordinator]);
      return true;
    }

    /** `_ensure_self_test_request`: the node and its record after the request is in place. */
    method EnsureRequest(node: Node, target: Value, record: Record) returns (asked: Node, told: Record)
      modifies this`drawn
      ensures (asked, drawn) == Ensure(node, rollout.operation, target, old(drawn))
      ensures told == record[TestRequest := Asked(asked.request.value)]
    {
      var request := node.request;
      if request.Some? && request.value.operation == rollout.operation && request.value.target == target {
        return node, record[TestRequest := Asked(request.value)];
      }
      var issued := Request(drawn, rollout.operation, target);
      drawn := drawn + 1;
      return node.(request := Some(issued)), record[TestRequest := Asked(issued)];
    }

    method SetNode(i: nat, node: Node)
      requires i < |rollout.nodes|
      modifies this`rollout
      ensures rollout == old(rollout).(nodes := old(rollout).nodes[i := node])
      ensures node == old(rollout).nodes[i] ==> rollout == old(rollout)
    {
      rollout := rollout.(nodes := rollout.nodes[i := node]);
      assert node == old(rollout).nodes[i] ==> rollout.nodes == old(rollout).nodes;
    }

    method BeginRollback(now: Instant)
      modifies this
      ensures Now() == Begin(old(Now()), now)
    {
      hide BeginNode;
      rollout := rollout.(state := Reverting);
      ghost var start := Now();
      var i := 0;
      while i < |rollout.nodes|
        invariant i <= |rollout.nodes|
        invariant BeginNodes(Now(), i, now) == BeginNodes(start, 0, now)
      {
        BeginRollbackOf(i, now);
        i := i + 1;
      }
      var any := false;
      var k := 0;
      while k < |rollout.nodes|
        invariant k <= |rollout.nodes|
        invariant any <==> exists j :: 0 <= j < k && rollout.nodes[j].phase == RollingBack
      {
        if rollout.nodes[k].phase == RollingBack { any := true; }
        k := k + 1;
      }
      if !any { rollout := rollout.(state := Defeated); }
    }

    /** The body of the loop of `_begin_rollback`. */
    method BeginRollbackOf(i: nat, now: Instant)
      requires i < |rollout.nodes|
      modifies this
      ensures Now() == BeginNode(old(Now()), i, now)
      ensures |rollout.nodes| == old(|rollout.nodes|)
    {
      hide RollbackCommand, Ensure;
      var node := rollout.nodes[i];
      var updated := node.phase.Ready? || node.phase.SelfTesting?
        || (node.id in workers && Get(workers[node.id], Version) == rollout.target);
      if updated {
        node := node.(phase := RollingBack, startedAt := now);
        if IsCore(node.id) {
          var coordinator;
          node, coordinator := AskRollback(node, Coordinator(rollout, node.id), true, now);
          rollout := rollout.(coordinators := rollout.coordinators[node.id := coordinator]);
        } else if node.id in workers {
          var worker;
          node, worker := AskRollback(node, workers[node.id], false, now);
          workers := workers[node.id := worker];
        }
        SetNode(i, node);
      } else if !node.phase.Failed? && !node.phase.Cancelled? {
        SetNode(i, node.(phase := Cancelled));
      }
    }

    /** The request and the commands a rolling-back node's record receives. */
    method AskRollback(node: Node, record: Record, core: bool, now: Instant) returns (asked: Node, told: Record)
      modifies this`drawn
      ensures (asked, drawn) == Ensure(node, rollout.operation, node.previous, old(drawn))
      ensures told == RollbackCommand(core, record, asked, rollout.operation)[TestRequestedAt := Time(now)]
    {
      asked, told := EnsureRequest(node, node.previous, record);
      told := told[(if core then CoordinatorState else DesiredState) := Text("ROLLBACK")]
        [RollbackTarget := node.previous][OperationId := Token(rollout.operation)][TestRequestedAt := Time(now)];
      assert told == RollbackCommand(core, record, asked, rollout.operation)[TestRequestedAt := Time(now)];
    }

    method RollbackReadyNodes(now: Instant)
      modifies this
      ensures Now() == Step(old(Now()), Rollback(now))
    {
      if Ongoing(rollout.state) { BeginRollback(now); }
    }

    method FailNode(i: nat, now: Instant)
      requires i < |rollout.nodes|
      modifies this
      ensures Now() == Fail(old(Now()), i, now)
    {
      SetNode(i, rollout.nodes[i].(phase := Failed));
      BeginRollback(now);
    }

    /** One cancelled worker's commands are cleared, and the fence is stamped on it. */
    method CleanWorker(record: Record) returns (worker: Record)
      ensures worker == Cleaned(record, rollout)
    {
      worker := record;
      var dirty := !Get(worker, DesiredState).Null? || !Get(worker, TargetVersion).Null?
        || !Get(worker, OperationId).Null? || !Get(worker, RollbackTarget).Null?;
      worker := worker - {DesiredState, TargetVersion, OperationId, RollbackTarget};
      if dirty { worker := worker - {TestRequestedAt}; }
      if rollout.fence.Some? {
        worker := worker[FenceToken := Token(rollout.fence.value)];
        worker := worker[CancelledOperation := Token(rollout.operation)];
      }
    }

    method CleanupCancelledWorkers()
      modifies this`workers
      ensures Now() == Cleanup(old(Now()))
    {
      hide Cleaned;
      if !rollout.state.Aborted? { return; }
      var i := 0;
      while i < |rollout.nodes|
        invariant i <= |rollout.nodes|
        invariant workers.Keys == old(workers).Keys
        invariant forall id :: id in workers ==>
          workers[id] == if CancelledBefore(rollout.nodes, i, id) then Cleaned(old(workers)[id], rollout)
              else old(workers)[id]
      {
        var node := rollout.nodes[i];
        if node.phase == Cancelled && node.id in workers && !CancelledBefore(rollout.nodes, i, node.id) {
          var worker := CleanWorker(workers[node.id]);
          workers := workers[node.id := worker];
        }
        i := i + 1;
      }
      assert workers == Cleanup(old(Now())).workers;
    }

    /** A CORE node in the rolling-back loop of `reconcile_rollout`; true means the loop returns. */
    method RevertCore(i: nat, now: Instant) returns (stop: bool)
      requires i < |rollout.nodes| && rollout.nodes[i].phase.RollingBack? && IsCore(rollout.nodes[i].id)
      modifies this
      ensures (Now(), stop) == RevertNode(old(Now()), i, now)
    {
      var node := rollout.nodes[i];
      if TimedOut(node, rollout.timeout, now) {
        SetNode(i, node.(phase := RollbackFailed));
        rollout := rollout.(state := RevertFailed);
        return true;
      }
      var coordinator := Coordinator(rollout, node.id);
      coordinator := coordinator[CoordinatorState := Text("ROLLBACK")][RollbackTarget := node.previous]
        [OperationId := Token(rollout.operation)];
      node, coordinator := EnsureRequest(node, node.previous, coordinator);
      assert coordinator == RollbackCommand(true, Coordinator(rollout, node.id), node, rollout.operation);
      if Confirmed(coordinator, node, rollout.operation) {
        node := node.(phase := RolledBack);
        coordinator := coordinator[CoordinatorState := Text("ROLLED_BACK")] - {TestRequestedAt};
      } else if !Bound(TestOf(coordinator), node, rollout.operation) {
        coordinator := coordinator[TestRequestedAt := Time(now)];
      }
      SetNode(i, node);
      rollout := rollout.(coordinators := rollout.coordinators[node.id := coordinator]);
      return false;
    }

    /** The same for a worker node. */
    method RevertWorker(i: nat, now: Instant) returns (stop: bool)
      requires i < |rollout.nodes| && rollout.nodes[i].phase.RollingBack? && !IsCore(rollout.nodes[i].id)
      modifies this
      ensures (Now(), stop) == RevertNode(old(Now()), i, now)
    {
      var node := rollout.nodes[i];
      if node.id !in workers || TimedOut(node, rollout.timeout, now) {
        SetNode(i, node.(phase := RollbackFailed));
        rollout := rollout.(state := RevertFailed);
        return true;
      }
      var worker := workers[node.id];
      worker := worker[DesiredState := Text("ROLLBACK")][RollbackTarget := node.previous]
        [OperationId := Token(rollout.operation)];
      node, worker := EnsureRequest(node, node.previous, worker);
      assert worker == RollbackCommand(false, workers[node.id], node, rollout.operation);
      if Confirmed(worker, node, rollout.operation) {
        node := node.(phase := RolledBack);
        worker := worker - {DesiredState, RollbackTarget, TestRequestedAt};
      } else if !Bound(TestOf(worker), node, rollout.operation) {
        worker := worker[TestRequestedAt := Time(now)];
      }
      SetNode(i, node);
      workers := workers[node.id := worker];
      return false;
    }

    method ReconcileRollback(now: Instant)
      modifies this
      ensures Now() == RevertNodes(old(Now()), 0, now)
    {
      hide RevertNode;
      var i := 0;
      while i < |rollout.nodes|
        invariant i <= |rollout.nodes|
        invariant RevertNodes(Now(), i, now) == RevertNodes(old(Now()), 0, now)
      {
        var stop := false;
        RevertNodeLength(Now(), i, now);
        if rollout.nodes[i].phase.RollingBack? {
          if IsCore(rollout.nodes[i].id) { stop := RevertCore(i, now); } else { stop := RevertWorker(i, now); }
        }
        if stop { return; }
        i := i + 1;
      }
      var any := false;
      var k := 0;
      while k < |rollout.nodes|
        invariant k <= |rollout.nodes|
        invariant any <==> exists j :: 0 <= j < k && rollout.nodes[j].phase == RollingBack
      {
        if rollout.nodes[k].phase == RollingBack { any := true; }
        k := k + 1;
      }
      if !any { rollout := rollout.(state := Reverted); }
    }

    /** The node and its record after a step of its phase. */
    method SetCore(i: nat, node: Node, coordinator: Record)
      requires i < |rollout.nodes|
      modifies this`rollout
      ensures rollout == old(rollout).(nodes := old(rollout).nodes[i := node],
                                       coordinators := old(rollout).coordinators[node.id := coordinator])
    {
      rollout := rollout.(nodes := rollout.nodes[i := node]);
      rollout := rollout.(coordinators := rollout.coordinators[node.id := coordinator]);
    }

    method DrainCore(i: nat, now: Instant)
      requires i < |rollout.nodes| && IsCore(rollout.nodes[i].id)
      modifies this`rollout
      ensures Now() == Drain(old(Now()), i, now, Coordinator(old(rollout), old(rollout).nodes[i].id))
    {
      hide IsCore;
      var node := rollout.nodes[i];
      var coordinator := Coordinator(rollout, node.id);
      coordinator := coordinator[CoordinatorState := Text("DRAINING")][OperationId := Token(rollout.operation)];
      if Truthy(Get(coordinator, Drained)) {
        node := node.(phase := Updating, startedAt := now, previous := Get(coordinator, Version));
        coordinator := coordinator[CoordinatorState := Text("UPDATING")][TargetVersion := rollout.target];
      }
      SetCore(i, node, coordinator);
      assert node == old(rollout).nodes[i] ==> rollout.nodes == old(rollout).nodes;
    }

    method UpdateCore(i: nat, now: Instant)
      requires i < |rollout.nodes| && IsCore(rollout.nodes[i].id)
      modifies this`rollout, this`drawn
      ensures Now() == Update(old(Now()), i, now, Coordinator(old(rollout), old(rollout).nodes[i].id))
    {
      hide Fail, Ensure, IsCore;
      var node := rollout.nodes[i];
      var coordinator := Coordinator(rollout, node.id);
      coordinator := coordinator[CoordinatorState := Text("UPDATING")][OperationId := Token(rollout.operation)]
        [TargetVersion := rollout.target];
      ghost var told := coordinator;
      assert told == Command(true, Coordinator(rollout, node.id), "UPDATING")[TargetVersion := rollout.target]
        [OperationId := Token(rollout.operation)];
      if Get(coordinator, Version) == rollout.target {
        node := node.(phase := SelfTesting, startedAt := now);
        node, coordinator := EnsureRequest(node, rollout.target, coordinator);
        coordinator := coordinator[CoordinatorState := Text("SELF_TESTING")][TestRequestedAt := Time(now)];
        assert coordinator == Command(true, told, "SELF_TESTING")[TestRequestedAt := Time(now)]
          [TestRequest := Asked(node.request.value)];
      }
      SetCore(i, node, coordinator);
      assert node == old(rollout).nodes[i] ==> rollout.nodes == old(rollout).nodes;
    }

    method ExamineCore(i: nat, now: Instant)
      requires i < |rollout.nodes| && IsCore(rollout.nodes[i].id)
      modifies this
      ensures Now() == Examine(old(Now()), i, now, Coordinator(old(rollout), old(rollout).nodes[i].id))
    {
      hide Fail, Ensure, IsCore, Bound, NotBefore;
      var node := rollout.nodes[i];
      var coordinator := Coordinator(rollout, node.id);
      var test := TestOf(coordinator);
      if test.status == Text("FAILED") { FailNode(i, now); return; }
      node, coordinator := EnsureRequest(node, rollout.target, coordinator);
      var bound := Bound(test, node, rollout.operation);
      if !bound { coordinator := coordinator[TestRequestedAt := Time(now)]; }
      if bound && test.status == Text("PASSED") && Get(coordinator, Version) == rollout.target
        && NotBefore(test.checkedAt, node.startedAt)
      {
        node := node.(phase := Ready);
        coordinator := coordinator[CoordinatorState := Text("READY")] - {TestRequestedAt};
        if node.canary && !rollout.promoted { rollout := rollout.(state := AwaitingPromotion); }
      }
      SetCore(i, node, coordinator);
    }

    /** `_reconcile_core_active` */
    method ReconcileCoreActive(i: nat, now: Instant)
      requires i < |rollout.nodes| && Active(rollout.nodes[i].phase) && IsCore(rollout.nodes[i].id)
      modifies this
      ensures Now() == Advance(old(Now()), i, now)
      ensures Wf(old(Now())) ==> AdvancesAsItMust(old(Now()), Now(), i, now)
    {
      hide Fail, IsCore, TimedOut, Drain, Update, Examine, Wf, AdvancesAsItMust;
      if Wf(Now()) { AdvanceAsItMust(Now(), i, now); }
      var node := rollout.nodes[i];
      if TimedOut(node, rollout.timeout, now) { FailNode(i, now); return; }
      if node.phase.Draining? {
        DrainCore(i, now);
      } else if node.phase.Updating? {
        UpdateCore(i, now);
      } else {
        ExamineCore(i, now);
      }
    }

    method DrainWorker(i: nat, now: Instant)
      requires i < |rollout.nodes| && !IsCore(rollout.nodes[i].id) && rollout.nodes[i].id in workers
      modifies this`rollout, this`workers
      ensures Now() == Drain(old(Now()), i, now, old(workers)[old(rollout).nodes[i].id])
    {
      hide IsCore;
      var node := rollout.nodes[i];
      var worker := workers[node.id];
      worker := worker[DesiredState := Text("DRAINING")][OperationId := Token(rollout.operation)];
      if !Truthy(Get(worker, CurrentTask)) && Get(worker, Status) != Text("BUSY") {
        node := node.(phase := Updating, startedAt := now, previous := Get(worker, Version));
        worker := worker[DesiredState := Text("UPDATING")][TargetVersion := rollout.target];
      }
      SetNode(i, node);
      workers := workers[node.id := worker];
    }

    method UpdateWorker(i: nat, now: Instant)
      requires i < |rollout.nodes| && !IsCore(rollout.nodes[i].id) && rollout.nodes[i].id in workers
      modifies this
      ensures Now() == Update(old(Now()), i, now, old(workers)[old(rollout).nodes[i].id])
    {
      hide Fail, Ensure, IsCore;
      var node := rollout.nodes[i];
      var worker := workers[node.id];
      worker := worker[DesiredState := Text("UPDATING")][TargetVersion := rollout.target]
        [OperationId := Token(rollout.operation)];
      if Get(worker, Status) == Text("ERROR") {
        workers := workers[node.id := worker];
        FailNode(i, now);
        return;
      }
      if Get(worker, Version) == rollout.target {
        ghost var told := worker;
        node := node.(phase := SelfTesting, startedAt := now);
        node, worker := EnsureRequest(node, rollout.target, worker);
        worker := worker[DesiredState := Text("SELF_TESTING")][TestRequestedAt := Time(now)];
        assert worker == Command(false, told, "SELF_TESTING")[TestRequestedAt := Time(now)]
          [TestRequest := Asked(node.request.value)];
      }
      SetNode(i, node);
      workers := workers[node.id := worker];
    }

    method ExamineWorker(i: nat, now: Instant)
      requires i < |rollout.nodes| && !IsCore(rollout.nodes[i].id) && rollout.nodes[i].id in workers
      modifies this
      ensures Now() == Examine(old(Now()), i, now, old(workers)[old(rollout).nodes[i].id])
    {
      hide Fail, Ensure, IsCore, Bound, NotBefore;
      var node := rollout.nodes[i];
      var worker := workers[node.id];
      var test := TestOf(worker);
      if test.status == Text("FAILED") { FailNode(i, now); return; }
      node, worker := EnsureRequest(node, rollout.target, worker);
      var bound := Bound(test, node, rollout.operation);
      if !bound { worker := worker[TestRequestedAt := Time(now)]; }
      if bound && test.status == Text("PASSED") && Get(worker, Version) == rollout.target
        && NotBefore(test.checkedAt, node.startedAt)
      {
        node := node.(phase := Ready);
        worker := worker - {DesiredState, TargetVersion, TestRequestedAt};
        if node.canary && !rollout.promoted { rollout := rollout.(state := AwaitingPromotion); }
      }
      SetNode(i, node);
      workers := workers[node.id := worker];
    }

    /** The worker part of `reconcile_rollout` after an active node has been chosen. */
    method ReconcileWorkerActive(i: nat, now: Instant)
      requires i < |rollout.nodes| && Active(rollout.nodes[i].phase) && !IsCore(rollout.nodes[i].id)
      modifies this
      ensures Now() == Advance(old(Now()), i, now)
      ensures Wf(old(Now())) ==> AdvancesAsItMust(old(Now()), Now(), i, now)
    {
      hide Fail, IsCore, TimedOut, Drain, Update, Examine, Wf, AdvancesAsItMust;
      if Wf(Now()) { AdvanceAsItMust(Now(), i, now); }
      var node := rollout.nodes[i];
      if node.id !in workers { FailNode(i, now); return; }
      if TimedOut(node, rollout.timeout, now) { FailNode(i, now); return; }
      if node.phase.Draining? {
        DrainWorker(i, now);
      } else if node.phase.Updating? {
        UpdateWorker(i, now);
      } else {
        ExamineWorker(i, now);
      }
    }

    method ReconcileRollout(now: Instant)
      modifies this
      ensures Now() == Step(old(Now()), Tick(now))
    {
      hide Cleanup, Advance, RevertNodes;
      ghost var before := Now();
      CleanupCancelledWorkers();
      CleanupSameRollout(before);
      if rollout.state.Reverting? { ReconcileRollback(now); return; }
      if !rollout.state.Running? { return; }
      var active := FirstActive(rollout.nodes, 0);
      if active == |rollout.nodes| {
        active := FirstPending(rollout.nodes, 0);
        if active == |rollout.nodes| {
          rollout := rollout.(state := Succeeded);
          return;
        }
        SetNode(active, rollout.nodes[active].(phase := Draining, startedAt := now));
      }
      if IsCore(rollout.nodes[active].id) {
        ReconcileCoreActive(active, now);
      } else {
        ReconcileWorkerActive(active, now);
      }
    }
  }

  /** The active node fails exactly when it must, and otherwise moves forward as its record reports. */
  ghost predicate AdvancesAsItMust(s: System, t: System, i: nat, now: Instant)
    requires i < |s.rollout.nodes|
  {
    if Fails(s, s.rollout.nodes[i], now) then Collapses(s, t, i, now) else Forward(s, t, i, now)
  }

  lemma AdvanceAsItMust(s: System, i: nat, now: Instant)
    requires Wf(s) && i < |s.rollout.nodes| && Active(s.rollout.nodes[i].phase)
    ensures AdvancesAsItMust(s, Advance(s, i, now), i, now)
  {
    AdvanceMeaning(s, i, now);
    hide Advance, Fails, Collapses, Forward;
  }

  lemma RevertNodeLength(s: System, i: nat, now: Instant)
    requires i < |s.rollout.nodes|
    ensures |RevertNode(s, i, now).0.rollout.nodes| == |s.rollout.nodes|
    ensures !s.rollout.nodes[i].phase.RollingBack? ==> RevertNode(s, i, now) == (s, false)
  {}

  lemma CleanupSameRollout(s: System)
    ensures Cleanup(s).rollout == s.rollout
  {}

  /** The set of ids the source cleans, as built by the first `n` nodes. */
  predicate CancelledBefore(nodes: seq<Node>, n: nat, id: string)
    requires n <= |nodes|
  {
    exists k :: 0 <= k < n && nodes[k].id == id && nodes[k].phase == Cancelled
  }
}
