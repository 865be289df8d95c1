/**
 The durable rolling update of core/rolling_update.py as a state machine: the rollout record,
 the worker records the environment rewrites between steps, and the supply of random tokens
 (operation ids, self-test nonces, fence tokens), which never repeats a value.
 */
module RolloutModel {
  import opened Common
  import opened TextOrder
  import opened Timestamps

  // ------------------------------------------------------------------ records

  /** The text of `checked_at`, empty when missing, `None` when null. */
  datatype SelfTest = SelfTest(status: Value, nonce: Value, operation: Value, target: Value, checkedAt: string)

  datatype Request = Request(nonce: nat, operation: nat, target: Value)

  datatype Value =
    | Null
    | Text(text: string)
    | Token(id: nat)
    | Time(at: int)
    | Flag(on: bool)
    | Asked(request: Request)
    | Tested(test: SelfTest)
    | Ack(fence: Value, operation: Value)

  datatype Field =
    | Version | Status | CurrentTask | Drained | Test
    | DesiredState | CoordinatorState | TargetVersion | OperationId | RollbackTarget
    | TestRequest | TestRequestedAt | FenceToken | CancelledOperation | FenceAck | UpdatedAt

  /** A worker or coordinator record; a missing key reads as Null. */
  type Record = map<Field, Value>

  function Get(r: Record, f: Field): Value {
    if f in r then r[f] else Null
  }

  predicate Truthy(v: Value) {
    !v.Null? && v != Text("") && v != Flag(false)
  }

  function TestOf(r: Record): SelfTest {
    var v := Get(r, Test);
    if v.Tested? then v.test else SelfTest(Null, Null, Null, Null, "")
  }

  // ------------------------------------------------------------------ rollout

  datatype Phase =
    | Pending | Draining | Updating | SelfTesting | Ready
    | Failed | RollingBack | RolledBack | RollbackFailed | Cancelled

  datatype State =
    | Idle | Running | AwaitingPromotion | Reverting
    | Succeeded | Defeated | Aborted | Reverted | RevertFailed

  datatype Node = Node(id: string, phase: Phase, canary: bool, previous: Value, startedAt: Instant,
      request: Option<Request>)

  datatype Rollout = Rollout(
    operation: nat, state: State, target: Value, timeout: int, promoted: bool,
    nodes: seq<Node>, coordinators: map<string, Record>, fence: Option<nat>)

  datatype System = System(rollout: Rollout, workers: map<string, Record>, drawn: nat)

  predicate Active(p: Phase) {
    p.Draining? || p.Updating? || p.SelfTesting?
  }

  predicate Ongoing(s: State) {
    s.Running? || s.AwaitingPromotion? || s.Reverting?
  }

  predicate Terminal(s: State) {
    s.Succeeded? || s.Defeated? || s.Aborted? || s.Reverted? || s.RevertFailed?
  }

  predicate IsCore(id: string) {
    id == "core" || "core-" <= id
  }

  function Coordinator(r: Rollout, id: string): Record {
    if id in r.coordinators then r.coordinators[id] else map[CoordinatorState := Text("PENDING")]
  }

  /** The record a node's phases are read from: its coordinator for CORE, its heartbeat otherwise. */
  function RecordOf(s: System, id: string): Option<Record> {
    if IsCore(id) then Some(Coordinator(s.rollout, id))
    else if id in s.workers then Some(s.workers[id]) else None
  }

  function PutRecord(s: System, id: string, rec: Record): System {
    if IsCore(id) then s.(rollout := s.rollout.(coordinators := s.rollout.coordinators[id := rec]))
    else s.(workers := s.workers[id := rec])
  }

  function PutNode(s: System, i: nat, n: Node): System
    requires i < |s.rollout.nodes|
  {
    s.(rollout := s.rollout.(nodes := s.rollout.nodes[i := n]))
  }

  function SetState(s: System, state: State): System {
    s.(rollout := s.rollout.(state := state))
  }

  /** The field a command is written to: coordinators and workers name it differently. */
  function Command(core: bool, rec: Record, text: string): Record {
    rec[(if core then CoordinatorState else DesiredState) := Text(text)]
  }

  predicate TimedOut(n: Node, timeout: int, now: Instant) {
    now - n.startedAt > timeout * 1_000_000
  }

  // ------------------------------------------------------------- self-test binding

  /** `_ensure_self_test_request`: keep a matching request, otherwise draw a fresh nonce. */
  function Ensure(n: Node, operation: nat, target: Value, drawn: nat): (r: (Node, nat))
    ensures r.0.request.Some? && r.0 == n.(request := r.0.request)
    ensures r.0.request.value.operation == operation && r.0.request.value.target == target
    ensures (r.0 == n && r.1 == drawn) || (r.0.request.value.nonce == drawn && r.1 == drawn + 1)
  {
    if n.request.Some? && n.request.value.operation == operation && n.request.value.target == target
    then (n, drawn)
    else (n.(request := Some(Request(drawn, operation, target))), drawn + 1)
  }

  /** `_self_test_bound` */
  predicate Bound(t: SelfTest, n: Node, operation: nat) {
    n.request.None? ||
    (&& t.nonce == Token(n.request.value.nonce)
     && t.operation == Token(n.request.value.operation)
     && t.target == n.request.value.target
     && n.request.value.operation == operation)
  }

  /** `checked_at >= phase_started_at`: the texts are compared, and a phase start is written by `_now`. */
  predicate NotBefore(checkedAt: string, started: Instant) {
    TextLeq(Iso(started), checkedAt)
  }

  predicate Passed(t: SelfTest, n: Node, operation: nat) {
    t.status == Text("PASSED") && Bound(t, n, operation) && NotBefore(t.checkedAt, n.startedAt)
  }

  /** `_rollback_confirmed` */
  predicate Confirmed(rec: Record, n: Node, operation: nat) {
    && Get(rec, Version) == n.previous
    && n.request.Some? && n.request.value.operation == operation && n.request.value.target == n.previous
    && Passed(TestOf(rec), n, operation)
  }

  // ------------------------------------------------------------------ rollback

  predicate Updated(s: System, n: Node) {
    n.phase.Ready? || n.phase.SelfTesting? ||
    (n.id in s.workers && Get(s.workers[n.id], Version) == s.rollout.target)
  }

  function RollbackCommand(core: bool, rec: Record, n: Node, operation: nat): Record
    requires n.request.Some?
  {
    Command(core, rec, "ROLLBACK")[RollbackTarget := n.previous][OperationId := Token(operation)]
      [TestRequest := Asked(n.request.value)]
  }

  /** One iteration of the loop in `_begin_rollback`. */
  function BeginNode(s: System, i: nat, now: Instant): System
    requires i < |s.rollout.nodes|
  {
    var r, n := s.rollout, s.rollout.nodes[i];
    if Updated(s, n) then
      var moving := n.(phase := RollingBack, startedAt := now);
      var rec := RecordOf(s, n.id);
      if rec.None? then PutNode(s, i, moving)
      else
        var (asked, drawn) := Ensure(moving, r.operation, n.previous, s.drawn);
        PutRecord(PutNode(s, i, asked), n.id,
          RollbackCommand(IsCore(n.id), rec.value, asked, r.operation)[TestRequestedAt := Time(now)]).(drawn := drawn)
    else if n.phase.Failed? || n.phase.Cancelled? then s
    else PutNode(s, i, n.(phase := Cancelled))
  }

  function BeginNodes(s: System, i: nat, now: Instant): System
    requires i <= |s.rollout.nodes|
    decreases |s.rollout.nodes| - i
  {
    if i == |s.rollout.nodes| then s else BeginNodes(BeginNode(s, i, now), i + 1, now)
  }

  predicate AnyRollingBack(nodes: seq<Node>) {
    exists i :: 0 <= i < |nodes| && nodes[i].phase == RollingBack
  }

  /** `_begin_rollback` */
  function Begin(s: System, now: Instant): System {
    var t := BeginNodes(SetState(s, Reverting), 0, now);
    if AnyRollingBack(t.rollout.nodes) then t else SetState(t, Defeated)
  }

  /** One iteration of the rolling-back loop of `reconcile_rollout`; true means it returned early. */
  function RevertNode(s: System, i: nat, now: Instant): (System, bool)
    requires i < |s.rollout.nodes|
  {
    var r, n := s.rollout, s.rollout.nodes[i];
    var core, rec := IsCore(n.id), RecordOf(s, n.id);
    if !n.phase.RollingBack? then (s, false)
    else if rec.None? || TimedOut(n, r.timeout, now) then
      (SetState(PutNode(s, i, n.(phase := RollbackFailed)), RevertFailed), true)
    else
      var (asked, drawn) := Ensure(n, r.operation, n.previous, s.drawn);
      var told := RollbackCommand(core, rec.value, asked, r.operation);
      var t := s.(drawn := drawn);
      if Confirmed(told, asked, r.operation) then
        var cleared := if core then Command(core, told, "ROLLED_BACK") - {TestRequestedAt}
                       else told - {DesiredState, RollbackTarget, TestRequestedAt};
        (PutRecord(PutNode(t, i, asked.(phase := RolledBack)), n.id, cleared), false)
      else if !Bound(TestOf(told), asked, r.operation) then
        (PutRecord(PutNode(t, i, asked), n.id, told[TestRequestedAt := Time(now)]), false)
      else (PutRecord(PutNode(t, i, asked), n.id, told), false)
  }

  function RevertNodes(s: System, i: nat, now: Instant): System
    requires i <= |s.rollout.nodes|
    decreases |s.rollout.nodes| - i
  {
    if i == |s.rollout.nodes| then
      if AnyRollingBack(s.rollout.nodes) then s else SetState(s, Reverted)
    else
      var (t, stop) := RevertNode(s, i, now);
      if stop then t else RevertNodes(t, i + 1, now)
  }

  // ------------------------------------------------------------------ forward phases

  function Fail(s: System, i: nat, now: Instant): System
    requires i < |s.rollout.nodes|
  {
    Begin(PutNode(s, i, s.rollout.nodes[i].(phase := Failed)), now)
  }

  predicate IsDrained(core: bool, rec: Record) {
    if core then Truthy(Get(rec, Drained))
    else !Truthy(Get(rec, CurrentTask)) && Get(rec, Status) != Text("BUSY")
  }

  function Drain(s: System, i: nat, now: Instant, rec: Record): System
    requires i < |s.rollout.nodes|
  {
    var r, n := s.rollout, s.rollout.nodes[i];
    var core := IsCore(n.id);
    var told := Command(core, rec, "DRAINING")[OperationId := Token(r.operation)];
    if IsDrained(core, told) then
      PutRecord(PutNode(s, i, n.(phase := Updating, startedAt := now, previous := Get(told, Version))), n.id,
        Command(core, told, "UPDATING")[TargetVersion := r.target])
    else PutRecord(s, n.id, told)
  }

  function Update(s: System, i: nat, now: Instant, rec: Record): System
    requires i < |s.rollout.nodes|
  {
    var r, n := s.rollout, s.rollout.nodes[i];
    var core := IsCore(n.id);
    var told := Command(core, rec, "UPDATING")[TargetVersion := r.target][OperationId := Token(r.operation)];
    if !core && Get(told, Status) == Text("ERROR") then Fail(PutRecord(s, n.id, told), i, now)
    else if Get(told, Version) == r.target then
      var (asked, drawn) := Ensure(n.(phase := SelfTesting, startedAt := now), r.operation, r.target, s.drawn);
      PutRecord(PutNode(s, i, asked), n.id,
        Command(core, told, "SELF_TESTING")[TestRequestedAt := Time(now)][TestRequest := Asked(asked.request.value)])
        .(drawn := drawn)
    else PutRecord(s, n.id, told)
  }

  function Examine(s: System, i: nat, now: Instant, rec: Record): System
    requires i < |s.rollout.nodes|
  {
    var r, n := s.rollout, s.rollout.nodes[i];
    var core, test := IsCore(n.id), TestOf(rec);
    if test.status == Text("FAILED") then Fail(s, i, now)
    else
      var (asked, drawn) := Ensure(n, r.operation, r.target, s.drawn);
      var noted := rec[TestRequest := Asked(asked.request.value)];
      var t := s.(drawn := drawn);
      if Passed(test, asked, r.operation) && Get(noted, Version) == r.target then
        var done := PutRecord(PutNode(t, i, asked.(phase := Ready)), n.id,
          if core then Command(core, noted, "READY") - {TestRequestedAt}
          else noted - {DesiredState, TargetVersion, TestRequestedAt});
        if n.canary && !r.promoted then SetState(done, AwaitingPromotion) else done
      else
        PutRecord(PutNode(t, i, asked), n.id,
          if Bound(test, asked, r.operation) then noted else noted[TestRequestedAt := Time(now)])
  }

  /** The active node's part of `reconcile_rollout` and `_reconcile_core_active`. */
  function Advance(s: System, i: nat, now: Instant): System
    requires i < |s.rollout.nodes|
  {
    var n := s.rollout.nodes[i];
    var rec := RecordOf(s, n.id);
    if rec.None? || TimedOut(n, s.rollout.timeout, now) then Fail(s, i, now)
    else match n.phase
      case Draining => Drain(s, i, now, rec.value)
      case Updating => Update(s, i, now, rec.value)
      case SelfTesting => Examine(s, i, now, rec.value)
      case _ => s
  }

  /** The first node from `i` on whose phase satisfies the test; |nodes| when there is none. */
  function FirstActive(nodes: seq<Node>, i: nat): (k: nat)
    requires i <= |nodes|
    ensures i <= k <= |nodes|
    ensures k < |nodes| ==> Active(nodes[k].phase)
    ensures forall j :: i <= j < k ==> !Active(nodes[j].phase)
    decreases |nodes| - i
  {
    if i == |nodes| || Active(nodes[i].phase) then i else FirstActive(nodes, i + 1)
  }

  function FirstPending(nodes: seq<Node>, i: nat): (k: nat)
    requires i <= |nodes|
    ensures i <= k <= |nodes|
    ensures k < |nodes| ==> nodes[k].phase.Pending?
    ensures forall j :: i <= j < k ==> !nodes[j].phase.Pending?
    decreases |nodes| - i
  {
    if i == |nodes| || nodes[i].phase.Pending? then i else FirstPending(nodes, i + 1)
  }

  function RunActive(s: System, now: Instant): System {
    var nodes := s.rollout.nodes;
    var a := FirstActive(nodes, 0);
    if a < |nodes| then Advance(s, a, now)
    else
      var p := FirstPending(nodes, 0);
      if p == |nodes| then SetState(s, Succeeded)
      else Advance(PutNode(s, p, nodes[p].(phase := Draining, startedAt := now)), p, now)
  }

  // ------------------------------------------------------------------ the cancel fence

  predicate Tied(rec: Record, r: Rollout) {
    r.fence.Some? &&
    (|| Get(rec, OperationId) == Token(r.operation)
     || Get(rec, CancelledOperation) == Token(r.operation)
     || Get(rec, FenceToken) == Token(r.fence.value))
  }

  predicate Acknowledges(ack: Value, r: Rollout) {
    r.fence.Some? && ack == Ack(Token(r.fence.value), Token(r.operation))
  }

  /** `assert_not_fenced` raises. */
  predicate Fenced(rec: Record, r: Rollout) {
    r.state.Aborted? && r.fence.Some? && Tied(rec, r) && !Acknowledges(Get(rec, FenceAck), r)
  }

  predicate IsCancelledNode(r: Rollout, id: string) {
    exists i :: 0 <= i < |r.nodes| && r.nodes[i].id == id && r.nodes[i].phase == Cancelled
  }

  /** What `_cleanup_cancelled_workers` does to one record. */
  function Cleaned(rec: Record, r: Rollout): Record {
    var dirty := !Get(rec, DesiredState).Null? || !Get(rec, TargetVersion).Null?
              || !Get(rec, OperationId).Null? || !Get(rec, RollbackTarget).Null?;
    var bare := rec - {DesiredState, TargetVersion, OperationId, RollbackTarget};
    var quiet := if dirty then bare - {TestRequestedAt} else bare;
    if r.fence.None? then quiet
    else quiet[FenceToken := Token(r.fence.value)][CancelledOperation := Token(r.operation)]
  }

  function Cleanup(s: System): System {
    if !s.rollout.state.Aborted? then s
    else s.(workers := map id | id in s.workers ::
              if IsCancelledNode(s.rollout, id) then Cleaned(s.workers[id], s.rollout) else s.workers[id])
  }

  // ------------------------------------------------------------------ operations

  /** `reconcile_rollout` */
  function Reconcile(s: System, now: Instant): System {
    var c := Cleanup(s);
    match c.rollout.state
    case Reverting => RevertNodes(c, 0, now)
    case Running => RunActive(c, now)
    case _ => c
  }

  function CancelNode(n: Node): Node {
    if n.phase.Ready? || n.phase.Failed? || n.phase.RolledBack? then n else n.(phase := Cancelled)
  }

  /** `cancel_rollout` */
  function Cancel(s: System): System {
    var r := s.rollout;
    if !Ongoing(r.state) then s
    else s.(rollout := r.(state := Aborted, fence := Some(s.drawn),
                          nodes := seq(|r.nodes|, i requires 0 <= i < |r.nodes| => CancelNode(r.nodes[i]))),
            drawn := s.drawn + 1)
  }

  /** `promote_rollout` */
  function Promote(s: System): System {
    if s.rollout.state.AwaitingPromotion? then s.(rollout := s.rollout.(state := Running, promoted := true)) else s
  }

  /** `rollback_ready_nodes` */
  function OperatorRollback(s: System, now: Instant): System {
    if Ongoing(s.rollout.state) then Begin(s, now) else s
  }

  predicate Has(r: Rollout, id: string) {
    exists i :: 0 <= i < |r.nodes| && r.nodes[i].id == id
  }

  /** The record after an acknowledgement carried by the update has been stored. */
  function WithAck(rec: Record, changes: Record): Record {
    var ack := Get(changes, FenceAck);
    if ack.Ack? && Truthy(ack.fence) then rec[FenceAck := ack] else rec
  }

  /** `update_core_coordinator`; a refused update raises and writes nothing. */
  function UpdateCoordinator(s: System, id: string, changes: Record, now: Instant): System {
    var r := s.rollout;
    if !IsCore(id) || !Has(r, id) then s
    else
      var rec := WithAck(Coordinator(r, id), changes);
      if Fenced(rec, r) then s
      else s.(rollout := r.(coordinators := r.coordinators[id := (rec + changes)[UpdatedAt := Time(now)]]))
  }

  function FreshNodes(ids: seq<string>, canary: bool, now: Instant): (nodes: seq<Node>)
    ensures |nodes| == |ids|
  {
    seq(|ids|, i requires 0 <= i < |ids| => Node(ids[i], Pending, canary && i == 0, Null, now, None))
  }

  /** `start_rollout`, after the node list has been ordered. */
  function Start(s: System, target: string, ids: seq<string>, timeout: int, canary: bool, now: Instant): System {
    if target == "" || |target| > 64 || !(60 <= timeout <= 86400) || ids == [] || Ongoing(s.rollout.state) then s
    else s.(rollout := Rollout(s.drawn, Running, Text(target), timeout, !canary,
                               FreshNodes(ids, canary, now), map[], None),
            drawn := s.drawn + 1)
  }

  datatype Order = WorkersFirst | CoreFirst | Custom

  datatype Event =
    | Launch(target: string, ids: seq<string>, order: Order, timeout: int, canary: bool, now: Instant)
    | Promotion
    | Cancellation
    | Rollback(now: Instant)
    | Tick(now: Instant)
    | Report(id: string, changes: Record, now: Instant)
    | Environment(workers: map<string, Record>)

  function Step(s: System, e: Event): System {
    match e
    case Launch(target, ids, order, timeout, canary, now) =>
      Start(s, target, OrderedNodes(ids, order), timeout, canary, now)
    case Promotion => Promote(s)
    case Cancellation => Cancel(s)
    case Rollback(now) => OperatorRollback(s, now)
    case Tick(now) => Reconcile(s, now)
    case Report(id, changes, now) => UpdateCoordinator(s, id, changes, now)
    case Environment(workers) => s.(workers := workers)
  }

  // ------------------------------------------------------------------ node order

  /** Insert into a sorted list unless already present. */
  function Insert(id: string, sorted: seq<string>): seq<string> {
    if sorted == [] then [id]
    else if id == sorted[0] then sorted
    else if TextLeq(id, sorted[0]) then [id] + sorted
    else [sorted[0]] + Insert(id, sorted[1..])
  }

  /** `sorted(set(ids))` */
  function SortedSet(ids: seq<string>): seq<string> {
    if ids == [] then [] else Insert(ids[|ids| - 1], SortedSet(ids[..|ids| - 1]))
  }

  /** `list(dict.fromkeys(ids))` */
  function FirstUses(ids: seq<string>): seq<string> {
    if ids == [] then []
    else
      var earlier := FirstUses(ids[..|ids| - 1]);
      if ids[|ids| - 1] in ids[..|ids| - 1] then earlier else earlier + [ids[|ids| - 1]]
  }

  function Select(ids: seq<string>, core: bool): seq<string> {
    if ids == [] then []
    else if IsCore(ids[0]) == core then [ids[0]] + Select(ids[1..], core) else Select(ids[1..], core)
  }

  /** `_ordered_nodes` */
  function OrderedNodes(ids: seq<string>, order: Order): seq<string> {
    match order
    case Custom => FirstUses(ids)
    case CoreFirst => Select(SortedSet(ids), true) + Select(SortedSet(ids), false)
    case WorkersFirst => Select(SortedSet(ids), false) + Select(SortedSet(ids), true)
  }
}
