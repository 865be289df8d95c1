/**
 The provider switch transaction, core/provider_switch.py: an overrides file and an activation
 file that survive a crash, and a process environment that does not. One event is one durable
 write, which may also fail, or one decision; the process may crash between any two.
 */
module ProviderSwitch {
  import opened Common

  type Env = string
  type Values = map<Env, string>

  datatype Status = Applying | Awaiting | Committed | RolledBack

  /** The activation record. `captured` is the environment to restore; None: the variable was unset. */
  datatype Txn = Txn(
    status: Status, slot: string, previous: Values, captured: map<Env, Option<string>>,
    targets: seq<string>, deliveryBefore: Values)

  datatype Request = Request(slot: string, name: Env, value: string, endpoint: Option<(Env, string)>)

  /** A switch under way: its transaction and the overrides it wants. */
  datatype Change = Change(request: Request, txn: Txn, wanted: Values)

  /** What a worker last reported: the configuration its revision stands for, and what its executors see. */
  datatype Worker = Worker(revision: Option<Values>, config: Values, failed: bool)

  datatype Poll = Poll(workers: map<string, Worker>)

  datatype Process =
    | Down
    | Recovering(txn: Txn)
    | Recovered(txn: Txn)
    | Idle
    | Superseding(request: Request, txn: Txn)
    | Superseded(request: Request, txn: Txn)
    | Beginning(request: Request)
    | Recording(change: Change)
    | Writing(change: Change)
    | Checking(change: Change)
    | Committing(change: Change, polls: seq<Poll>)
    | RollingBack(change: Change)
    | Undone(change: Change)
    | Reverting(txn: Txn, node: string)

  /**
   `confirmed` is the history: the overrides last committed. `peeked` are the transactions that
   heartbeat handlers of this process read before they took the lock.
   */
  datatype State = State(
    overrides: Values, activation: Option<Txn>, confirmed: Values, env: Values, peeked: set<Txn>, process: Process)

  // ------------------------------------------------------------------ values and environments

  function Look<V>(m: map<Env, V>, k: Env): Option<V> {
    if k in m then Some(m[k]) else None
  }

  /** `[A-Z][A-Z0-9_]*` */
  predicate Valid(name: Env) {
    && name != "" && 'A' <= name[0] <= 'Z'
    && forall i :: 0 <= i < |name| ==> 'A' <= name[i] <= 'Z' || '0' <= name[i] <= '9' || name[i] == '_'
  }

  /** The environment `base` with the overrides applied. */
  function Apply(base: Values, overrides: Values): Values {
    map k | k in base.Keys + overrides.Keys && (k in base || Valid(k)) ::
      if k in overrides && Valid(k) then overrides[k] else base[k]
  }

  /** The environment with the captured variables put back, or unset. */
  function Restore(env: Values, captured: map<Env, Option<string>>): Values {
    map k | k in env.Keys + captured.Keys && (k in captured ==> captured[k].Some?) ::
      if k in captured then captured[k].value else env[k]
  }

  lemma LookApply(base: Values, overrides: Values, k: Env)
    ensures Look(Apply(base, overrides), k) == if k in overrides && Valid(k) then Some(overrides[k]) else Look(base, k)
  {}

  lemma LookRestore(env: Values, captured: map<Env, Option<string>>, k: Env)
    ensures Look(Restore(env, captured), k) == if k in captured then captured[k] else Look(env, k)
  {}

  lemma SameValues(a: Values, b: Values)
    requires forall k :: Look(a, k) == Look(b, k)
    ensures a == b
  {
    forall k ensures k in a <==> k in b {
      assert Look(a, k) == Look(b, k);
    }
    forall k | k in a ensures a[k] == b[k] {
      assert Look(a, k) == Look(b, k);
    }
  }

  const ALLOWED: set<Env> := {
    "VERTEP_LLM_PROVIDER", "TTS_PROVIDER", "TTS_VOICE", "TTS_MODEL", "TTS_LANGUAGE", "TTS_SPEED", "TTS_URL",
    "OLLAMA_URL", "OLLAMA_MODEL", "VERTEP_COMPUTE_PROVIDER", "COMFYUI_URL", "COMFYUI_DISTRIBUTED_URL",
    "VERTEP_VIDEO_ENGINE", "MONEY_PRINTER_URL", "SHORTGPT_URL"}

  /** `provider_executor_config`: what is delivered to the workers. */
  function ExecutorConfig(overrides: Values, activation: Option<Txn>): Values {
    var extra := if activation.Some? && activation.value.status == RolledBack && activation.value.targets != []
      then activation.value.deliveryBefore else map[];
    map k | k in extra.Keys + overrides.Keys && k in ALLOWED :: if k in overrides then overrides[k] else extra[k]
  }

  // ------------------------------------------------------------------ acknowledgements

  predicate Reports(w: Worker, expected: Values) {
    w.revision == Some(expected)
  }

  /** The report confirms what is expected: no error, and the executors observe every value. */
  predicate Confirms(w: Worker, expected: Values) {
    !w.failed && forall k :: k in expected ==> (if k in w.config then w.config[k] else "") == expected[k]
  }

  predicate Answers(p: Poll, name: string, expected: Values) {
    name in p.workers && Reports(p.workers[name], expected)
  }

  /** The first poll, from `i` on, in which the worker reports the expected revision; |polls| if none. */
  function FirstAnswer(polls: seq<Poll>, name: string, expected: Values, i: nat): (r: nat)
    requires i <= |polls|
    ensures i <= r <= |polls|
    ensures r < |polls| ==> Answers(polls[r], name, expected)
    ensures forall j :: i <= j < r ==> !Answers(polls[j], name, expected)
    decreases |polls| - i
  {
    if i == |polls| || Answers(polls[i], name, expected) then i else FirstAnswer(polls, name, expected, i + 1)
  }

  /** The first report of the expected revision, before the deadline, confirms it. */
  predicate Acknowledges(polls: seq<Poll>, name: string, expected: Values) {
    var r := FirstAnswer(polls, name, expected, 0);
    r < |polls| && Confirms(polls[r].workers[name], expected)
  }

  predicate Contradicts(polls: seq<Poll>, name: string, expected: Values) {
    var r := FirstAnswer(polls, name, expected, 0);
    r < |polls| && !Confirms(polls[r].workers[name], expected)
  }

  predicate AllAcknowledge(polls: seq<Poll>, targets: seq<string>, expected: Values) {
    forall i :: 0 <= i < |targets| ==> Acknowledges(polls, targets[i], expected)
  }

  // ------------------------------------------------------------------ steps

  /** Where the last confirmed overrides are found after a crash. */
  function Baseline(s: State): Values {
    if s.activation.Some? && (s.activation.value.status == Applying || s.activation.value.status == Awaiting)
    then s.activation.value.previous else s.overrides
  }

  /** The change a request asks for, against the files and the environment as they are. */
  function Plan(overrides: Values, env: Values, req: Request, backend: string, targets: seq<string>): Change {
    var wanted := overrides[req.name := req.value];
    var captured := map[req.name := Look(env, req.name)];
    var both := if req.endpoint.Some? then captured[req.endpoint.value.0 := Look(env, req.endpoint.value.0)]
        else captured;
    var delivery := map k | k in both :: if both[k].Some? then both[k].value else if k == req.name then backend else "";
    Change(req, Txn(Applying, req.slot, overrides, both, targets, delivery),
           if req.endpoint.Some? then wanted[req.endpoint.value.0 := req.endpoint.value.1] else wanted)
  }

  /** The environment once the switch is applied. */
  function Switched(env: Values, req: Request): Values {
    var e := env[req.name := req.value];
    if req.endpoint.Some? then e[req.endpoint.value.0 := req.endpoint.value.1] else e
  }

  /** One key of the overrides put back as it was. */
  function PutBack(m: Values, k: Env, was: Option<string>): Values {
    if was.Some? then m[k := was.value] else m - {k}
  }

  /** `_rollback`: the overrides with the request's keys put back one by one. */
  function UndoKeys(c: Change): Values {
    var m := PutBack(c.wanted, c.request.name, Look(c.txn.previous, c.request.name));
    if c.request.endpoint.Some?
    then PutBack(m, c.request.endpoint.value.0, Look(c.txn.previous, c.request.endpoint.value.0)) else m
  }

  datatype Event =
    | Crash
    | Start
    | SwitchAsked(request: Request)
    | Refused
    | Begun(backend: string, targets: seq<string>)
    | Written(ok: bool)                             // the pending durable write completes, or fails
    | Checked(matrixOk: bool, polls: seq<Poll>)
    | Peeked
    | Heartbeat(txn: Txn, node: string, worker: Worker, ok: bool)

  predicate WellNamed(req: Request) {
    Valid(req.name) && (req.endpoint.Some? ==> Valid(req.endpoint.value.0))
  }

  predicate PendingWrite(p: Process) {
    !(p.Down? || p.Idle? || p.Beginning? || p.Checking?)
  }

  predicate Enabled(s: State, e: Event) {
    match e
    case Crash => true
    case Start => s.process.Down?
    case SwitchAsked(req) => s.process.Idle? && WellNamed(req)
    case Refused => s.process.Beginning?
    case Begun(_, _) => s.process.Beginning?
    case Written(_) => PendingWrite(s.process)
    case Checked(_, _) => s.process.Checking?
    case Peeked => !s.process.Down?
    case Heartbeat(txn, _, _, _) => s.process.Idle? && txn in s.peeked && txn.status == Awaiting
  }

  function SetStatus(s: State, t: Txn, status: Status): State {
    s.(activation := Some(t.(status := status)))
  }

  function Write(s: State, ok: bool): State
    requires PendingWrite(s.process)
  {
    match s.process
    case Recovering(t) =>
      if !ok then s.(process := Idle)
      else s.(overrides := t.previous, env := Restore(s.env, t.captured), process := Recovered(t))
    case Recovered(t) =>
      if !ok then s.(process := Idle)
      else SetStatus(s, t, RolledBack).(env := Apply(s.env, s.overrides), process := Idle)
    case Superseding(req, t) =>
      if !ok then s.(process := Idle)
      else s.(overrides := t.previous, env := Restore(s.env, t.captured), process := Superseded(req, t))
    case Superseded(req, t) =>
      if !ok then s.(process := Idle) else SetStatus(s, t, RolledBack).(process := Beginning(req))
    case Recording(c) =>
      if !ok then s.(process := Idle) else s.(activation := Some(c.txn), process := Writing(c))
    case Writing(c) =>
      if !ok then s.(process := Idle)
      else s.(overrides := c.wanted, env := Switched(s.env, c.request), process := Checking(c))
    case Committing(c, _) =>
      if !ok then s.(process := RollingBack(c))
      else if c.txn.targets != [] then SetStatus(s, c.txn, Committed).(confirmed := s.overrides, process := Idle)
      else SetStatus(s, c.txn, Awaiting).(process := Idle)
    case RollingBack(c) =>
      var t := s.(env := Restore(s.env, c.txn.captured));
      if !ok then t.(process := Idle) else t.(overrides := UndoKeys(c), process := Undone(c))
    case Undone(c) =>
      if !ok then s.(process := Idle) else SetStatus(s, c.txn, RolledBack).(process := Idle)
    case Reverting(t, node) =>
      if !ok then s.(process := Idle)
      else SetStatus(s, t.(targets := [node]), RolledBack).(process := Idle)
  }

  /** `reconcile_provider_activation`, on the transaction read before the lock was taken. */
  function Reconcile(s: State, t: Txn, node: string, w: Worker, ok: bool): State {
    var expected := ExecutorConfig(s.overrides, s.activation);
    if !Reports(w, expected) || !ok then s
    else if !Confirms(w, expected) then
      s.(overrides := t.previous, env := Restore(s.env, t.captured), process := Reverting(t, node))
    else SetStatus(s, t.(targets := [node]), Committed).(confirmed := s.overrides)
  }

  function Begin(inherited: Values, s: State): State {
    var t := s.(env := inherited);
    if s.activation.Some? && s.activation.value.status == Applying then t.(process := Recovering(s.activation.value))
    else t.(env := Apply(inherited, s.overrides), process := Idle)
  }

  function Ask(s: State, req: Request): State {
    if s.activation.Some? && s.activation.value.status == Awaiting then
      if s.activation.value.slot != req.slot then s
      else s.(process := Superseding(req, s.activation.value))
    else s.(process := Beginning(req))
  }

  function Step(inherited: Values, s: State, e: Event): State
    requires Enabled(s, e)
  {
    match e
    case Crash => s.(process := Down, peeked := {})
    case Start => Begin(inherited, s)
    case SwitchAsked(req) => Ask(s, req)
    case Refused => s.(process := Idle)
    case Begun(backend, targets) =>
      s.(process := Recording(Plan(s.overrides, s.env, s.process.request, backend, targets)))
    case Written(ok) => Write(s, ok)
    case Checked(matrixOk, polls) =>
      var c := s.process.change;
      s.(process := if matrixOk && AllAcknowledge(polls, c.txn.targets, ExecutorConfig(s.overrides, s.activation))
          then Committing(c, polls) else RollingBack(c))
    case Peeked => if s.activation.Some? then s.(peeked := s.peeked + {s.activation.value}) else s
    case Heartbeat(t, node, w, ok) => Reconcile(s, t, node, w, ok)
  }

  ghost predicate Initial(s: State) {
    s.activation.None? && s.confirmed == s.overrides && s.peeked == {} && s.process.Down?
  }

  ghost predicate IsRun(inherited: Values, tr: seq<State>, es: seq<Event>) {
    && |tr| == |es| + 1 && Initial(tr[0])
    && forall k :: 0 <= k < |es| ==> Enabled(tr[k], es[k]) && tr[k + 1] == Step(inherited, tr[k], es[k])
  }

  /** The state after a script of events, if each is possible where it comes. */
  function Play(inherited: Values, s: State, es: seq<Event>): Option<State>
    decreases |es|
  {
    if es == [] then Some(s)
    else if !Enabled(s, es[0]) then None else Play(inherited, Step(inherited, s, es[0]), es[1..])
  }
}
