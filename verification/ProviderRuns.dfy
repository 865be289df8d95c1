/** Over whole runs of the provider switch: what a rollback or a restart restores, and when it goes wrong. */
module ProviderRuns {
  import opened Common
  import opened ProviderSwitch

  // ------------------------------------------------------------------ the confirmed baseline

  /** Undoing the request's keys one by one gives back exactly the previous overrides. */
  lemma UndoRestores(s: State, req: Request, backend: string, targets: seq<string>)
    ensures UndoKeys(Plan(s.overrides, s.env, req, backend, targets)) == s.overrides
  {
    var c := Plan(s.overrides, s.env, req, backend, targets);
    forall k ensures Look(UndoKeys(c), k) == Look(s.overrides, k) {}
    SameValues(UndoKeys(c), s.overrides);
  }

  predicate Undoable(c: Change) {
    UndoKeys(c) == c.txn.previous && c.txn.status == Applying
  }

  /** What the running call knows of the files. */
  predicate ProcessInv(s: State) {
    match s.process
    case Down => true
    case Idle => true
    case Recovering(t) => s.activation == Some(t) && t.status == Applying
    case Recovered(t) => s.activation == Some(t) && t.status == Applying && s.overrides == t.previous
    case Superseding(_, t) => s.activation == Some(t) && t.status == Awaiting
    case Superseded(_, t) => s.activation == Some(t) && t.status == Awaiting && s.overrides == t.previous
    case Beginning(_) => s.activation.None? || s.activation.value.status != Awaiting
    case Recording(c) => Undoable(c) && s.overrides == c.txn.previous && c.txn.previous == s.confirmed
    case Writing(c) => Undoable(c) && s.activation == Some(c.txn) && s.overrides == c.txn.previous
    case Checking(c) => Undoable(c) && s.activation == Some(c.txn)
    case Committing(c, polls) =>
      Undoable(c) && s.activation == Some(c.txn) &&
          AllAcknowledge(polls, c.txn.targets, ExecutorConfig(s.overrides, s.activation))
    case RollingBack(c) => Undoable(c) && s.activation == Some(c.txn)
    case Undone(c) => Undoable(c) && s.activation == Some(c.txn) && s.overrides == c.txn.previous
    case Reverting(t, _) => s.overrides == t.previous && t.previous == s.confirmed
  }

  /** The files lead back to the last confirmed overrides. */
  predicate Inv(s: State) {
    Baseline(s) == s.confirmed && ProcessInv(s)
  }

  /**
   The two steps that lose the baseline: a switch begun on top of an activation whose rollback
   could not be written, and a heartbeat that rolls back to the baseline of a transaction read
   before the lock was taken, when that is no longer the baseline.
   */
  predicate Hazard(s: State, e: Event)
    requires Enabled(s, e)
  {
    || (e.Begun? && s.overrides != Baseline(s))
    || (e.Heartbeat? && Reports(e.worker, ExecutorConfig(s.overrides, s.activation)) &&
        !Confirms(e.worker, ExecutorConfig(s.overrides, s.activation)) && e.ok
        && e.txn.previous != Baseline(s))
  }

  /** A heartbeat loses the baseline exactly when it rolls back to another. */
  lemma HeartbeatInv(s: State, t: Txn, node: string, w: Worker, ok: bool)
    requires Inv(s) && s.process.Idle? && t.status == Awaiting
    ensures Inv(Reconcile(s, t, node, w, ok)) <==>
      !(Reports(w, ExecutorConfig(s.overrides, s.activation)) && !Confirms(w, ExecutorConfig(s.overrides, s.activation))
        && ok && t.previous != Baseline(s))
  {
    hide ExecutorConfig, Confirms, Reports, AllAcknowledge, Restore, Undoable;
  }

  lemma BegunInv(s: State, req: Request, backend: string, targets: seq<string>)
    requires Inv(s) && s.process == Beginning(req)
    ensures Inv(s.(process := Recording(Plan(s.overrides, s.env, req, backend, targets)))) <==>
      s.overrides == Baseline(s)
  {
    hide AllAcknowledge, UndoKeys;
    UndoRestores(s, req, backend, targets);
  }

  /** Exactly the hazards break the invariant; every other step keeps it. */
  lemma StepInv(inherited: Values, s: State, e: Event)
    requires Inv(s) && Enabled(s, e)
    ensures Inv(Step(inherited, s, e)) <==> !Hazard(s, e)
  {
    hide ExecutorConfig, Confirms, Reports, AllAcknowledge, Apply, Write, Reconcile, Plan, Undoable;
    match e
    case Begun(backend, targets) => BegunInv(s, s.process.request, backend, targets);
    case Written(ok) => WriteInv(s, ok);
    case Heartbeat(t, node, w, ok) => HeartbeatInv(s, t, node, w, ok);
    case _ =>
  }

  /** Taking back an activation: at start, for a new choice, or for a worker. */
  predicate TakesBack(p: Process) {
    p.Recovering? || p.Recovered? || p.Superseding? || p.Superseded? || p.Reverting?
  }

  lemma TakeBackInv(s: State, ok: bool)
    requires Inv(s) && TakesBack(s.process)
    ensures Inv(Write(s, ok))
  {
    hide AllAcknowledge, ExecutorConfig, Apply, Restore, Undoable;
  }

  lemma ApplyInv(s: State, ok: bool)
    requires Inv(s) && (s.process.Recording? || s.process.Writing?)
    ensures Inv(Write(s, ok))
  {
    hide AllAcknowledge, ExecutorConfig, Switched, UndoKeys;
  }

  lemma SettleInv(s: State, ok: bool)
    requires Inv(s) && (s.process.Committing? || s.process.RollingBack? || s.process.Undone?)
    ensures Inv(Write(s, ok))
  {
    hide AllAcknowledge, ExecutorConfig, Restore, UndoKeys;
  }

  lemma WriteInv(s: State, ok: bool)
    requires Inv(s) && PendingWrite(s.process)
    ensures Inv(Write(s, ok))
  {
    hide Inv, Write;
    if TakesBack(s.process) {
      TakeBackInv(s, ok);
    } else if s.process.Recording? || s.process.Writing? {
      ApplyInv(s, ok);
    } else {
      SettleInv(s, ok);
    }
  }

  /** Beginning is hazardous exactly while a failed activation's overrides are still in the file. */
  lemma BeginHazard(s: State, backend: string, targets: seq<string>)
    requires Inv(s) && s.process.Beginning?
    ensures Hazard(s, Begun(backend, targets)) <==>
      s.activation.Some? && s.activation.value.status == Applying && s.overrides != s.activation.value.previous
  {}

  /** A heartbeat that acts on the transaction still on file is never hazardous. */
  lemma FreshHeartbeatIsSafe(s: State, e: Event)
    requires Inv(s) && Enabled(s, e) && e.Heartbeat? && s.activation == Some(e.txn)
    ensures !Hazard(s, e)
  {}

  predicate Careful(inherited: Values, tr: seq<State>, es: seq<Event>, n: nat)
    requires n <= |es| <= |tr| && forall k :: 0 <= k < |es| ==> Enabled(tr[k], es[k])
  {
    forall k :: 0 <= k < n ==> !Hazard(tr[k], es[k])
  }

  lemma {:induction false} Reachable(inherited: Values, tr: seq<State>, es: seq<Event>, n: nat)
    requires IsRun(inherited, tr, es) && n <= |es| && Careful(inherited, tr, es, n)
    ensures Inv(tr[n])
  {
    hide Step, Enabled, Hazard;
    if n > 0 {
      Reachable(inherited, tr, es, n - 1);
      StepInv(inherited, tr[n - 1], es[n - 1]);
    }
  }

  /** A newly rolled back activation leaves the confirmed overrides. */
  predicate Lands(s: State, t: State) {
    t.activation.Some? && t.activation.value.status == RolledBack && t.activation != s.activation ==>
      t.overrides == s.confirmed == t.confirmed
  }

  /** Only a commit confirms, and it confirms what the workers acknowledged. */
  predicate ConfirmsAcknowledged(s: State, e: Event, t: State) {
    t.confirmed != s.confirmed ==>
      && t.activation.Some? && t.activation.value.status == Committed
      && t.confirmed == s.overrides == t.overrides
      && if e.Heartbeat? then Reports(e.worker, ExecutorConfig(s.overrides, s.activation)) &&
          Confirms(e.worker, ExecutorConfig(s.overrides, s.activation))
         else
           && s.process.Committing? && s.process.change.txn.targets != []
           && AllAcknowledge(s.process.polls, s.process.change.txn.targets, ExecutorConfig(s.overrides, s.activation))
  }

  /**
   Without a hazard, every activation that ends as rolled back, by verification, supersession,
   a worker's refusal or restart recovery, leaves exactly the last confirmed overrides; and
   nothing is confirmed but by a commit whose workers all acknowledged it.
   */
  lemma RollbackLandsOnConfirmed(inherited: Values, tr: seq<State>, es: seq<Event>, n: nat)
    requires IsRun(inherited, tr, es) && n < |es| && Careful(inherited, tr, es, n + 1)
    ensures Lands(tr[n], tr[n + 1])
    ensures ConfirmsAcknowledged(tr[n], es[n], tr[n + 1])
  {
    hide Step, Hazard, Inv, Lands, ConfirmsAcknowledged;
    assert Careful(inherited, tr, es, n);
    Reachable(inherited, tr, es, n);
    Reachable(inherited, tr, es, n + 1);
    Landing(inherited, tr[n], es[n]);
  }

  lemma Landing(inherited: Values, s: State, e: Event)
    requires Inv(s) && Enabled(s, e) && Inv(Step(inherited, s, e))
    ensures Lands(s, Step(inherited, s, e)) && ConfirmsAcknowledged(s, e, Step(inherited, s, e))
  {
    hide ExecutorConfig, Apply, Restore, Switched, UndoKeys, AllAcknowledge, Confirms, Reports, Plan, Write;
    if e.Written? { WriteLanding(s, e.ok); }
  }

  lemma WriteLanding(s: State, ok: bool)
    requires Inv(s) && PendingWrite(s.process)
    ensures Lands(s, Write(s, ok)) && ConfirmsAcknowledged(s, Written(ok), Write(s, ok))
  {
    hide ExecutorConfig, Apply, Restore, Switched, UndoKeys, AllAcknowledge, Confirms, Reports;
  }

  /** A crash now, and a restart whose writes complete. */
  function Restarted(inherited: Values, s: State): State {
    var t := Step(inherited, Step(inherited, s, Crash), Start);
    if t.process.Recovering? then Write(Write(t, true), true) else t
  }

  /**
   Atomic under a crash at any point: the restart leaves the last confirmed overrides, or, once
   the switch only awaits its worker, the switched ones with the way back to those confirmed.
   */
  lemma RestartRestores(inherited: Values, s: State)
    requires Inv(s)
    ensures var t := Restarted(inherited, s);
      && t.process.Idle? && t.confirmed == s.confirmed
      && (t.overrides == s.confirmed
          || (t.activation == s.activation && t.overrides == s.overrides
              && t.activation.Some? && t.activation.value.status == Awaiting &&
                  t.activation.value.previous == s.confirmed))
  {
    hide Apply, Restore, UndoKeys, ExecutorConfig, AllAcknowledge;
  }

  // ------------------------------------------------------------------ the environment

  /** What was captured is what the environment held under the previous overrides. */
  ghost predicate TxnFits(inherited: Values, t: Txn) {
    forall k :: k in t.captured ==> t.captured[k] == Look(Apply(inherited, t.previous), k)
  }

  /** The overrides differ from the previous ones only where something was captured. */
  ghost predicate OffKeys(t: Txn, overrides: Values) {
    forall k :: k !in t.captured ==> Look(overrides, k) == Look(t.previous, k)
  }

  lemma RestoreUndoes(inherited: Values, t: Txn, overrides: Values)
    requires TxnFits(inherited, t) && OffKeys(t, overrides)
    ensures Restore(Apply(inherited, overrides), t.captured) == Apply(inherited, t.previous)
  {
    var a, b := Restore(Apply(inherited, overrides), t.captured), Apply(inherited, t.previous);
    forall k ensures Look(a, k) == Look(b, k) {
      LookRestore(Apply(inherited, overrides), t.captured, k);
      LookApply(inherited, overrides, k);
      LookApply(inherited, t.previous, k);
      if k !in t.captured { assert Look(overrides, k) == Look(t.previous, k); }
    }
    SameValues(a, b);
  }

  lemma RecoveryApplies(inherited: Values, t: Txn)
    requires TxnFits(inherited, t)
    ensures Apply(Restore(inherited, t.captured), t.previous) == Apply(inherited, t.previous)
  {
    var a, b := Apply(Restore(inherited, t.captured), t.previous), Apply(inherited, t.previous);
    forall k ensures Look(a, k) == Look(b, k) {
      LookApply(Restore(inherited, t.captured), t.previous, k);
      LookRestore(inherited, t.captured, k);
      LookApply(inherited, t.previous, k);
    }
    SameValues(a, b);
  }

  ghost predicate ChangeFits(inherited: Values, c: Change) {
    && TxnFits(inherited, c.txn) && OffKeys(c.txn, c.wanted)
    && Apply(inherited, c.wanted) == Switched(Apply(inherited, c.txn.previous), c.request)
  }

  lemma PlanCaptures(inherited: Values, s: State, req: Request, backend: string, targets: seq<string>)
    requires s.env == Apply(inherited, s.overrides)
    ensures var c := Plan(s.overrides, s.env, req, backend, targets);
      TxnFits(inherited, c.txn) && OffKeys(c.txn, c.wanted)
  {
    hide Apply;
  }

  lemma PlanFits(inherited: Values, s: State, req: Request, backend: string, targets: seq<string>)
    requires WellNamed(req) && s.env == Apply(inherited, s.overrides)
    ensures ChangeFits(inherited, Plan(s.overrides, s.env, req, backend, targets))
  {
    hide TxnFits, OffKeys, Valid, Apply;
    PlanCaptures(inherited, s, req, backend, targets);
    var c := Plan(s.overrides, s.env, req, backend, targets);
    var a, b := Apply(inherited, c.wanted), Switched(Apply(inherited, s.overrides), req);
    forall k ensures Look(a, k) == Look(b, k) {
      LookApply(inherited, c.wanted, k);
      LookApply(inherited, s.overrides, k);
    }
    SameValues(a, b);
  }

  predicate Settled(p: Process) {
    !(p.Down? || p.Recovering? || p.Recovered?)
  }

  predicate HasChange(p: Process) {
    p.Recording? || p.Writing? || p.Checking? || p.Committing? || p.RollingBack? || p.Undone?
  }

  ghost predicate EnvInv(inherited: Values, s: State) {
    && (Settled(s.process) ==> s.env == Apply(inherited, s.overrides))
    && (s.process.Recovering? ==> s.env == inherited)
    && (s.process.Recovered? ==> s.env == Restore(inherited, s.process.txn.captured))
    && (s.process.Idle? || s.process.Beginning? || s.process.Recording? ==>
         s.activation.None? || s.activation.value.status != Applying)
    && (HasChange(s.process) ==> ChangeFits(inherited, s.process.change))
    && (s.activation.Some? && (s.activation.value.status == Applying || s.activation.value.status == Awaiting) ==>
         TxnFits(inherited, s.activation.value) && OffKeys(s.activation.value, s.overrides))
    && (s.process.Beginning? ==> WellNamed(s.process.request))
    && (s.process.Superseding? || s.process.Superseded? ==> WellNamed(s.process.request))
  }

  /** Every durable write completes, and heartbeats act on the transaction still on file. */
  predicate Clean(s: State, e: Event) {
    (e.Written? ==> e.ok) && (e.Heartbeat? ==> e.ok && s.activation == Some(e.txn))
  }

  lemma TakeBackEnv(inherited: Values, s: State)
    requires Inv(s) && EnvInv(inherited, s) && TakesBack(s.process)
    ensures EnvInv(inherited, Write(s, true))
  {
    hide Apply, Restore, Undoable, WellNamed, ChangeFits;
    if s.process.Recovered? {
      RecoveryApplies(inherited, s.process.txn);
    } else if s.process.Superseding? {
      RestoreUndoes(inherited, s.process.txn, s.overrides);
    }
  }

  lemma ApplyEnv(inherited: Values, s: State)
    requires Inv(s) && EnvInv(inherited, s) && (s.process.Recording? || s.process.Writing?)
    ensures EnvInv(inherited, Write(s, true))
  {
    hide Apply, Switched, UndoKeys, WellNamed;
  }

  lemma SettleEnv(inherited: Values, s: State)
    requires Inv(s) && EnvInv(inherited, s) && (s.process.Committing? || s.process.RollingBack? || s.process.Undone?)
    ensures EnvInv(inherited, Write(s, true))
  {
    hide Apply, Restore, Switched, UndoKeys, ExecutorConfig, AllAcknowledge, WellNamed;
    if s.process.RollingBack? { RestoreUndoes(inherited, s.process.change.txn, s.overrides); }
  }

  lemma CleanWriteEnv(inherited: Values, s: State)
    requires Inv(s) && EnvInv(inherited, s) && PendingWrite(s.process)
    ensures EnvInv(inherited, Write(s, true))
  {
    hide Inv, EnvInv, Write;
    if TakesBack(s.process) {
      TakeBackEnv(inherited, s);
    } else if s.process.Recording? || s.process.Writing? {
      ApplyEnv(inherited, s);
    } else {
      SettleEnv(inherited, s);
    }
  }

  lemma HeartbeatEnv(inherited: Values, s: State, t: Txn, node: string, w: Worker)
    requires EnvInv(inherited, s) && s.process.Idle? && s.activation == Some(t) && t.status == Awaiting
    ensures EnvInv(inherited, Reconcile(s, t, node, w, true))
  {
    hide Apply, Restore, ExecutorConfig, Reports, Confirms, WellNamed, ChangeFits;
    RestoreUndoes(inherited, t, s.overrides);
  }

  lemma BegunEnv(inherited: Values, s: State, req: Request, backend: string, targets: seq<string>)
    requires EnvInv(inherited, s) && s.process == Beginning(req)
    ensures EnvInv(inherited, s.(process := Recording(Plan(s.overrides, s.env, req, backend, targets))))
  {
    hide Apply, Plan, ChangeFits;
    PlanFits(inherited, s, req, backend, targets);
  }

  lemma CleanIsSafe(inherited: Values, s: State, e: Event)
    requires Inv(s) && EnvInv(inherited, s) && Enabled(s, e) && Clean(s, e)
    ensures !Hazard(s, e)
  {
    hide Apply, Reports, Confirms, ChangeFits, ExecutorConfig, AllAcknowledge, Undoable;
  }

  lemma CleanStep(inherited: Values, s: State, e: Event)
    requires Inv(s) && EnvInv(inherited, s) && Enabled(s, e) && Clean(s, e)
    ensures EnvInv(inherited, Step(inherited, s, e)) && !Hazard(s, e)
  {
    hide Hazard, Apply, Write, Reconcile, Plan, WellNamed, ChangeFits, ExecutorConfig, AllAcknowledge, Undoable;
    CleanIsSafe(inherited, s, e);
    match e
    case Written(ok) => CleanWriteEnv(inherited, s);
    case Begun(backend, targets) => BegunEnv(inherited, s, s.process.request, backend, targets);
    case Heartbeat(t, node, w, ok) => HeartbeatEnv(inherited, s, t, node, w);
    case _ =>
  }

  lemma {:induction false} CleanReachable(inherited: Values, tr: seq<State>, es: seq<Event>, n: nat)
    requires IsRun(inherited, tr, es) && n <= |es|
    requires forall k :: 0 <= k < n ==> Clean(tr[k], es[k])
    ensures Inv(tr[n]) && EnvInv(inherited, tr[n])
  {
    hide Step, Enabled, Hazard, Clean;
    if n > 0 {
      CleanReachable(inherited, tr, es, n - 1);
      CleanStep(inherited, tr[n - 1], es[n - 1]);
      StepInv(inherited, tr[n - 1], es[n - 1]);
    }
  }

  /**
   In every run whose writes complete, with crashes anywhere: whenever no switch is under way,
   the environment is the inherited one with the overrides applied, and unless a switch awaits
   its worker, those are the confirmed overrides.
   */
  lemma AtRestIsConfirmed(inherited: Values, tr: seq<State>, es: seq<Event>, n: nat)
    requires IsRun(inherited, tr, es) && n <= |es| && tr[n].process.Idle?
    requires forall k :: 0 <= k < n ==> Clean(tr[k], es[k])
    ensures tr[n].env == Apply(inherited, tr[n].overrides)
    ensures tr[n].overrides == tr[n].confirmed || (tr[n].activation.Some? && tr[n].activation.value.status == Awaiting)
  {
    hide Apply, Step, Enabled, Clean;
    CleanReachable(inherited, tr, es, n);
  }

  // ------------------------------------------------------------------ the two hazards

  const NAME: Env := "VERTEP_LLM_PROVIDER"

  function Choose(value: string): Request {
    Request("llm", NAME, value, None)
  }

  const FRESH := State(map[], None, map[], map[], {}, Idle)

  /** A switch up to the check, then `rest`. */
  function Attempt(value: string, targets: seq<string>, rest: seq<Event>): seq<Event> {
    [SwitchAsked(Choose(value))] + ([Begun("", targets)] + ([Written(true)] + ([Written(true)] + rest)))
  }

  lemma PlayOne(s: State, e: Event, rest: seq<Event>)
    requires Enabled(s, e)
    ensures Play(map[], s, [e] + rest) == Play(map[], Step(map[], s, e), rest)
  {
    hide Enabled, Step;
    assert ([e] + rest)[1..] == rest;
  }

  lemma PlanRequest(s: State, req: Request, backend: string, targets: seq<string>)
    ensures Plan(s.overrides, s.env, req, backend, targets).request == req &&
      Plan(s.overrides, s.env, req, backend, targets).txn.targets == targets
    ensures Plan(s.overrides, s.env, req, backend, targets).txn.previous == s.overrides &&
      Plan(s.overrides, s.env, req, backend, targets).txn.slot == req.slot
    ensures Plan(s.overrides, s.env, req, backend, targets).txn.status == Applying
  {}

  lemma AskPlays(s: State, value: string, rest: seq<Event>)
    requires s.process.Idle? && (s.activation.Some? ==> s.activation.value.status != Awaiting)
    ensures Play(map[], s, [SwitchAsked(Choose(value))] + rest)
      == Play(map[], s.(process := Beginning(Choose(value))), rest)
  {
    hide Play;
    assert Valid(NAME);
    PlayOne(s, SwitchAsked(Choose(value)), rest);
  }

  lemma AttemptPlays(s: State, value: string, targets: seq<string>, rest: seq<Event>)
    requires s.process.Idle? && (s.activation.Some? ==> s.activation.value.status != Awaiting)
    ensures var c := Plan(s.overrides, s.env, Choose(value), "", targets);
      var t := s.(overrides := c.wanted, activation := Some(c.txn), env := Switched(s.env, Choose(value)),
          process := Checking(c));
      Play(map[], s, Attempt(value, targets, rest)) == Play(map[], t, rest)
  {
    hide Play, Switched, Plan;
    var s1 := s.(process := Beginning(Choose(value)));
    AskPlays(s, value, [Begun("", targets)] + ([Written(true)] + ([Written(true)] + rest)));
    hide Step, Enabled;
    SwitchPlays(s1, Plan(s.overrides, s.env, Choose(value), "", targets), "", targets, rest);
  }

  /**
   A switch whose rollback could not be written, and the next one: its rollback lands on the
   first backend, which was never confirmed.
   */
  lemma FailedRollbackIsTakenAsBaseline()
    ensures var es := Attempt("a", [], [Checked(false, [])] + ([Written(false)]
                        + Attempt("b", [], [Checked(false, [])] + ([Written(true)] + ([Written(true)] + [])))));
      var t := Play(map[], FRESH, es);
      && t.Some? && t.value.activation.Some? && t.value.activation.value.status == RolledBack
      && t.value.confirmed == map[] && t.value.overrides == map[NAME := "a"]
  {
    hide Play, UndoKeys, Restore, Switched, Attempt, Plan;
    var last := [Written(true)] + ([Written(true)] + []);
    var again := Attempt("b", [], [Checked(false, [])] + last);
    var c := Plan(FRESH.overrides, FRESH.env, Choose("a"), "", []);
    PlanRequest(FRESH, Choose("a"), "", []);
    WantsOne(FRESH, "a", []);
    var s1 := State(c.wanted, Some(c.txn), map[], Switched(map[], Choose("a")), {}, Checking(c));
    var s2 := s1.(process := RollingBack(c));
    var s3 := s2.(env := Restore(s2.env, c.txn.captured), process := Idle);
    AttemptPlays(FRESH, "a", [], [Checked(false, [])] + ([Written(false)] + again));
    FailedCheckPlays(s1, c, [Written(false)] + again);
    UnwrittenPlays(s2, c, again);
    UndoRestores(s3, Choose("b"), "", []);
    PlanRequest(s3, Choose("b"), "", []);
    var d := Plan(s3.overrides, s3.env, Choose("b"), "", []);
    var t1 := s3.(overrides := d.wanted, activation := Some(d.txn), env := Switched(s3.env, Choose("b")),
        process := Checking(d));
    AttemptPlays(s3, "b", [], [Checked(false, [])] + last);
    FailedCheckPlays(t1, d, last);
    UndonePlays(t1.(process := RollingBack(d)), d);
  }

  lemma FailedCheckPlays(s: State, c: Change, rest: seq<Event>)
    requires s.process == Checking(c)
    ensures Play(map[], s, [Checked(false, [])] + rest) == Play(map[], s.(process := RollingBack(c)), rest)
  {
    hide Play;
    PlayOne(s, Checked(false, []), rest);
  }

  lemma UnwrittenPlays(s: State, c: Change, rest: seq<Event>)
    requires s.process == RollingBack(c)
    ensures Play(map[], s, [Written(false)] + rest)
      == Play(map[], s.(env := Restore(s.env, c.txn.captured), process := Idle), rest)
  {
    hide Play, Restore;
    PlayOne(s, Written(false), rest);
  }

  lemma UndonePlays(s: State, c: Change)
    requires s.process == RollingBack(c)
    ensures var t := s.(env := Restore(s.env, c.txn.captured), overrides := UndoKeys(c));
      Play(map[], s, [Written(true)] + ([Written(true)] + [])) == Some(SetStatus(t, c.txn,
          RolledBack).(process := Idle))
  {
    hide Play, Restore, UndoKeys;
    var t := s.(env := Restore(s.env, c.txn.captured), overrides := UndoKeys(c), process := Undone(c));
    PlayOne(s, Written(true), [Written(true)] + []);
    PlayOne(t, Written(true), []);
    PlayNone(SetStatus(t, c.txn, RolledBack).(process := Idle));
  }

  /** A switch without online workers is accepted, awaits its worker, and is read by a handler. */
  lemma AwaitPlays(s: State, c: Change, rest: seq<Event>)
    requires s.process == Checking(c) && c.txn.targets == []
    ensures var t := c.txn.(status := Awaiting);
      Play(map[], s, [Checked(true, [])] + ([Written(true)] + ([Peeked] + rest)))
        == Play(map[], s.(activation := Some(t), peeked := s.peeked + {t}, process := Idle), rest)
  {
    hide Play, ExecutorConfig;
    var t := c.txn.(status := Awaiting);
    PlayOne(s, Checked(true, []), [Written(true)] + ([Peeked] + rest));
    PlayOne(s.(process := Committing(c, [])), Written(true), [Peeked] + rest);
    PlayOne(s.(activation := Some(t), process := Idle), Peeked, rest);
  }

  /** A new choice for the same slot takes the awaiting one back. */
  lemma SupersedePlays(s: State, t: Txn, req: Request, rest: seq<Event>)
    requires s.process.Idle? && s.activation == Some(t) && t.status == Awaiting && t.slot == req.slot && WellNamed(req)
    ensures Play(map[], s, [SwitchAsked(req)] + ([Written(true)] + ([Written(true)] + rest)))
      == Play(map[], s.(overrides := t.previous, env := Restore(s.env, t.captured),
                        activation := Some(t.(status := RolledBack)), process := Beginning(req)), rest)
  {
    hide Play, Restore, WellNamed;
    PlayOne(s, SwitchAsked(req), [Written(true)] + ([Written(true)] + rest));
    PlayOne(s.(process := Superseding(req, t)), Written(true), [Written(true)] + rest);
    PlayOne(s.(overrides := t.previous, env := Restore(s.env, t.captured), process := Superseded(req, t)),
        Written(true), rest);
  }

  lemma PlayNone(s: State)
    ensures Play(map[], s, []) == Some(s)
  {}

  /** What worker "n" reports once it applied the second switch, and then when it fails. */
  function Report(failed: bool): Worker {
    Worker(Some(map[NAME := "b"]), map[NAME := "b"], failed)
  }

  /** The first switch awaits its worker and is read by a handler; a second one supersedes it and is committed. */
  function StaleScript(): seq<Event> {
    Attempt("a", [],
            [Checked(true, [])] + ([Written(true)] + ([Peeked] + ([SwitchAsked(Choose("b"))]
            + ([Written(true)] + ([Written(true)] + SecondHalf()))))))
  }

  function SecondHalf(): seq<Event> {
    [Begun("", ["n"])] + ([Written(true)] + ([Written(true)]
    + ([Checked(true, [Poll(map["n" := Report(false)])])] + ([Written(true)] + []))))
  }

  /** The handler still holds the first transaction when the second switch is confirmed. */
  predicate StaleState(s: State, stale: Txn) {
    && s.process.Idle? && s.activation.Some? && s.activation.value.status == Committed
    && s.overrides == s.confirmed == map[NAME := "b"]
    && stale in s.peeked && stale.status == Awaiting && stale.previous == map[]
  }

  function Again(): seq<Event> {
    [SwitchAsked(Choose("b"))] + ([Written(true)] + ([Written(true)] + SecondHalf()))
  }

  /** The first switch awaits its worker and has been read. */
  function Awaited(c: Change): State {
    var t := c.txn.(status := Awaiting);
    State(c.wanted, Some(t), map[], Switched(map[], Choose("a")), {t}, Idle)
  }

  lemma FirstAwaits()
    ensures var c := Plan(FRESH.overrides, FRESH.env, Choose("a"), "", []);
      Play(map[], FRESH, StaleScript()) == Play(map[], Awaited(c), Again())
  {
    hide Play, Plan, Switched, SecondHalf, Attempt;
    PlanRequest(FRESH, Choose("a"), "", []);
    var c := Plan(FRESH.overrides, FRESH.env, Choose("a"), "", []);
    var s := State(c.wanted, Some(c.txn), map[], Switched(map[], Choose("a")), {}, Checking(c));
    AttemptPlays(FRESH, "a", [], [Checked(true, [])] + ([Written(true)] + ([Peeked] + Again())));
    AwaitPlays(s, c, Again());
    assert s.peeked + {c.txn.(status := Awaiting)} == {c.txn.(status := Awaiting)};
  }

  lemma FirstHalfPlays()
    ensures var c := Plan(FRESH.overrides, FRESH.env, Choose("a"), "", []);
      var t := c.txn.(status := Awaiting);
      Play(map[], FRESH, StaleScript())
        == Play(map[], State(map[], Some(t.(status := RolledBack)), map[],
                             Restore(Switched(map[], Choose("a")), c.txn.captured), {t}, Beginning(Choose("b"))),
                                 SecondHalf())
  {
    hide Play, Plan, Restore, Switched, SecondHalf, StaleScript;
    assert WellNamed(Choose("b")) by { assert Valid(NAME); }
    hide Valid;
    PlanRequest(FRESH, Choose("a"), "", []);
    FirstAwaits();
    var c := Plan(FRESH.overrides, FRESH.env, Choose("a"), "", []);
    SupersedePlays(Awaited(c), c.txn.(status := Awaiting), Choose("b"), SecondHalf());
  }

  /** The worker's report is exactly what the second switch delivers. */
  lemma Delivered(activation: Option<Txn>)
    requires activation.Some? && activation.value.status != RolledBack
    ensures ExecutorConfig(map[NAME := "b"], activation) == map[NAME := "b"]
    ensures AllAcknowledge([Poll(map["n" := Report(false)])], ["n"], map[NAME := "b"])
  {
    var p := Poll(map["n" := Report(false)]);
    assert Answers(p, "n", map[NAME := "b"]);
    assert FirstAnswer([p], "n", map[NAME := "b"], 0) == 0;
  }

  lemma SecondHalfPlays(s: State)
    requires s.overrides == map[] && s.process == Beginning(Choose("b"))
    ensures var c := Plan(s.overrides, s.env, Choose("b"), "", ["n"]);
      Play(map[], s, SecondHalf())
        == Some(s.(overrides := map[NAME := "b"], activation := Some(c.txn.(status := Committed)),
                   confirmed := map[NAME := "b"], env := Switched(s.env, Choose("b")), process := Idle))
  {
    hide Play, Switched, Plan, ExecutorConfig, AllAcknowledge, Report;
    var polls := [Poll(map["n" := Report(false)])];
    var c := Plan(s.overrides, s.env, Choose("b"), "", ["n"]);
    PlanRequest(s, Choose("b"), "", ["n"]);
    WantsOne(s, "b", ["n"]);
    var t := s.(overrides := map[NAME := "b"], activation := Some(c.txn), env := Switched(s.env, Choose("b")),
        process := Checking(c));
    SwitchPlays(s, c, "", ["n"], [Checked(true, polls)] + ([Written(true)] + []));
    Delivered(t.activation);
    CommitPlays(t, c, polls);
  }

  /** A switch from its plan to its check. */
  lemma SwitchPlays(s: State, c: Change, backend: string, targets: seq<string>, rest: seq<Event>)
    requires s.process.Beginning? && c == Plan(s.overrides, s.env, s.process.request, backend, targets)
    ensures c.request == s.process.request
    ensures Play(map[], s, [Begun(backend, targets)] + ([Written(true)] + ([Written(true)] + rest)))
      == Play(map[], s.(overrides := c.wanted, activation := Some(c.txn), env := Switched(s.env, c.request),
                        process := Checking(c)), rest)
  {
    hide Play, Switched, Plan;
    PlanRequest(s, s.process.request, backend, targets);
    PlayOne(s, Begun(backend, targets), [Written(true)] + ([Written(true)] + rest));
    PlayOne(s.(process := Recording(c)), Written(true), [Written(true)] + rest);
    PlayOne(s.(activation := Some(c.txn), process := Writing(c)), Written(true), rest);
  }

  lemma CommitPlays(s: State, c: Change, polls: seq<Poll>)
    requires s.process == Checking(c) && c.txn.targets != []
    requires AllAcknowledge(polls, c.txn.targets, ExecutorConfig(s.overrides, s.activation))
    ensures Play(map[], s, [Checked(true, polls)] + ([Written(true)] + []))
      == Some(s.(activation := Some(c.txn.(status := Committed)), confirmed := s.overrides, process := Idle))
  {
    hide Play, ExecutorConfig, AllAcknowledge;
    PlayOne(s, Checked(true, polls), [Written(true)] + []);
    PlayOne(s.(process := Committing(c, polls)), Written(true), []);
    PlayNone(s.(activation := Some(c.txn.(status := Committed)), confirmed := s.overrides, process := Idle));
  }

  lemma WantsOne(s: State, value: string, targets: seq<string>)
    requires s.overrides == map[]
    ensures Plan(s.overrides, s.env, Choose(value), "", targets).wanted == map[NAME := value]
  {}

  /**
   A heartbeat handler that read an awaiting transaction before it was superseded undoes the
   switch confirmed since: the script leads there, and one failing report then restores the
   overrides from before both switches.
   */
  lemma StaleHeartbeatUndoesConfirmed()
    ensures var stale := Plan(FRESH.overrides, FRESH.env, Choose("a"), "", []).txn.(status := Awaiting);
      var s := Play(map[], FRESH, StaleScript());
      var e := Heartbeat(stale, "n", Report(true), true);
      && s.Some? && StaleState(s.value, stale) && Enabled(s.value, e) && Hazard(s.value, e)
      && Step(map[], s.value, e).overrides == map[] && s.value.confirmed == map[NAME := "b"]
  {
    hide Play, Restore, Switched, StaleScript, SecondHalf;
    FirstHalfPlays();
    var c := Plan(FRESH.overrides, FRESH.env, Choose("a"), "", []);
    var stale := c.txn.(status := Awaiting);
    var mid := State(map[], Some(stale.(status := RolledBack)), map[],
        Restore(Switched(map[], Choose("a")), c.txn.captured), {stale}, Beginning(Choose("b")));
    SecondHalfPlays(mid);
    PlanRequest(mid, Choose("b"), "", ["n"]);
    var s := Play(map[], FRESH, StaleScript()).value;
    Delivered(s.activation);
  }
}
