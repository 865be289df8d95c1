/** The provider switch as it is called: files and environment changed in place, write by write. */
module ProviderSwitcher {
  import opened Common
  import opened ProviderSwitch
  import opened ProviderReports
  import opened ProviderRuns

  // ------------------------------------------------------------------ a whole call

  /** What a call is told: the matrix, the workers, and which of its durable writes complete. */
  datatype CallAnswers = CallAnswers(
    refused: bool, backend: string, targets: seq<string>, matrixOk: bool, polls: seq<Poll>,
    supersedes: bool, retires: bool, records: bool, applies: bool, commits: bool, undoes: bool, finishes: bool)

  function Completes(p: Process, a: CallAnswers): bool {
    match p
    case Superseding(_, _) => a.supersedes
    case Superseded(_, _) => a.retires
    case Recording(_) => a.records
    case Writing(_) => a.applies
    case Committing(_, _) => a.commits
    case RollingBack(_) => a.undoes
    case _ => a.finishes
  }

  function NextEvent(s: State, a: CallAnswers): (e: Event)
    requires !s.process.Down? && !s.process.Idle?
    ensures Enabled(s, e)
  {
    if s.process.Beginning? then if a.refused then Refused else Begun(a.backend, a.targets)
    else if s.process.Checking? then Checked(a.matrixOk, a.polls)
    else Written(Completes(s.process, a))
  }

  function Left(p: Process): nat {
    match p
    case Superseding(_, _) => 9
    case Superseded(_, _) => 8
    case Beginning(_) => 7
    case Recording(_) => 6
    case Writing(_) => 5
    case Checking(_) => 4
    case Committing(_, _) => 3
    case RollingBack(_) => 2
    case Recovering(_) => 2
    case Undone(_) => 1
    case Recovered(_) => 1
    case Reverting(_, _) => 1
    case Down => 0
    case Idle => 0
  }

  /** The events of the call in progress, one after the other, until it returns. */
  function Drive(inherited: Values, s: State, a: CallAnswers): (t: State)
    decreases Left(s.process)
  {
    if s.process.Down? || s.process.Idle? then s
    else
      StepsDown(inherited, s, a);
      Drive(inherited, Step(inherited, s, NextEvent(s, a)), a)
  }

  /** Every call returns, and is a run of the event machine: what every step keeps, the call keeps. */
  lemma {:induction false} DriveIsRun(inherited: Values, s: State, a: CallAnswers)
      returns (tr: seq<State>, es: seq<Event>)
    requires !s.process.Down?
    ensures |tr| == |es| + 1 && tr[0] == s && tr[|es|] == Drive(inherited, s, a) && tr[|es|].process.Idle?
    ensures forall k :: 0 <= k < |es| ==> Enabled(tr[k], es[k]) && tr[k + 1] == Step(inherited, tr[k], es[k])
    decreases Left(s.process)
  {
    if s.process.Idle? {
      tr, es := [s], [];
    } else {
      var e := NextEvent(s, a);
      StepsDown(inherited, s, a);
      var tr', es' := DriveIsRun(inherited, Step(inherited, s, e), a);
      tr, es := [s] + tr', [e] + es';
      Prepended(inherited, s, e, tr', es');
    }
  }

  lemma StepsDown(inherited: Values, s: State, a: CallAnswers)
    requires !s.process.Down? && !s.process.Idle?
    ensures var t := Step(inherited, s, NextEvent(s, a)); Left(t.process) < Left(s.process) && !t.process.Down?
  {
    hide Apply, Restore, Switched, UndoKeys, ExecutorConfig, AllAcknowledge, Plan, Write;
    if !s.process.Beginning? && !s.process.Checking? { WritesDown(s, Completes(s.process, a)); }
  }

  lemma WritesDown(s: State, ok: bool)
    requires PendingWrite(s.process)
    ensures Left(Write(s, ok).process) < Left(s.process) && !Write(s, ok).process.Down?
  {
    hide Apply, Restore, Switched, UndoKeys;
  }

  lemma Prepended(inherited: Values, s: State, e: Event, tr: seq<State>, es: seq<Event>)
    requires |tr| == |es| + 1 && Enabled(s, e) && tr[0] == Step(inherited, s, e)
    requires forall k :: 0 <= k < |es| ==> Enabled(tr[k], es[k]) && tr[k + 1] == Step(inherited, tr[k], es[k])
    ensures forall k :: 0 <= k < |[e] + es| ==>
      Enabled(([s] + tr)[k], ([e] + es)[k]) && ([s] + tr)[k + 1] == Step(inherited, ([s] + tr)[k], ([e] + es)[k])
  {
    hide Step, Enabled;
    forall k | 0 <= k < |[e] + es|
      ensures Enabled(([s] + tr)[k], ([e] + es)[k])
      ensures ([s] + tr)[k + 1] == Step(inherited, ([s] + tr)[k], ([e] + es)[k])
    {
      if k > 0 { assert ([s] + tr)[k] == tr[k - 1] && ([e] + es)[k] == es[k - 1] && ([s] + tr)[k + 1] == tr[k]; }
    }
  }

  // ------------------------------------------------------------------ waiting for the workers

  datatype Verdict = Confirmed | Contradicted | TimedOut

  /** `_verify_workers`, on the registry as seen at each poll until the deadline. */
  method VerifyWorkers(targets: seq<string>, expected: Values, polls: seq<Poll>) returns (verdict: Verdict)
    ensures verdict.Confirmed? <==> forall name :: name in targets ==> Vouches(polls, name, expected)
    ensures verdict.Contradicted? <==> exists name :: name in targets && Denies(polls, name, expected)
  {
    hide Confirms, Reports, Vouches, Denies;
    forall name
      ensures Acknowledges(polls, name, expected) <==> Vouches(polls, name, expected)
      ensures Contradicts(polls, name, expected) <==> Denies(polls, name, expected)
    {
      AcknowledgesMeaning(polls, name, expected);
    }
    var pending := set name | name in targets;
    var p := 0;
    while pending != {}
      invariant p <= |polls|
      invariant forall name :: name in pending <==> name in targets && FirstAnswer(polls, name, expected, 0) >= p
      invariant forall name :: name in targets && name !in pending ==> Acknowledges(polls, name, expected)
      decreases |polls| - p
    {
      if p == |polls| { return TimedOut; }
      var todo := pending;
      while todo != {}
        invariant todo <= pending
        invariant forall name :: name in pending <==>
          name in targets && FirstAnswer(polls, name, expected, 0) >= p &&
              (name in todo || FirstAnswer(polls, name, expected, 0) > p)
        invariant forall name :: name in targets && name !in pending ==> Acknowledges(polls, name, expected)
        decreases todo
      {
        var name :| name in todo;
        todo := todo - {name};
        if name in polls[p].workers && Reports(polls[p].workers[name], expected) {
          assert Answers(polls[p], name, expected);
          if !Confirms(polls[p].workers[name], expected) {
            assert Contradicts(polls, name, expected);
            assert !Acknowledges(polls, name, expected);
            return Contradicted;
          }
          pending := pending - {name};
        } else {
          assert !Answers(polls[p], name, expected);
        }
      }
      p := p + 1;
    }
    return Confirmed;
  }

  // ------------------------------------------------------------------ the object

  class Switcher {
    const inherited: Values
    var overrides: Values
    var activation: Option<Txn>
    var confirmed: Values
    var env: Values
    var peeked: set<Txn>
    var process: Process

    function Now(): State
      reads this
    {
      State(overrides, activation, confirmed, env, peeked, process)
    }

    constructor (inherited: Values, overrides: Values)
      ensures this.inherited == inherited && Initial(Now()) && Now().overrides == overrides
    {
      this.inherited, this.overrides, confirmed, activation := inherited, overrides, overrides, None;
      env, peeked, process := inherited, {}, Down;
    }

    /** The captured variables are put back one by one. */
    method RestoreEnvironment(captured: map<Env, Option<string>>)
      modifies this`env
      ensures env == Restore(old(env), captured)
    {
      var todo := captured.Keys;
      while todo != {}
        invariant todo <= captured.Keys
        invariant forall k :: Look(env, k) == if k in captured && k !in todo then captured[k] else Look(old(env), k)
        decreases todo
      {
        var k :| k in todo;
        todo := todo - {k};
        env := if captured[k].None? then env - {k} else env[k := captured[k].value];
      }
      forall k ensures Look(env, k) == Look(Restore(old(env), captured), k) { LookRestore(old(env), captured, k); }
      SameValues(env, Restore(old(env), captured));
    }

    /** The persisted overrides with a valid name go into the environment. */
    method ApplyOverrides()
      modifies this`env
      ensures env == Apply(old(env), overrides)
    {
      var todo := overrides.Keys;
      while todo != {}
        invariant todo <= overrides.Keys
        invariant forall k :: Look(env, k) == if k in overrides && k !in todo && Valid(k) then Some(overrides[k])
          else Look(old(env), k)
        decreases todo
      {
        var k :| k in todo;
        todo := todo - {k};
        if Valid(k) { env := env[k := overrides[k]]; }
      }
      forall k ensures Look(env, k) == Look(Apply(old(env), overrides), k) { LookApply(old(env), overrides, k); }
      SameValues(env, Apply(old(env), overrides));
    }

    /** A new process starts: `apply_provider_overrides`. */
    method Restart(wrote: bool, recorded: bool)
      requires process.Down?
      modifies this
      ensures var s := Step(inherited, old(Now()), Start);
        Now() == if !s.process.Recovering? then s
                 else if !wrote then Write(s, false) else Write(Write(s, true), recorded)
    {
      env := inherited;
      process := Idle;
      if activation.Some? && activation.value.status == Applying {
        var t := activation.value;
        if !wrote { return; }
        overrides := t.previous;
        RestoreEnvironment(t.captured);
        if !recorded { return; }
        activation := Some(t.(status := RolledBack));
      }
      ApplyOverrides();
    }

    /** `_rollback` and the record after it. */
    method RollBack(c: Change, wrote: bool, recorded: bool)
      requires process == RollingBack(c)
      modifies this
      ensures Now() == var s := Write(old(Now()), wrote); if wrote then Write(s, recorded) else s
      ensures confirmed == old(confirmed)
    {
      var restored := c.wanted;
      restored := PutBack(restored, c.request.name, Look(c.txn.previous, c.request.name));
      if c.request.endpoint.Some? {
        var extra := c.request.endpoint.value.0;
        restored := PutBack(restored, extra, Look(c.txn.previous, extra));
      }
      if wrote { overrides := restored; }
      RestoreEnvironment(c.txn.captured);
      process := Idle;
      if wrote && recorded { activation := Some(c.txn.(status := RolledBack)); }
    }

    /** `switch_provider` and `_switch_provider`, from the lock to the return. */
    method SwitchProvider(req: Request, a: CallAnswers) returns (switched: bool)
      requires process.Idle? && WellNamed(req)
      modifies this
      ensures Now() == Drive(inherited, Step(inherited, old(Now()), SwitchAsked(req)), a)
      ensures if switched then SwitchedFor(Now(), req.slot, a.targets) else confirmed == old(confirmed)
    {
      hide Restore, Switched, UndoKeys, ExecutorConfig, AllAcknowledge, Drive, Plan;
      switched := false;
      if activation.Some? && activation.value.status == Awaiting {
        if activation.value.slot != req.slot {
          Returned(inherited, Now(), a);
          return;
        }
        var t := activation.value;
        ghost var s0 := Step(inherited, old(Now()), SwitchAsked(req));
        Driven(inherited, s0, a);
        if !a.supersedes {
          Returned(inherited, Now(), a);
          return;
        }
        overrides := t.previous;
        RestoreEnvironment(t.captured);
        ghost var s1 := Step(inherited, s0, NextEvent(s0, a));
        Driven(inherited, s1, a);
        if !a.retires {
          Returned(inherited, Now(), a);
          return;
        }
        activation := Some(t.(status := RolledBack));
      }
      process := Beginning(req);
      switched := Switch(req, a);
    }

    /** `_switch_provider` */
    method Switch(req: Request, a: CallAnswers) returns (switched: bool)
      requires process == Beginning(req)
      modifies this
      ensures Now() == Drive(inherited, old(Now()), a)
      ensures if switched then SwitchedFor(Now(), req.slot, a.targets) else confirmed == old(confirmed)
    {
      hide Restore, Switched, UndoKeys, ExecutorConfig, AllAcknowledge, Drive, Plan;
      switched := false;
      Driven(inherited, Now(), a);
      if a.refused {
        process := Idle;
        Returned(inherited, Now(), a);
        return;
      }
      var change := Plan(overrides, env, req, a.backend, a.targets);
      PlannedFor(overrides, env, req, a);
      process := Recording(change);
      Driven(inherited, Now(), a);
      if !a.records {
        process := Idle;
        Returned(inherited, Now(), a);
        return;
      }
      activation, process := Some(change.txn), Writing(change);
      Driven(inherited, Now(), a);
      if !a.applies {
        process := Idle;
        Returned(inherited, Now(), a);
        return;
      }
      overrides, env, process := change.wanted, Switched(env, req), Checking(change);
      switched := Verify(change, a);
    }

    /** The checks after the switch is applied, and its commit or rollback. */
    method Verify(change: Change, a: CallAnswers) returns (switched: bool)
      requires process == Checking(change) && change.txn.targets == a.targets
      modifies this
      ensures Now() == Drive(inherited, old(Now()), a)
      ensures switched <==>
        (a.matrixOk && a.commits &&
         forall name :: name in a.targets ==>
           Vouches(a.polls, name, ExecutorConfig(old(overrides), old(activation))))
      ensures if switched then SwitchedFor(Now(), change.txn.slot, a.targets) && overrides == old(overrides)
              else confirmed == old(confirmed)
    {
      hide Step, Write, NextEvent, Restore, Switched, UndoKeys, ExecutorConfig, AllAcknowledge, Drive, Plan;
      var verdict := VerifyWorkers(a.targets, ExecutorConfig(overrides, activation), a.polls);
      assert verdict.Confirmed? <==>
        AllAcknowledge(a.polls, a.targets, ExecutorConfig(old(overrides), old(activation))) by
      {
        AllMeaning(a.polls, a.targets, ExecutorConfig(overrides, activation));
        hide Vouches;
      }
      hide Vouches;
      CheckDriven(inherited, Now(), change, a);
      switched := a.matrixOk && verdict.Confirmed?;
      if switched {
        process := Committing(change, a.polls);
        switched := Commit(change, a);
      } else {
        process := RollingBack(change);
        RollBackDriven(inherited, Now(), change, a);
        RollBack(change, a.undoes, a.finishes);
      }
    }

    /** The record that commits the switch, or its rollback when that cannot be written. */
    method Commit(change: Change, a: CallAnswers) returns (switched: bool)
      requires process == Committing(change, a.polls) && change.txn.targets == a.targets
      modifies this
      ensures Now() == Drive(inherited, old(Now()), a) && switched == a.commits
      ensures if switched then SwitchedFor(Now(), change.txn.slot, a.targets) && overrides == old(overrides)
              else confirmed == old(confirmed)
    {
      hide Step, Write, NextEvent, Restore, UndoKeys, ExecutorConfig, AllAcknowledge, Drive;
      CommitDriven(inherited, Now(), change, a);
      if a.commits {
        activation := Some(change.txn.(status := if a.targets != [] then Committed else Awaiting));
        if a.targets != [] { confirmed := overrides; }
        process := Idle;
        Returned(inherited, Now(), a);
        return true;
      }
      process := RollingBack(change);
      RollBackDriven(inherited, Now(), change, a);
      RollBack(change, a.undoes, a.finishes);
      return false;
    }

    /** The refused selection is taken back, and that is recorded. */
    method Revert(t: Txn, node: string, recorded: bool)
      requires process.Idle?
      modifies this
      ensures var s := old(Now());
        Now() == Write(s.(overrides := t.previous, env := Restore(s.env, t.captured), process := Reverting(t, node)),
            recorded)
    {
      hide Restore;
      overrides := t.previous;
      RestoreEnvironment(t.captured);
      if recorded { activation := Some(t.(targets := [node], status := RolledBack)); }
    }

    /** `reconcile_provider_activation`: a heartbeat settles the switch that awaits its worker. */
    method ReconcileActivation(t: Txn, node: string, w: Worker, wrote: bool, recorded: bool)
      requires process.Idle? && t in peeked && t.status == Awaiting
      modifies this
      ensures var s := Reconcile(old(Now()), t, node, w, wrote);
        Now() == if s.process.Reverting? then Write(s, recorded) else s
      ensures Reconcile(old(Now()), t, node, w, wrote) == Step(inherited, old(Now()), Heartbeat(t, node, w, wrote))
      ensures var delivered := ExecutorConfig(old(overrides), old(activation));
        if w.revision != Some(delivered) || !wrote then Now() == old(Now())
        else if Shows(w, delivered) then
          && activation == Some(t.(targets := [node], status := Committed))
          && confirmed == old(overrides) && overrides == old(overrides)
        else
          && overrides == t.previous && confirmed == old(confirmed) && env == Restore(old(env), t.captured)
          && activation == if recorded then Some(t.(targets := [node], status := RolledBack)) else old(activation)
    {
      hide ExecutorConfig, Confirms, Restore, UndoKeys, Plan, AllAcknowledge, Begin, Ask, Shows;
      ConfirmsMeaning(w, ExecutorConfig(overrides, activation));
      var expected := ExecutorConfig(overrides, activation);
      if !Reports(w, expected) || !wrote { return; }
      if !Confirms(w, expected) {
        Revert(t, node, recorded);
      } else {
        activation := Some(t.(targets := [node], status := Committed));
        confirmed := overrides;
      }
    }
  }

  lemma Driven(inherited: Values, s: State, a: CallAnswers)
    requires !s.process.Down? && !s.process.Idle?
    ensures Drive(inherited, s, a) == Drive(inherited, Step(inherited, s, NextEvent(s, a)), a)
  {
    hide Step, NextEvent;
  }

  /** The slot's switch is on record: committed with its overrides confirmed, or awaiting a worker. */
  predicate SwitchedFor(s: State, slot: string, targets: seq<string>) {
    && s.activation.Some? && s.activation.value.slot == slot
    && if targets != [] then s.activation.value.status == Committed && s.confirmed == s.overrides
       else s.activation.value.status == Awaiting
  }

  lemma CheckDriven(inherited: Values, s: State, c: Change, a: CallAnswers)
    requires s.process == Checking(c)
    ensures Drive(inherited, s, a) == Drive(inherited, s.(process :=
      if a.matrixOk && AllAcknowledge(a.polls, c.txn.targets, ExecutorConfig(s.overrides, s.activation))
      then Committing(c, a.polls) else RollingBack(c)), a)
  {
    hide AllAcknowledge, ExecutorConfig, Drive;
    Driven(inherited, s, a);
  }

  lemma CommitDriven(inherited: Values, s: State, c: Change, a: CallAnswers)
    requires s.process == Committing(c, a.polls)
    ensures Drive(inherited, s, a) == Drive(inherited,
      if !a.commits then s.(process := RollingBack(c))
      else s.(activation := Some(c.txn.(status := if c.txn.targets != [] then Committed else Awaiting)),
              confirmed := if c.txn.targets != [] then s.overrides else s.confirmed, process := Idle), a)
  {
    hide Drive;
    Driven(inherited, s, a);
  }

  lemma RollBackDriven(inherited: Values, s: State, c: Change, a: CallAnswers)
    requires s.process == RollingBack(c)
    ensures Drive(inherited, s, a) == if a.undoes then Write(Write(s, true), a.finishes) else Write(s, false)
  {
    hide Drive, Restore, UndoKeys;
    Driven(inherited, s, a);
    var t := Write(s, a.undoes);
    if a.undoes {
      Driven(inherited, t, a);
      Returned(inherited, Write(t, a.finishes), a);
    } else {
      Returned(inherited, t, a);
    }
  }

  lemma Returned(inherited: Values, s: State, a: CallAnswers)
    requires s.process.Idle?
    ensures Drive(inherited, s, a) == s
  {}

  lemma PlannedFor(overrides: Values, env: Values, req: Request, a: CallAnswers)
    ensures var c := Plan(overrides, env, req, a.backend, a.targets);
      c.request == req && c.txn.targets == a.targets && c.txn.slot == req.slot
  {}

  // ------------------------------------------------------------------ all or nothing

  /** The overrides with the request's one or two values set. */
  function Wanted(overrides: Values, req: Request): Values {
    var wanted := overrides[req.name := req.value];
    if req.endpoint.Some? then wanted[req.endpoint.value.0 := req.endpoint.value.1] else wanted
  }

  lemma PlanWants(s: State, req: Request, backend: string, targets: seq<string>)
    ensures var c := Plan(s.overrides, s.env, req, backend, targets);
      && c.wanted == Wanted(s.overrides, req) && c.request == req && c.txn.previous == s.overrides
      && c.txn.targets == targets && c.txn.slot == req.slot && c.txn.status == Applying
  {}

  /** Putting back what was captured undoes the switch of the environment. */
  lemma EnvironmentUndone(s: State, req: Request, backend: string, targets: seq<string>)
    ensures Restore(Switched(s.env, req), Plan(s.overrides, s.env, req, backend, targets).txn.captured) == s.env
  {
    var captured := Plan(s.overrides, s.env, req, backend, targets).txn.captured;
    var e := Restore(Switched(s.env, req), captured);
    forall k ensures Look(e, k) == Look(s.env, k) {
      LookRestore(Switched(s.env, req), captured, k);
    }
    SameValues(e, s.env);
  }

  /** The state after a switch whose check came out as `passed`. */
  ghost predicate AllOrNothing(s: State, t: State, req: Request, targets: seq<string>, passed: bool) {
    && t.process.Idle? && t.activation.Some? && t.activation.value.slot == req.slot
    && t.activation.value.previous == s.overrides
    && if passed then
         && t.overrides == Wanted(s.overrides, req) && t.env == Switched(s.env, req)
         && t.activation.value.status == (if targets != [] then Committed else Awaiting)
         && t.confirmed == if targets != [] then t.overrides else s.confirmed
       else
         && t.overrides == s.overrides && t.env == s.env && t.confirmed == s.confirmed
         && t.activation.value.status == RolledBack
  }

  /**
   A switch whose writes complete does all or nothing: if the matrix is fine and every target first
   reports the delivered revision with just the values delivered, the overrides and the environment
   are the wanted ones and on record; otherwise both are exactly as they were before the call.
   */
  lemma SwitchIsAllOrNothing(inherited: Values, s: State, req: Request, a: CallAnswers)
    requires s.process == Beginning(req) && !a.refused
    requires a.records && a.applies && a.commits && a.undoes && a.finishes
    ensures var wanted := Wanted(s.overrides, req);
      var txn := Plan(s.overrides, s.env, req, a.backend, a.targets).txn;
      AllOrNothing(s, Drive(inherited, s, a), req, a.targets,
        a.matrixOk && forall name :: name in a.targets ==> Vouches(a.polls, name, ExecutorConfig(wanted, Some(txn))))
  {
    hide Drive, Plan, Restore, Switched, UndoKeys, Wanted, ExecutorConfig, AllAcknowledge, Vouches, AllOrNothing;
    var c := Plan(s.overrides, s.env, req, a.backend, a.targets);
    PlanWants(s, req, a.backend, a.targets);
    var s1 := s.(process := Recording(c));
    var s2 := s1.(activation := Some(c.txn), process := Writing(c));
    var s3 := s2.(overrides := c.wanted, env := Switched(s.env, req), process := Checking(c));
    Driven(inherited, s, a);
    Driven(inherited, s1, a);
    Driven(inherited, s2, a);
    CheckDriven(inherited, s3, c, a);
    AllMeaning(a.polls, a.targets, ExecutorConfig(s3.overrides, s3.activation));
    hide Step, Write, NextEvent;
    if a.matrixOk && AllAcknowledge(a.polls, a.targets, ExecutorConfig(s3.overrides, s3.activation)) {
      CommittedCall(inherited, s, s3.(process := Committing(c, a.polls)), c, a);
    } else {
      UndoneCall(inherited, s, s3.(process := RollingBack(c)), c, a);
    }
  }

  lemma CommittedCall(inherited: Values, s: State, t: State, c: Change, a: CallAnswers)
    requires t.process == Committing(c, a.polls) && a.commits && c.txn.previous == s.overrides
    requires c.txn.targets == a.targets && c.txn.slot == c.request.slot
    requires t.overrides == Wanted(s.overrides, c.request) && t.env == Switched(s.env, c.request)
    requires t.confirmed == s.confirmed
    ensures AllOrNothing(s, Drive(inherited, t, a), c.request, a.targets, true)
  {
    hide Drive, Wanted, Switched;
    CommitDriven(inherited, t, c, a);
    Returned(inherited, t.(activation := Some(c.txn.(status := if a.targets != [] then Committed else Awaiting)),
        confirmed := if a.targets != [] then t.overrides else t.confirmed, process := Idle), a);
  }

  lemma UndoneCall(inherited: Values, s: State, t: State, c: Change, a: CallAnswers)
    requires t.process == RollingBack(c) && a.undoes && a.finishes
    requires c == Plan(s.overrides, s.env, c.request, a.backend, a.targets)
    requires t.env == Switched(s.env, c.request) && t.confirmed == s.confirmed
    ensures AllOrNothing(s, Drive(inherited, t, a), c.request, a.targets, false)
  {
    hide Drive, Plan, Wanted, Switched, Restore, UndoKeys;
    PlanWants(s, c.request, a.backend, a.targets);
    UndoRestores(s, c.request, a.backend, a.targets);
    EnvironmentUndone(s, c.request, a.backend, a.targets);
    RollBackDriven(inherited, t, c, a);
  }
}
