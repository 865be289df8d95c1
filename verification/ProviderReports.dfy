/** What the workers must have reported before a switch is confirmed, and what one wrong report undoes. */
module ProviderReports {
  import opened Common
  import opened ProviderSwitch

  // ------------------------------------------------------------------ what a report shows

  /** What the worker's executors observe of a variable; a missing one is empty. */
  function Observed(w: Worker, k: Env): string {
    if k in w.config then w.config[k] else ""
  }

  /** The report has no error, and shows for every key the value delivered. */
  ghost predicate Shows(w: Worker, delivered: Values) {
    !w.failed && forall k :: k in delivered ==> Observed(w, k) == delivered[k]
  }

  /** Poll `p` is the first in which the worker reports the delivered revision. */
  ghost predicate FirstReport(polls: seq<Poll>, name: string, delivered: Values, p: int) {
    && 0 <= p < |polls| && name in polls[p].workers && polls[p].workers[name].revision == Some(delivered)
    && forall q :: 0 <= q < p ==>
         !(name in polls[q].workers && polls[q].workers[name].revision == Some(delivered))
  }

  /** The worker's first report of the delivered revision shows what was delivered. */
  ghost predicate Vouches(polls: seq<Poll>, name: string, delivered: Values) {
    exists p :: FirstReport(polls, name, delivered, p) && Shows(polls[p].workers[name], delivered)
  }

  /** The worker's first report of the delivered revision shows something else. */
  ghost predicate Denies(polls: seq<Poll>, name: string, delivered: Values) {
    exists p :: FirstReport(polls, name, delivered, p) && !Shows(polls[p].workers[name], delivered)
  }

  lemma ConfirmsMeaning(w: Worker, delivered: Values)
    ensures Confirms(w, delivered) <==> Shows(w, delivered)
  {}

  lemma FirstReportIsOne(polls: seq<Poll>, name: string, delivered: Values, p: int, q: int)
    requires FirstReport(polls, name, delivered, p) && FirstReport(polls, name, delivered, q)
    ensures p == q
  {}

  lemma AcknowledgesMeaning(polls: seq<Poll>, name: string, delivered: Values)
    ensures Acknowledges(polls, name, delivered) <==> Vouches(polls, name, delivered)
    ensures Contradicts(polls, name, delivered) <==> Denies(polls, name, delivered)
  {
    hide Confirms, Shows, Acknowledges, Contradicts;
    var r := FirstAnswer(polls, name, delivered, 0);
    if r < |polls| {
      ConfirmsMeaning(polls[r].workers[name], delivered);
      assert FirstReport(polls, name, delivered, r) by {
        forall q | 0 <= q < r
          ensures !(name in polls[q].workers && polls[q].workers[name].revision == Some(delivered))
        {
          assert !Answers(polls[q], name, delivered);
        }
      }
    }
    forall p | FirstReport(polls, name, delivered, p) ensures p == r {
      assert Answers(polls[p], name, delivered);
      if r < |polls| { FirstReportIsOne(polls, name, delivered, p, r); }
    }
    UnfoldAcknowledges(polls, name, delivered);
  }

  lemma UnfoldAcknowledges(polls: seq<Poll>, name: string, delivered: Values)
    ensures var r := FirstAnswer(polls, name, delivered, 0);
      && (Acknowledges(polls, name, delivered) <==> r < |polls| && Confirms(polls[r].workers[name], delivered))
      && (Contradicts(polls, name, delivered) <==> r < |polls| && !Confirms(polls[r].workers[name], delivered))
  {
    hide Confirms;
  }

  lemma AllMeaning(polls: seq<Poll>, targets: seq<string>, delivered: Values)
    ensures AllAcknowledge(polls, targets, delivered) <==>
      forall i :: 0 <= i < |targets| ==> Vouches(polls, targets[i], delivered)
  {
    hide Acknowledges, Vouches;
    forall i | 0 <= i < |targets|
      ensures Acknowledges(polls, targets[i], delivered) <==> Vouches(polls, targets[i], delivered)
    {
      AcknowledgesMeaning(polls, targets[i], delivered);
    }
  }

  // ------------------------------------------------------------------ what is delivered

  /**
   What the workers are sent: of the overrides the variables on the allow list, and, while a rolled
   back switch had workers, what their variables were before it where no override says otherwise.
   */
  lemma DeliveredMeaning(overrides: Values, activation: Option<Txn>, k: Env)
    ensures var delivered := ExecutorConfig(overrides, activation);
      var undone := activation.Some? && activation.value.status == RolledBack && activation.value.targets != [];
      Look(delivered, k) ==
        if k !in ALLOWED then None
        else if k in overrides then Some(overrides[k])
        else if undone then Look(activation.value.deliveryBefore, k) else None
  {}

  /**
   After a rolled back switch with workers each switched variable on the allow list is delivered
   again as it was: as overridden, else as the environment had it, else the backend's own default
   for the provider and nothing for an endpoint.
   */
  lemma RolledBackDelivery(s: State, req: Request, backend: string, targets: seq<string>, k: Env)
    requires targets != [] && k in ALLOWED
    requires k == req.name || (req.endpoint.Some? && k == req.endpoint.value.0)
    ensures var txn := Plan(s.overrides, s.env, req, backend, targets).txn.(status := RolledBack);
      Look(ExecutorConfig(s.overrides, Some(txn)), k) == Some(
        if k in s.overrides then s.overrides[k] else if k in s.env then s.env[k]
        else if k == req.name then backend else "")
  {
    var txn := Plan(s.overrides, s.env, req, backend, targets).txn.(status := RolledBack);
    hide ALLOWED;
    DeliveredMeaning(s.overrides, Some(txn), k);
  }

  // ------------------------------------------------------------------ confirming a switch

  /** The check passes exactly when the matrix is fine and every target vouches for what is delivered. */
  lemma CheckMeaning(inherited: Values, s: State, matrixOk: bool, polls: seq<Poll>)
    requires s.process.Checking?
    ensures var c := s.process.change;
      var vouched := forall i :: 0 <= i < |c.txn.targets| ==>
        Vouches(polls, c.txn.targets[i], ExecutorConfig(s.overrides, s.activation));
      Step(inherited, s, Checked(matrixOk, polls))
        == s.(process := if matrixOk && vouched then Committing(c, polls) else RollingBack(c))
  {
    hide AllAcknowledge, Vouches, ExecutorConfig;
    AllMeaning(polls, s.process.change.txn.targets, ExecutorConfig(s.overrides, s.activation));
  }

  /** One target whose first report of the revision shows one value otherwise, and the call rolls back. */
  lemma DifferingValueRollsBack(inherited: Values, s: State, matrixOk: bool, polls: seq<Poll>, i: nat, p: nat, k: Env)
    requires s.process.Checking? && i < |s.process.change.txn.targets|
    requires var delivered := ExecutorConfig(s.overrides, s.activation);
      && FirstReport(polls, s.process.change.txn.targets[i], delivered, p)
      && k in delivered && Observed(polls[p].workers[s.process.change.txn.targets[i]], k) != delivered[k]
    ensures Step(inherited, s, Checked(matrixOk, polls)) == s.(process := RollingBack(s.process.change))
  {
    var name, delivered := s.process.change.txn.targets[i], ExecutorConfig(s.overrides, s.activation);
    hide ExecutorConfig, Step;
    CheckMeaning(inherited, s, matrixOk, polls);
    if q :| FirstReport(polls, name, delivered, q) && Shows(polls[q].workers[name], delivered) {
      FirstReportIsOne(polls, name, delivered, p, q);
    }
    assert !Vouches(polls, name, delivered);
  }

  /**
   A heartbeat settles the awaited switch only on a report of the delivered revision: one that
   shows what was delivered confirms it, any other takes the overrides back to the previous ones.
   */
  lemma HeartbeatMeaning(inherited: Values, s: State, t: Txn, node: string, w: Worker, ok: bool)
    requires Enabled(s, Heartbeat(t, node, w, ok))
    ensures var delivered := ExecutorConfig(s.overrides, s.activation);
      Step(inherited, s, Heartbeat(t, node, w, ok)) ==
        if w.revision != Some(delivered) || !ok then s
        else if Shows(w, delivered) then
          s.(activation := Some(t.(targets := [node], status := Committed)), confirmed := s.overrides)
        else s.(overrides := t.previous, env := Restore(s.env, t.captured), process := Reverting(t, node))
  {
    hide ExecutorConfig, Restore, Confirms, Shows;
    ConfirmsMeaning(w, ExecutorConfig(s.overrides, s.activation));
  }

  predicate Carried(p: Process) {
    p.Recording? || p.Writing? || p.Checking? || p.Committing? || p.RollingBack? || p.Undone?
  }

  /** A switch being committed was vouched for by all its targets, as the files still are. */
  ghost predicate Vouched(s: State) {
    && (Carried(s.process) ==> s.process.change.txn.status == Applying)
    && (s.process.Writing? || s.process.Checking? ==> s.activation == Some(s.process.change.txn))
    && (s.process.Committing? ==>
          && s.activation == Some(s.process.change.txn)
          && forall i :: 0 <= i < |s.process.change.txn.targets| ==>
               Vouches(s.process.polls, s.process.change.txn.targets[i], ExecutorConfig(s.overrides, s.activation)))
  }

  lemma VouchedStep(inherited: Values, s: State, e: Event)
    requires Vouched(s) && Enabled(s, e)
    ensures Vouched(Step(inherited, s, e))
  {
    hide Vouches, ExecutorConfig, AllAcknowledge, Apply, Restore, Switched, UndoKeys, Confirms, Reports, Write;
    match e
    case Checked(matrixOk, polls) => CheckMeaning(inherited, s, matrixOk, polls);
    case Written(ok) => VouchedWrite(s, ok);
    case Begun(backend, targets) =>
    case Heartbeat(t, node, w, ok) =>
    case _ =>
  }

  lemma VouchedWrite(s: State, ok: bool)
    requires Vouched(s) && PendingWrite(s.process)
    ensures Vouched(Write(s, ok))
  {
    hide Vouches, ExecutorConfig, Apply, Restore, Switched, UndoKeys;
  }

  lemma {:induction false} RunVouched(inherited: Values, tr: seq<State>, es: seq<Event>, n: nat)
    requires IsRun(inherited, tr, es) && n < |tr|
    ensures Vouched(tr[n])
  {
    hide Step, Enabled, Vouched;
    if n == 0 {
      NoneVouched(tr[0]);
    } else {
      RunVouched(inherited, tr, es, n - 1);
      VouchedStep(inherited, tr[n - 1], es[n - 1]);
    }
  }

  lemma NoneVouched(s: State)
    requires Initial(s)
    ensures Vouched(s)
  {}

  /** The polls a commit goes by are those of the check that led to it. */
  lemma {:induction false} CommittingWasChecked(inherited: Values, tr: seq<State>, es: seq<Event>, n: nat)
      returns (m: nat)
    requires IsRun(inherited, tr, es) && n < |tr| && tr[n].process.Committing?
    ensures m < n && es[m] == Checked(true, tr[n].process.polls)
    ensures tr[m].process == Checking(tr[n].process.change)
  {
    hide Step, Enabled;
    assert n > 0;
    CameToCommit(inherited, tr[n - 1], es[n - 1]);
    if tr[n - 1].process == tr[n].process {
      m := CommittingWasChecked(inherited, tr, es, n - 1);
    } else {
      m := n - 1;
    }
  }

  lemma CameToCommit(inherited: Values, s: State, e: Event)
    requires Enabled(s, e) && Step(inherited, s, e).process.Committing?
    ensures var t := Step(inherited, s, e);
      t.process == s.process ||
      (e == Checked(true, t.process.polls) && s.process == Checking(t.process.change))
  {
    hide Apply, Restore, Switched, UndoKeys, AllAcknowledge, Confirms, Reports, ExecutorConfig;
  }

  /** What was delivered of the overrides: each variable on the allow list, and no other. */
  ghost predicate DeliversThese(delivered: Values, overrides: Values) {
    forall k :: Look(delivered, k) == if k in ALLOWED then Look(overrides, k) else None
  }

  /**
   In every run, hazards included: whenever the confirmed overrides change, they become those in
   force, and either a heartbeat brought a report of the delivered revision, or a check came before
   it in the same call and each of its targets, of which there is one at least, first reported the
   delivered revision; each such report without error and with every delivered value as observed.
   */
  lemma ConfirmedWasObserved(inherited: Values, tr: seq<State>, es: seq<Event>, n: nat) returns (m: nat)
    requires IsRun(inherited, tr, es) && n < |es| && tr[n + 1].confirmed != tr[n].confirmed
    ensures var s := tr[n];
      var delivered := ExecutorConfig(s.overrides, s.activation);
      && tr[n + 1].confirmed == s.overrides == tr[n + 1].overrides
      && if es[n].Heartbeat? then
           m == n && es[n].worker.revision == Some(delivered) && Shows(es[n].worker, delivered)
         else
           && m < n && es[m].Checked? && tr[m].process.Checking?
           && tr[m].process.change.txn.targets != [] && DeliversThese(delivered, s.overrides)
           && forall i :: 0 <= i < |tr[m].process.change.txn.targets| ==>
                Vouches(es[m].polls, tr[m].process.change.txn.targets[i], delivered)
  {
    hide Step, ExecutorConfig, Shows, Vouches, DeliversThese, Enabled;
    var s := tr[n];
    RunVouched(inherited, tr, es, n);
    assert Enabled(s, es[n]);
    WhoConfirms(inherited, s, es[n]);
    if es[n].Heartbeat? {
      m := n;
    } else {
      m := CommittingWasChecked(inherited, tr, es, n);
      DeliversOverrides(s);
      forall i | 0 <= i < |tr[m].process.change.txn.targets|
        ensures Vouches(es[m].polls, tr[m].process.change.txn.targets[i], ExecutorConfig(s.overrides, s.activation))
      {
        assert tr[m].process.change.txn.targets[i] == s.process.change.txn.targets[i];
      }
    }
  }

  lemma DeliversOverrides(s: State)
    requires s.activation.Some? && s.activation.value.status == Applying
    ensures DeliversThese(ExecutorConfig(s.overrides, s.activation), s.overrides)
  {
    hide ALLOWED;
  }

  /** Only a heartbeat's report or a commit confirms. */
  lemma WhoConfirms(inherited: Values, s: State, e: Event)
    requires Enabled(s, e) && Step(inherited, s, e).confirmed != s.confirmed
    ensures var t, delivered := Step(inherited, s, e), ExecutorConfig(s.overrides, s.activation);
      && t.confirmed == s.overrides == t.overrides
      && if e.Heartbeat? then e.worker.revision == Some(delivered) && Shows(e.worker, delivered)
         else s.process.Committing? && s.process.change.txn.targets != []
  {
    hide Apply, Restore, Switched, UndoKeys, AllAcknowledge, ExecutorConfig, Shows, Plan, Write, Reconcile;
    if e.Heartbeat? {
      HeartbeatMeaning(inherited, s, e.txn, e.node, e.worker, e.ok);
    } else if e.Written? {
      WhoWrites(s, e.ok);
    }
  }

  lemma WhoWrites(s: State, ok: bool)
    requires PendingWrite(s.process) && Write(s, ok).confirmed != s.confirmed
    ensures Write(s, ok).confirmed == s.overrides == Write(s, ok).overrides
    ensures s.process.Committing? && s.process.change.txn.targets != []
  {
    hide Apply, Restore, Switched, UndoKeys;
  }

  // ------------------------------------------------------------------ an awaited switch

  /**
   While a switch awaits its worker, a choice for another slot changes nothing, and one for the same
   slot first takes the awaited switch back: once its two writes complete, the overrides are the
   previous ones, every captured variable is as captured and the record says rolled back.
   */
  lemma AwaitedSwitch(inherited: Values, s: State, t: Txn, req: Request)
    requires s.process.Idle? && WellNamed(req) && s.activation == Some(t) && t.status == Awaiting
    ensures var asked := Step(inherited, s, SwitchAsked(req));
      if req.slot != t.slot then asked == s
      else
        var u := Write(Write(asked, true), true);
        && u.overrides == t.previous && u.activation == Some(t.(status := RolledBack))
        && u.confirmed == s.confirmed && u.process == Beginning(req)
        && forall k :: Look(u.env, k) == if k in t.captured then t.captured[k] else Look(s.env, k)
  {
    hide Valid;
    forall k ensures Look(Restore(s.env, t.captured), k) == if k in t.captured then t.captured[k] else Look(s.env, k) {
      LookRestore(s.env, t.captured, k);
    }
    hide Restore, WellNamed;
  }
}
