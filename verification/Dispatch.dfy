/**
 The lease dispatcher of core/dispatcher.py: tasks are leased to registered workers, leases
 expire, are renewed, revoked or fulfilled, and late results are fenced out.
 */
module Dispatch {
  import opened Common

  datatype Resources = Resources(busy: bool, modules: map<string, string>, cpu: int, ram: int, vram: int)

  datatype Worker = Worker(capabilities: set<string>, resources: Resources, heartbeat: int)

  datatype Lease = Lease(worker: string, expires: int, id: nat)

  datatype Task = Task(
    id: string, kind: string, capabilities: set<string>, vram: Option<int>,
    wanted: Option<(string, Option<string>)>, minCpu: int, minRam: int)

  /**
   The dispatcher's tables. `order` is the registry's insertion order, `issued` the number of
   lease ids drawn so far (an id is never drawn twice) and `clock` the time of the last call.
   */
  datatype Pool = Pool(
    order: seq<string>, workers: map<string, Worker>, leases: map<string, Lease>,
    transports: set<string>, duration: int, issued: nat, clock: int)

  const HEARTBEAT_LIMIT := 45

  predicate Live(l: Lease, now: int) {
    l.expires > now
  }

  predicate Holds(s: Pool, worker: string, now: int) {
    exists t :: t in s.leases && s.leases[t].worker == worker && Live(s.leases[t], now)
  }

  function Required(task: Task): set<string> {
    if task.capabilities == {} then {task.kind} else task.capabilities
  }

  /** The checks of `_find_candidates`; `reachable` are the transports that answer. */
  predicate Eligible(s: Pool, id: string, task: Task, reachable: set<string>, now: int) {
    && id in s.workers
    && (id in s.transports ==> id in reachable)
    && now - s.workers[id].heartbeat <= HEARTBEAT_LIMIT
    && !Holds(s, id, now)
    && Required(task) <= s.workers[id].capabilities
    && var r := s.workers[id].resources;
    && !r.busy
    && (task.wanted.Some? ==>
          var (name, version) := task.wanted.value;
          version == if name in r.modules then Some(r.modules[name]) else None)
    && r.cpu >= task.minCpu && r.ram >= task.minRam
    && (task.vram.Some? ==> r.vram >= task.vram.value)
  }

  function Candidates(s: Pool, ids: seq<string>, task: Task, reachable: set<string>, now: int): (c: seq<string>)
    ensures forall id :: id in c ==> id in ids && Eligible(s, id, task, reachable, now)
  {
    if ids == [] then []
    else
      var rest := Candidates(s, ids[..|ids| - 1], task, reachable, now);
      if Eligible(s, ids[|ids| - 1], task, reachable, now) then rest + [ids[|ids| - 1]] else rest
  }

  // ------------------------------------------------------------------ operations

  /** `_assign_task`: the new tables and whether the task was accepted. */
  function Assign(s: Pool, task: Task, reachable: set<string>, now: int): (Pool, bool) {
    var t := s.(clock := now);
    if task.id in s.leases && Live(s.leases[task.id], now) then (t, false)
    else
      var c := Candidates(s, s.order, task, reachable, now);
      if c == [] then (t, false)
      else
        assert c[0] in c;
        (t.(leases := s.leases[task.id := Lease(c[0], now + s.duration, s.issued)],
            workers := s.workers[c[0] := s.workers[c[0]].(heartbeat := now)],
            issued := s.issued + 1), true)
  }

  function Revoke(s: Pool, task: string, now: int): Pool {
    s.(leases := s.leases - {task}, clock := now)
  }

  /** `submit_task`: assign, then send; `sent` says whether the transport took the task. */
  function Submit(s: Pool, task: Task, reachable: set<string>, sent: bool, now: int): (Pool, bool) {
    var (t, accepted) := Assign(s, task, reachable, now);
    if !accepted then (t, false)
    else if t.leases[task.id].worker !in s.transports || !sent then (Revoke(t, task.id, now), false)
    else (t, true)
  }

  predicate Owns(s: Pool, task: string, worker: string, lease: nat, now: int) {
    && task in s.leases && worker in s.workers
    && s.leases[task].worker == worker && s.leases[task].id == lease
    && Live(s.leases[task], now) && now - s.workers[worker].heartbeat <= HEARTBEAT_LIMIT
  }

  function Accept(s: Pool, task: string, worker: string, lease: nat, now: int): (Pool, bool) {
    if Owns(s, task, worker, lease, now) then (Revoke(s, task, now), true) else (s.(clock := now), false)
  }

  predicate Renewable(s: Pool, task: string, worker: string, lease: nat, now: int) {
    task in s.leases && s.leases[task].worker == worker && s.leases[task].id == lease && Live(s.leases[task], now)
  }

  function Renew(s: Pool, task: string, worker: string, lease: nat, now: int): (Pool, bool) {
    if Renewable(s, task, worker, lease, now)
    then (s.(leases := s.leases[task := s.leases[task].(expires := now + s.duration)], clock := now), true)
    else (s.(clock := now), false)
  }

  function Register(s: Pool, id: string, capabilities: set<string>, resources: Resources, now: int): Pool {
    s.(workers := s.workers[id := Worker(capabilities, resources, now)],
       order := if id in s.workers then s.order else s.order + [id], clock := now)
  }

  function Without(ids: seq<string>, id: string): seq<string> {
    if ids == [] then []
    else if ids[0] == id then Without(ids[1..], id) else [ids[0]] + Without(ids[1..], id)
  }

  /**
   The revocation loop of `unregister_node`. `sweep` is the order in which the lease table is
   walked; when the transport's cancel raises for a task in `faulty`, the loop is abandoned.
   */
  function Sweep(leases: map<string, Lease>, id: string, sweep: seq<string>, faulty: set<string>): map<string, Lease> {
    if sweep == [] then leases
    else
      var t := sweep[0];
      if t !in leases || leases[t].worker != id then Sweep(leases, id, sweep[1..], faulty)
      else if t in faulty then leases - {t}
      else Sweep(leases - {t}, id, sweep[1..], faulty)
  }

  function Unregister(s: Pool, id: string, sweep: seq<string>, faulty: set<string>, now: int): Pool {
    s.(workers := s.workers - {id}, order := Without(s.order, id),
       leases := Sweep(s.leases, id, sweep, faulty), clock := now)
  }

  function Beat(s: Pool, id: string, now: int): Pool {
    if id in s.workers then s.(workers := s.workers[id := s.workers[id].(heartbeat := now)], clock := now)
    else s.(clock := now)
  }

  function Attach(s: Pool, id: string, now: int): Pool {
    if id in s.workers then s.(transports := s.transports + {id}, clock := now) else s.(clock := now)
  }

  datatype Event =
    | Registering(id: string, capabilities: set<string>, resources: Resources, now: int)
    | Unregistering(id: string, sweep: seq<string>, faulty: set<string>, now: int)
    | Beating(id: string, now: int)
    | Attaching(id: string, now: int)
    | Assigning(task: Task, reachable: set<string>, now: int)
    | Submitting(task: Task, reachable: set<string>, sent: bool, now: int)
    | Accepting(name: string, worker: string, lease: nat, now: int)
    | Renewing(name: string, worker: string, lease: nat, now: int)
    | Revoking(name: string, now: int)

  function Step(s: Pool, e: Event): (Pool, bool) {
    match e
    case Registering(id, capabilities, resources, now) => (Register(s, id, capabilities, resources, now), true)
    case Unregistering(id, sweep, faulty, now) => (Unregister(s, id, sweep, faulty, now), true)
    case Beating(id, now) => (Beat(s, id, now), true)
    case Attaching(id, now) => (Attach(s, id, now), true)
    case Assigning(task, reachable, now) => Assign(s, task, reachable, now)
    case Submitting(task, reachable, sent, now) => Submit(s, task, reachable, sent, now)
    case Accepting(name, worker, lease, now) => Accept(s, name, worker, lease, now)
    case Renewing(name, worker, lease, now) => Renew(s, name, worker, lease, now)
    case Revoking(name, now) => (Revoke(s, name, now), name in s.leases)
  }

  /** The clock never runs backwards, and a sweep walks the whole lease table, each lease once. */
  ghost predicate Sensible(s: Pool, e: Event) {
    && e.now >= s.clock
    && (e.Unregistering? ==>
          && (forall i, j :: 0 <= i < j < |e.sweep| ==> e.sweep[i] != e.sweep[j])
          && (forall t :: t in s.leases <==> t in e.sweep))
  }

  // ------------------------------------------------------------------ the invariant

  ghost predicate Inv(s: Pool) {
    && (forall t :: t in s.leases ==> s.leases[t].id < s.issued)
    && (forall t, u :: t in s.leases && u in s.leases && t != u ==>
          && s.leases[t].id != s.leases[u].id
          && (s.leases[t].worker == s.leases[u].worker ==> !Live(s.leases[t], s.clock) || !Live(s.leases[u], s.clock)))
  }

  /** Every lease is held by a registered worker. */
  ghost predicate Staffed(s: Pool) {
    forall t :: t in s.leases ==> s.leases[t].worker in s.workers
  }

  /** The registry's order lists registered workers only. */
  ghost predicate Listed(s: Pool) {
    forall id :: id in s.order ==> id in s.workers
  }

  lemma {:induction false} WithoutMeaning(ids: seq<string>, id: string)
    ensures forall x :: x in Without(ids, id) <==> x in ids && x != id
  {
    if ids != [] { WithoutMeaning(ids[1..], id); }
  }

  lemma ListedStep(s: Pool, e: Event)
    requires Listed(s)
    ensures Listed(Step(s, e).0)
  {
    hide Candidates, Sweep, Owns;
    if e.Unregistering? { WithoutMeaning(s.order, e.id); }
  }

  lemma {:induction false} SweepShrinks(leases: map<string, Lease>, id: string, sweep: seq<string>, faulty: set<string>)
    ensures var r := Sweep(leases, id, sweep, faulty);
      forall t :: t in r ==> t in leases && r[t] == leases[t]
  {
    if sweep != [] {
      var t := sweep[0];
      if t in leases && leases[t].worker == id {
        if t !in faulty { SweepShrinks(leases - {t}, id, sweep[1..], faulty); }
      } else {
        SweepShrinks(leases, id, sweep[1..], faulty);
      }
    }
  }

  /** A table with some leases removed, at a later time, keeps the invariant. */
  lemma ShrinkKeepsInv(s: Pool, t: Pool)
    requires Inv(s) && s.clock <= t.clock && s.issued <= t.issued
    requires forall k :: k in t.leases ==> k in s.leases && t.leases[k] == s.leases[k]
    ensures Inv(t)
  {}

  lemma AssignInv(s: Pool, task: Task, reachable: set<string>, now: int)
    requires Inv(s) && now >= s.clock
    ensures Inv(Assign(s, task, reachable, now).0) && Assign(s, task, reachable, now).0.clock == now
  {
    var (t, accepted) := Assign(s, task, reachable, now);
    if accepted {
      var c := Candidates(s, s.order, task, reachable, now);
      assert c[0] in c;
      assert Eligible(s, c[0], task, reachable, now);
      hide Eligible, Candidates;
      forall u | u in t.leases && u != task.id && t.leases[u].worker == c[0]
        ensures !Live(t.leases[u], now)
      {
        assert u in s.leases && s.leases[u].worker == c[0];
      }
    } else {
      ShrinkKeepsInv(s, t);
    }
  }

  lemma SubmitInv(s: Pool, task: Task, reachable: set<string>, sent: bool, now: int)
    requires Inv(s) && now >= s.clock
    ensures Inv(Submit(s, task, reachable, sent, now).0)
  {
    hide Assign;
    AssignInv(s, task, reachable, now);
    var m, t := Assign(s, task, reachable, now).0, Submit(s, task, reachable, sent, now).0;
    if t != m { ShrinkKeepsInv(m, t); }
  }

  /** Every call keeps the invariant: unique lease ids, and at most one live lease per worker. */
  lemma StepInv(s: Pool, e: Event)
    requires Inv(s) && Sensible(s, e)
    ensures Inv(Step(s, e).0)
  {
    hide Assign, Owns, Without, Sweep, Submit;
    var t := Step(s, e).0;
    match e
    case Assigning(task, reachable, now) => AssignInv(s, task, reachable, now);
    case Submitting(task, reachable, sent, now) => SubmitInv(s, task, reachable, sent, now);
    case Unregistering(id, sweep, faulty, now) =>
      SweepShrinks(s.leases, id, sweep, faulty);
      ShrinkKeepsInv(s, t);
    case Renewing(name, worker, lease, now) =>
    case _ => ShrinkKeepsInv(s, t);
  }

  // ------------------------------------------------------------------ runs

  function Empty(duration: int, start: int): Pool {
    Pool([], map[], map[], {}, duration, 0, start)
  }

  ghost predicate IsRun(tr: seq<Pool>, es: seq<Event>) {
    && |tr| == |es| + 1 && tr[0] == Empty(tr[0].duration, tr[0].clock)
    && forall k :: 0 <= k < |es| ==> Sensible(tr[k], es[k]) && tr[k + 1] == Step(tr[k], es[k]).0
  }

  lemma {:induction false} Reachable(tr: seq<Pool>, es: seq<Event>, n: nat)
    requires IsRun(tr, es) && n < |tr|
    ensures Inv(tr[n]) && Listed(tr[n])
  {
    hide Step;
    if n > 0 {
      Reachable(tr, es, n - 1);
      StepInv(tr[n - 1], es[n - 1]);
      ListedStep(tr[n - 1], es[n - 1]);
    }
  }

  /** In every run, at any time from the last call on, two live leases never share a worker. */
  lemma LiveLeasesDistinctWorkers(tr: seq<Pool>, es: seq<Event>, n: nat, t: string, u: string, now: int)
    requires IsRun(tr, es) && n < |tr| && now >= tr[n].clock
    requires t in tr[n].leases && u in tr[n].leases && t != u
    requires Live(tr[n].leases[t], now) && Live(tr[n].leases[u], now)
    ensures tr[n].leases[t].worker != tr[n].leases[u].worker
    ensures tr[n].leases[t].id != tr[n].leases[u].id
  {
    hide IsRun;
    Reachable(tr, es, n);
  }

  // ------------------------------------------------------------------ lease ids die for good

  /** The id was issued and no lease that carries it is live any more. */
  ghost predicate Dead(s: Pool, lease: nat) {
    lease < s.issued && forall t :: t in s.leases && s.leases[t].id == lease ==> !Live(s.leases[t], s.clock)
  }

  lemma AssignLeases(s: Pool, task: Task, reachable: set<string>, now: int)
    ensures var (t, accepted) := Assign(s, task, reachable, now);
      && t.clock == now && t.transports == s.transports
      && (!accepted ==> t.leases == s.leases && t.issued == s.issued)
      && (accepted ==>
            && t.issued == s.issued + 1 && task.id in t.leases
            && t.leases == s.leases[task.id := t.leases[task.id]]
            && t.leases[task.id].id == s.issued && t.leases[task.id].expires == now + s.duration
            && t.leases[task.id].worker in s.workers && !Holds(s, t.leases[task.id].worker, now)
            && (task.id in s.leases ==> !Live(s.leases[task.id], now)))
  {
    var c := Candidates(s, s.order, task, reachable, now);
    if c != [] { assert c[0] in c; }
    hide Candidates;
  }

  lemma DeadStep(s: Pool, e: Event, lease: nat)
    requires Inv(s) && Sensible(s, e) && Dead(s, lease)
    ensures Dead(Step(s, e).0, lease)
    ensures e.Accepting? && e.lease == lease ==> !Step(s, e).1
    ensures e.Renewing? && e.lease == lease ==> !Step(s, e).1
  {
    hide Assign, Sweep, Without, Inv;
    match e
    case Assigning(task, reachable, now) => AssignLeases(s, task, reachable, now);
    case Submitting(task, reachable, sent, now) => AssignLeases(s, task, reachable, now);
    case Unregistering(id, sweep, faulty, now) => SweepShrinks(s.leases, id, sweep, faulty);
    case _ =>
  }

  lemma {:induction false} DeadForever(tr: seq<Pool>, es: seq<Event>, m: nat, n: nat, lease: nat)
    requires IsRun(tr, es) && m <= n < |tr| && Dead(tr[m], lease)
    ensures Dead(tr[n], lease)
    decreases n - m
  {
    hide Step, Dead;
    if m < n {
      DeadForever(tr, es, m, n - 1, lease);
      Reachable(tr, es, n - 1);
      DeadStep(tr[n - 1], es[n - 1], lease);
    }
  }

  /** No cancel raised before the sweep came to this lease. */
  predicate Reached(leases: map<string, Lease>, id: string, sweep: seq<string>, faulty: set<string>, t: string) {
    forall i, j :: 0 <= i < j < |sweep| && sweep[j] == t ==>
      !(sweep[i] in leases && leases[sweep[i]].worker == id && sweep[i] in faulty)
  }

  /** Exactly which leases of the departed worker the sweep revokes: those it reaches. */
  lemma {:induction false} SweepReaches(leases: map<string, Lease>, id: string, sweep: seq<string>,
      faulty: set<string>, t: string)
    requires t in leases && leases[t].worker == id && t in sweep
    requires forall i, j :: 0 <= i < j < |sweep| ==> sweep[i] != sweep[j]
    ensures t !in Sweep(leases, id, sweep, faulty) <==> Reached(leases, id, sweep, faulty, t)
  {
    var u, rest := sweep[0], sweep[1..];
    assert sweep == [u] + rest;
    if u == t {
      SweepShrinks(leases - {t}, id, rest, faulty);
    } else {
      var j :| 0 <= j < |sweep| && sweep[j] == t;
      assert rest[j - 1] == t;
      if u in leases && leases[u].worker == id && u in faulty {
        assert !Reached(leases, id, sweep, faulty, t);
      } else {
        var fewer := if u in leases && leases[u].worker == id then leases - {u} else leases;
        SweepReaches(fewer, id, rest, faulty, t);
        ReachedLater(leases, fewer, id, sweep, faulty, t);
      }
    }
  }

  lemma ReachedLater(leases: map<string, Lease>, fewer: map<string, Lease>, id: string, sweep: seq<string>,
      faulty: set<string>, t: string)
    requires sweep != [] && (fewer == leases || fewer == leases - {sweep[0]})
    requires !(sweep[0] in leases && leases[sweep[0]].worker == id && sweep[0] in faulty)
    requires forall i, j :: 0 <= i < j < |sweep| ==> sweep[i] != sweep[j]
    ensures Reached(fewer, id, sweep[1..], faulty, t) <==> Reached(leases, id, sweep, faulty, t)
  {
    var rest := sweep[1..];
    if Reached(fewer, id, rest, faulty, t) {
      forall i, j | 0 <= i < j < |sweep| && sweep[j] == t
        ensures !(sweep[i] in leases && leases[sweep[i]].worker == id && sweep[i] in faulty)
      {
        if i > 0 { assert rest[i - 1] == sweep[i] && rest[j - 1] == t; }
      }
    }
    if Reached(leases, id, sweep, faulty, t) {
      forall i, j | 0 <= i < j < |rest| && rest[j] == t
        ensures !(rest[i] in fewer && fewer[rest[i]].worker == id && rest[i] in faulty)
      {
        assert sweep[i + 1] == rest[i] && sweep[j + 1] == t;
      }
    }
  }

  /** A lease id dies when it is accepted, revoked, replaced, swept with its worker, or the clock passes its expiry. */
  lemma BecomesDead(s: Pool, e: Event, t: string)
    requires Inv(s) && Sensible(s, e) && t in s.leases
    requires || (e.Accepting? && e.name == t && Step(s, e).1)
             || (e.Revoking? && e.name == t)
             || (e.Assigning? && e.task.id == t && Step(s, e).1)
             || (e.Submitting? && e.task.id == t && Step(s, e).1)
             || (e.Unregistering? && s.leases[t].worker == e.id && Reached(s.leases, e.id, e.sweep, e.faulty, t))
             || s.leases[t].expires <= s.clock
             || (!e.Renewing? && s.leases[t].expires <= e.now)
    ensures Dead(Step(s, e).0, s.leases[t].id)
  {
    hide Assign, Sweep, Without, Reached;
    match e
    case Assigning(task, reachable, now) => AssignLeases(s, task, reachable, now);
    case Submitting(task, reachable, sent, now) => AssignLeases(s, task, reachable, now);
    case Unregistering(id, sweep, faulty, now) =>
      SweepShrinks(s.leases, id, sweep, faulty);
      if s.leases[t].worker == id { SweepReaches(s.leases, id, sweep, faulty, t); }
    case _ =>
  }

  /** Once dead, no later accept or renew with that id ever succeeds. */
  lemma DeadIdNeverServes(tr: seq<Pool>, es: seq<Event>, m: nat, n: nat, lease: nat)
    requires IsRun(tr, es) && m <= n < |es| && Dead(tr[m], lease)
    requires (es[n].Accepting? || es[n].Renewing?) && es[n].lease == lease
    ensures !Step(tr[n], es[n]).1
  {
    hide Dead;
    DeadForever(tr, es, m, n, lease);
    Reachable(tr, es, n);
    DeadStep(tr[n], es[n], lease);
  }

  /** Each lease id yields at most one accepted result in any run. */
  lemma AtMostOneResult(tr: seq<Pool>, es: seq<Event>, m: nat, n: nat)
    requires IsRun(tr, es) && m < |es| && n < |es|
    requires es[m].Accepting? && es[n].Accepting? && es[m].lease == es[n].lease
    requires Step(tr[m], es[m]).1 && Step(tr[n], es[n]).1
    ensures m == n
  {
    if m < n {
      AcceptedOnce(tr, es, m, n);
    } else if n < m {
      AcceptedOnce(tr, es, n, m);
    }
  }

  lemma AcceptedOnce(tr: seq<Pool>, es: seq<Event>, m: nat, n: nat)
    requires IsRun(tr, es) && m < n < |es|
    requires es[m].Accepting? && es[n].Accepting? && es[m].lease == es[n].lease
    requires Step(tr[m], es[m]).1
    ensures !Step(tr[n], es[n]).1
  {
    hide Dead, Inv;
    Reachable(tr, es, m);
    BecomesDead(tr[m], es[m], es[m].name);
    DeadIdNeverServes(tr, es, m + 1, n, es[m].lease);
  }

  /** A submit that does not succeed leaves no new lease; one that succeeds adds exactly its own. */
  lemma FailedSubmitLeavesNothing(s: Pool, task: Task, reachable: set<string>, sent: bool, now: int)
    ensures var (t, ok) := Submit(s, task, reachable, sent, now);
      && (!ok ==> forall k :: k in t.leases ==> k in s.leases && t.leases[k] == s.leases[k])
      && (!ok ==> t.leases == s.leases || t.leases == s.leases - {task.id})
      && (ok ==> task.id in t.leases && t.leases == s.leases[task.id := t.leases[task.id]]
                 && t.leases[task.id].id == s.issued && t.leases[task.id].worker in s.transports)
  {
    hide Assign;
    AssignLeases(s, task, reachable, now);
    var (m, accepted) := Assign(s, task, reachable, now);
    assert accepted ==> m.leases - {task.id} == s.leases - {task.id};
  }

  // ------------------------------------------------------------------ registered workers

  /** Some lease of the worker is walked after one whose cancel raised. */
  ghost predicate Abandons(leases: map<string, Lease>, id: string, sweep: seq<string>, faulty: set<string>) {
    exists i, j :: 0 <= i < j < |sweep|
      && sweep[i] in leases && leases[sweep[i]].worker == id && sweep[i] in faulty
      && sweep[j] in leases && leases[sweep[j]].worker == id
  }

  ghost predicate Leftover(leases: map<string, Lease>, id: string) {
    exists t :: t in leases && leases[t].worker == id
  }

  /**
   Exactly when the revocation loop misses a lease of the departed worker: when cancelling an
   earlier one of its leases raised.
   */
  lemma {:induction false} SweepExact(leases: map<string, Lease>, id: string, sweep: seq<string>, faulty: set<string>)
    requires forall i, j :: 0 <= i < j < |sweep| ==> sweep[i] != sweep[j]
    requires forall t :: t in leases && leases[t].worker == id ==> t in sweep
    ensures var r := Sweep(leases, id, sweep, faulty);
      && (forall t :: t in leases && leases[t].worker != id ==> t in r)
      && (Leftover(r, id) <==> Abandons(leases, id, sweep, faulty))
  {
    hide Abandons, Leftover;
    if sweep == [] {
      NothingToSweep(leases, id, faulty);
    } else {
      var t, rest := sweep[0], sweep[1..];
      assert sweep == [t] + rest;
      if t in leases && leases[t].worker == id && t in faulty {
        FaultAbandons(leases, id, sweep, faulty);
      } else {
        var fewer := if t in leases && leases[t].worker == id then leases - {t} else leases;
        SweepExact(fewer, id, rest, faulty);
        assert Sweep(leases, id, sweep, faulty) == Sweep(fewer, id, rest, faulty);
        if Abandons(fewer, id, rest, faulty) { AbandonsLater(fewer, leases, id, sweep, faulty); }
        if Abandons(leases, id, sweep, faulty) { AbandonsEarlier(fewer, leases, id, sweep, faulty); }
      }
    }
  }

  lemma NothingToSweep(leases: map<string, Lease>, id: string, faulty: set<string>)
    requires forall t :: t in leases ==> leases[t].worker != id
    ensures !Leftover(leases, id) && !Abandons(leases, id, [], faulty)
  {}

  lemma FaultAbandons(leases: map<string, Lease>, id: string, sweep: seq<string>, faulty: set<string>)
    requires sweep != [] && sweep[0] in leases && leases[sweep[0]].worker == id && sweep[0] in faulty
    requires forall i, j :: 0 <= i < j < |sweep| ==> sweep[i] != sweep[j]
    requires forall t :: t in leases && leases[t].worker == id ==> t in sweep
    ensures Leftover(leases - {sweep[0]}, id) <==> Abandons(leases, id, sweep, faulty)
  {
    var t, r := sweep[0], leases - {sweep[0]};
    if Leftover(r, id) {
      var u :| u in r && r[u].worker == id;
      var j :| 0 <= j < |sweep| && sweep[j] == u;
      assert 0 < j && sweep[0] in faulty;
    }
    if Abandons(leases, id, sweep, faulty) {
      var i, j :| 0 <= i < j < |sweep| && sweep[i] in leases && leases[sweep[i]].worker == id && sweep[i] in faulty
                  && sweep[j] in leases && leases[sweep[j]].worker == id;
      assert sweep[j] in r;
    }
  }

  lemma AbandonsLater(fewer: map<string, Lease>, leases: map<string, Lease>, id: string, sweep: seq<string>,
      faulty: set<string>)
    requires sweep != [] && (fewer == leases || fewer == leases - {sweep[0]})
    requires Abandons(fewer, id, sweep[1..], faulty)
    ensures Abandons(leases, id, sweep, faulty)
  {
    var rest := sweep[1..];
    var i, j :| 0 <= i < j < |rest| && rest[i] in fewer && fewer[rest[i]].worker == id && rest[i] in faulty
                && rest[j] in fewer && fewer[rest[j]].worker == id;
    assert sweep[i + 1] == rest[i] && sweep[j + 1] == rest[j];
  }

  lemma AbandonsEarlier(fewer: map<string, Lease>, leases: map<string, Lease>, id: string, sweep: seq<string>,
      faulty: set<string>)
    requires forall i, j :: 0 <= i < j < |sweep| ==> sweep[i] != sweep[j]
    requires sweep != [] && (fewer == leases || fewer == leases - {sweep[0]})
    requires sweep[0] !in leases || leases[sweep[0]].worker != id || sweep[0] !in faulty
    requires Abandons(leases, id, sweep, faulty)
    ensures Abandons(fewer, id, sweep[1..], faulty)
  {
    var rest := sweep[1..];
    var i, j :| 0 <= i < j < |sweep| && sweep[i] in leases && leases[sweep[i]].worker == id && sweep[i] in faulty
                && sweep[j] in leases && leases[sweep[j]].worker == id;
    assert i > 0 && rest[i - 1] == sweep[i] && rest[j - 1] == sweep[j];
  }

  /** Every call keeps every lease with a registered worker, except exactly an abandoned sweep. */
  lemma StaffedStep(s: Pool, e: Event)
    requires Staffed(s) && Sensible(s, e)
    ensures Staffed(Step(s, e).0) <==>
      !(e.Unregistering? && Abandons(s.leases, e.id, e.sweep, e.faulty))
  {
    hide Assign, Sweep, Without, Owns, Abandons;
    match e
    case Assigning(task, reachable, now) =>
      AssignLeases(s, task, reachable, now);
      AssignWorkers(s, task, reachable, now);
    case Submitting(task, reachable, sent, now) =>
      AssignLeases(s, task, reachable, now);
      AssignWorkers(s, task, reachable, now);
    case Unregistering(id, sweep, faulty, now) =>
      SweepExact(s.leases, id, sweep, faulty);
      SweepShrinks(s.leases, id, sweep, faulty);
    case _ =>
  }

  lemma AssignWorkers(s: Pool, task: Task, reachable: set<string>, now: int)
    ensures Assign(s, task, reachable, now).0.workers.Keys == s.workers.Keys
  {
    var c := Candidates(s, s.order, task, reachable, now);
    if c != [] { assert c[0] in c; }
    hide Candidates;
  }

  /** In every run whose cancellations do not raise, every lease's worker is registered. */
  lemma {:induction false} LeasesAreStaffed(tr: seq<Pool>, es: seq<Event>, n: nat)
    requires IsRun(tr, es) && n < |tr|
    requires forall k :: 0 <= k < n && es[k].Unregistering? ==> es[k].faulty == {}
    ensures Staffed(tr[n])
  {
    hide Step, Staffed;
    if n == 0 {
      assert tr[0].leases == map[];
      NoLeases(tr[0]);
    } else {
      LeasesAreStaffed(tr, es, n - 1);
      StaffedStep(tr[n - 1], es[n - 1]);
    }
  }

  lemma NoLeases(s: Pool)
    requires s.leases == map[]
    ensures Staffed(s)
  {}

  /**
   A run in which an abandoned sweep leaves a lease of a departed worker: an expired lease of the
   worker is still on the table when it leaves, and cancelling that one raises. What is left can
   be renewed, though never accepted.
   */
  lemma OrphanIsRenewed() returns (tr: seq<Pool>, es: seq<Event>)
    ensures IsRun(tr, es) && |es| == 7 && Staffed(tr[5])
    ensures es[5].Unregistering? && es[5].id in tr[5].transports && !Staffed(tr[6])
    ensures es[6].Renewing? && Step(tr[6], es[6]).1
    ensures es[6].name in tr[7].leases && Live(tr[7].leases[es[6].name], 80)
    ensures !Accept(tr[7], es[6].name, es[6].worker, es[6].lease, 80).1
  {
    hide Step, Sensible, Staffed, Lone, Accept;
    var first, both := map["old" := Lease("w", 60, 0)], map["old" := Lease("w", 60, 0), "new" := Lease("w", 121, 1)];
    var s0, s1 := Empty(60, 0), Lone(map[], 0, 0);
    var s2, s3, s4 := Lone(first, 1, 0), Lone(first, 1, 61), Lone(both, 2, 61);
    es := [Registering("w", {"x"}, FREE, 0), Attaching("w", 0), Assigning(Wants("old"), {"w"}, 0), Beating("w", 61),
           Assigning(Wants("new"), {"w"}, 61), Unregistering("w", ["old", "new"], {"old"}, 70),
               Renewing("new", "w", 1, 80)];
    Opening();
    Assigned(map[], 0, 0, "old");
    Beaten(first, 1, 0, 61);
    Assigned(first, 1, 61, "new");
    assert first["new" := Lease("w", 121, 1)] == both;
    Orphaned(s4);
    var s5 := Step(s4, es[5]).0;
    tr := [s0, Step(s0, es[0]).0, s1, s2, s3, s4, s5, Step(s5, es[6]).0];
  }

  lemma Opening()
    ensures var first, second := Registering("w", {"x"}, FREE, 0), Attaching("w", 0);
      && Sensible(Empty(60, 0), first) && Sensible(Step(Empty(60, 0), first).0, second)
      && Step(Step(Empty(60, 0), first).0, second).0 == Lone(map[], 0, 0)
  {
    assert [] + ["w"] == ["w"];
  }

  lemma Beaten(leases: map<string, Lease>, issued: nat, now: int, later: int)
    requires now <= later
    ensures Sensible(Lone(leases, issued, now), Beating("w", later))
    ensures Step(Lone(leases, issued, now), Beating("w", later)).0 == Lone(leases, issued, later)
  {}

  /** The sweep stops at the expired lease, and the live one is left without a worker. */
  lemma Orphaned(s: Pool)
    requires s == Lone(map["old" := Lease("w", 60, 0), "new" := Lease("w", 121, 1)], 2, 61)
    ensures var leave, renew := Unregistering("w", ["old", "new"], {"old"}, 70), Renewing("new", "w", 1, 80);
      var t := Step(s, leave).0;
      var u := Step(t, renew).0;
      && Staffed(s) && Sensible(s, leave) && "w" in s.transports && !Staffed(t) && Sensible(t, renew) &&
          Step(t, renew).1
      && "new" in u.leases && Live(u.leases["new"], 80) && !Accept(u, "new", "w", 1, 80).1
  {
    hide Sweep, Without;
    SweepStops(s.leases);
    assert ["old", "new"][0] == "old" && ["old", "new"][1] == "new";
    assert s.leases["new"].worker == "w";
    var t := Step(s, Unregistering("w", ["old", "new"], {"old"}, 70)).0;
    assert "new" in t.leases && t.leases["new"] == Lease("w", 121, 1);
  }

  const FREE := Resources(false, map[], 0, 0, 0)

  /** One worker with a transport, heard from just now. */
  function Lone(leases: map<string, Lease>, issued: nat, now: int): Pool {
    Pool(["w"], map["w" := Worker({"x"}, FREE, now)], leases, {"w"}, 60, issued, now)
  }

  lemma Assigned(leases: map<string, Lease>, issued: nat, now: int, id: string)
    requires id !in leases && forall t :: t in leases ==> !Live(leases[t], now)
    ensures var s := Lone(leases, issued, now);
      && Sensible(s, Assigning(Wants(id), {"w"}, now))
      && Step(s, Assigning(Wants(id), {"w"}, now)).0 == Lone(leases[id := Lease("w", now + 60, issued)], issued + 1,
          now)
  {
    var s := Lone(leases, issued, now);
    OnlyWorker(s, id, now);
    assert s.workers["w" := s.workers["w"].(heartbeat := now)] == s.workers;
  }

  function Wants(id: string): Task {
    Task(id, "x", {}, None, None, 0, 0)
  }

  lemma SweepStops(leases: map<string, Lease>)
    requires leases.Keys == {"old", "new"} && leases["old"].worker == "w"
    ensures Sweep(leases, "w", ["old", "new"], {"old"}) == map["new" := leases["new"]]
  {
    assert ["old", "new"][0] == "old";
    assert leases - {"old"} == map["new" := leases["new"]];
  }

  lemma OnlyWorker(s: Pool, id: string, now: int)
    requires s.order == ["w"] && Eligible(s, "w", Wants(id), {"w"}, now)
    ensures Candidates(s, s.order, Wants(id), {"w"}, now) == ["w"]
  {}

  // ------------------------------------------------------------------ the dispatcher object

  class Dispatcher {
    var order: seq<string>
    var workers: map<string, Worker>
    var leases: map<string, Lease>
    var transports: set<string>
    const duration: int
    var issued: nat
    ghost var clock: int

    ghost function State(): Pool
      reads this
    {
      Pool(order, workers, leases, transports, duration, issued, clock)
    }

    constructor (duration: int, ghost start: int)
      ensures State() == Empty(duration, start)
    {
      this.duration := duration;
      order, workers, leases, transports, issued, clock := [], map[], map[], {}, 0, start;
    }

    method RegisterNode(id: string, capabilities: set<string>, resources: Resources, now: int)
      modifies this
      ensures State() == Step(old(State()), Registering(id, capabilities, resources, now)).0
    {
      if id !in workers { order := order + [id]; }
      workers := workers[id := Worker(capabilities, resources, now)];
      clock := now;
    }

    method RegisterTransport(id: string, now: int) returns (ok: bool)
      modifies this
      ensures State() == Step(old(State()), Attaching(id, now)).0 && ok == old(id in workers)
    {
      clock := now;
      if id !in workers { return false; }
      transports := transports + {id};
      return true;
    }

    method Heartbeat(id: string, now: int)
      modifies this
      ensures State() == Step(old(State()), Beating(id, now)).0
    {
      if id in workers { workers := workers[id := workers[id].(heartbeat := now)]; }
      clock := now;
    }

    /** `_find_candidates` */
    method FindCandidates(task: Task, reachable: set<string>, now: int) returns (candidates: seq<string>)
      requires Listed(State())
      ensures candidates == Candidates(State(), order, task, reachable, now)
    {
      hide Holds, Required;
      candidates := [];
      var i := 0;
      while i < |order|
        invariant i <= |order|
        invariant candidates == Candidates(State(), order[..i], task, reachable, now)
      {
        var id := order[i];
        assert order[..i + 1][..i] == order[..i];
        i := i + 1;
        var info := workers[id];
        if id in transports && id !in reachable { continue; }
        if now - info.heartbeat > HEARTBEAT_LIMIT { continue; }
        if Busy(id, now) { continue; }
        if !(Required(task) <= info.capabilities) { continue; }
        if info.resources.busy { continue; }
        if task.wanted.Some? {
          var (name, version) := task.wanted.value;
          var present := if name in info.resources.modules then Some(info.resources.modules[name]) else None;
          if present != version { continue; }
        }
        if info.resources.cpu < task.minCpu || info.resources.ram < task.minRam { continue; }
        if task.vram.Some? && info.resources.vram < task.vram.value { continue; }
        candidates := candidates + [id];
      }
      assert order[..i] == order;
    }

    predicate Busy(id: string, now: int)
      reads this
      ensures Busy(id, now) == Holds(State(), id, now)
    {
      exists t :: t in leases && leases[t].worker == id && leases[t].expires > now
    }

    method AssignTask(task: Task, reachable: set<string>, now: int) returns (worker: Option<string>)
      requires Listed(State())
      modifies this
      ensures (State(), worker.Some?) == Step(old(State()), Assigning(task, reachable, now))
      ensures worker.Some? ==> task.id in leases && leases[task.id].worker == worker.value
    {
      hide Candidates, Eligible;
      if task.id in leases && leases[task.id].expires > now {
        clock := now;
        return None;
      }
      var candidates := FindCandidates(task, reachable, now);
      clock := now;
      if candidates == [] { return None; }
      var best := candidates[0];
      assert best in candidates;
      leases := leases[task.id := Lease(best, now + duration, issued)];
      issued := issued + 1;
      assert best in order by { CandidateListed(old(State()), order, task, reachable, now, best); }
      workers := workers[best := workers[best].(heartbeat := now)];
      return Some(best);
    }

    method RevokeTask(task: string, now: int) returns (revoked: bool)
      modifies this
      ensures (State(), revoked) == Step(old(State()), Revoking(task, now))
    {
      clock := now;
      revoked := task in leases;
      leases := leases - {task};
    }

    method SubmitTask(task: Task, reachable: set<string>, sent: bool, now: int) returns (ok: bool)
      requires Listed(State())
      modifies this
      ensures (State(), ok) == Step(old(State()), Submitting(task, reachable, sent, now))
    {
      hide Assign;
      AssignLeases(State(), task, reachable, now);
      var worker := AssignTask(task, reachable, now);
      if worker.None? { return false; }
      if worker.value !in transports {
        var _ := RevokeTask(task.id, now);
        return false;
      }
      if !sent {
        var _ := RevokeTask(task.id, now);
        return false;
      }
      return true;
    }

    predicate OwnsLease(task: string, worker: string, lease: nat, now: int)
      reads this
      ensures OwnsLease(task, worker, lease, now) == Owns(State(), task, worker, lease, now)
    {
      task in leases && worker in workers && leases[task].worker == worker && leases[task].id == lease
        && leases[task].expires > now && now - workers[worker].heartbeat <= HEARTBEAT_LIMIT
    }

    method AcceptResult(task: string, worker: string, lease: nat, now: int) returns (ok: bool)
      modifies this
      ensures (State(), ok) == Step(old(State()), Accepting(task, worker, lease, now))
      ensures ok <==> old(
        && task in leases && leases[task].worker == worker && leases[task].id == lease && leases[task].expires > now
        && worker in workers && now - workers[worker].heartbeat <= 45)
      ensures leases == if ok then old(leases) - {task} else old(leases)
    {
      ok := OwnsLease(task, worker, lease, now);
      clock := now;
      if ok { leases := leases - {task}; }
    }

    method RenewLease(task: string, worker: string, lease: nat, now: int) returns (ok: bool)
      modifies this
      ensures (State(), ok) == Step(old(State()), Renewing(task, worker, lease, now))
      ensures ok <==> old(
        task in leases && leases[task].worker == worker && leases[task].id == lease && leases[task].expires > now)
      ensures leases == if ok then old(leases)[task := Lease(worker, now + duration, lease)] else old(leases)
    {
      clock := now;
      if task !in leases || leases[task].worker != worker || leases[task].id != lease || leases[task].expires <= now {
        return false;
      }
      leases := leases[task := leases[task].(expires := now + duration)];
      return true;
    }

    /** `unregister_node`; returns false when a transport's cancel raised. */
    method UnregisterNode(id: string, sweep: seq<string>, faulty: set<string>, now: int) returns (completed: bool)
      modifies this
      ensures State() == Step(old(State()), Unregistering(id, sweep, faulty, now)).0
      ensures completed <==> forall t :: t in sweep && t in faulty && t in old(leases) ==> old(leases)[t].worker != id
    {
      hide Assign, Submit, Owns, Without, Candidates;
      workers := workers - {id};
      order := Without(order, id);
      clock := now;
      var i := 0;
      while i < |sweep|
        invariant i <= |sweep|
        invariant State() == old(State()).(workers := workers, order := order, clock := now, leases := leases)
        invariant workers == old(workers) - {id} && order == Without(old(order), id)
        invariant Sweep(leases, id, sweep[i..], faulty) == Sweep(old(leases), id, sweep, faulty)
        invariant forall t :: t in sweep[..i] && t in faulty && t in old(leases) ==> old(leases)[t].worker != id
        invariant forall t :: t in leases <==> t in old(leases) && (t !in sweep[..i] || old(leases)[t].worker != id)
        invariant forall t :: t in leases ==> leases[t] == old(leases)[t]
      {
        var t := sweep[i];
        assert sweep[i..][1..] == sweep[i + 1..];
        if t in leases && leases[t].worker == id {
          leases := leases - {t};
          if t in faulty { return false; }
        }
        i := i + 1;
      }
      return true;
    }
  }

  lemma CandidateListed(s: Pool, ids: seq<string>, task: Task, reachable: set<string>, now: int, id: string)
    requires id in Candidates(s, ids, task, reachable, now)
    ensures id in ids
  {}
}
