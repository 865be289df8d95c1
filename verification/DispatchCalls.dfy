/** Which worker is given a task, whose result is accepted and whose lease is renewed. */
module DispatchCalls {
  import opened Common
  import opened Dispatch

  // ------------------------------------------------------------------ accepting and renewing

  /**
   A result is accepted exactly when the task is leased under this id to this very worker, the
   lease has not expired, and the worker is registered and was heard from in the last 45 seconds.
   */
  lemma AcceptedExactly(s: Pool, task: string, worker: string, lease: nat, now: int)
    ensures var (t, ok) := Step(s, Accepting(task, worker, lease, now));
      && (ok <==>
            && task in s.leases && s.leases[task].worker == worker && s.leases[task].id == lease
            && s.leases[task].expires > now
            && worker in s.workers && now - s.workers[worker].heartbeat <= 45)
      && t == s.(leases := if ok then s.leases - {task} else s.leases, clock := now)
  {}

  /** A renewal is granted exactly to the worker and id of an unexpired lease, and moves its expiry. */
  lemma RenewedExactly(s: Pool, task: string, worker: string, lease: nat, now: int)
    ensures var (t, ok) := Step(s, Renewing(task, worker, lease, now));
      && (ok <==>
            && task in s.leases && s.leases[task].worker == worker && s.leases[task].id == lease
            && s.leases[task].expires > now)
      && t == s.(leases := if ok then s.leases[task := Lease(worker, now + s.duration, lease)] else s.leases,
                 clock := now)
  {}

  // ------------------------------------------------------------------ assigning

  /**
   The worker can take the task: registered and heard from in the last 45 seconds, reachable by its
   transport if it has one, without a live lease and not busy, with every capability required, the
   very version of the module wanted, and resources enough.
   */
  ghost predicate CanTake(s: Pool, id: string, task: Task, reachable: set<string>, now: int) {
    && id in s.workers && now - s.workers[id].heartbeat <= 45
    && (id in s.transports ==> id in reachable)
    && (forall k :: k in s.leases && s.leases[k].worker == id ==> s.leases[k].expires <= now)
    && !s.workers[id].resources.busy
    && (forall c :: c in task.capabilities ==> c in s.workers[id].capabilities)
    && (task.capabilities == {} ==> task.kind in s.workers[id].capabilities)
    && (task.wanted.Some? ==>
         var modules := s.workers[id].resources.modules;
         match task.wanted.value.1
         case Some(version) => task.wanted.value.0 in modules && modules[task.wanted.value.0] == version
         case None => task.wanted.value.0 !in modules)
    && s.workers[id].resources.cpu >= task.minCpu && s.workers[id].resources.ram >= task.minRam
    && (task.vram.Some? ==> s.workers[id].resources.vram >= task.vram.value)
  }

  lemma EligibleMeaning(s: Pool, id: string, task: Task, reachable: set<string>, now: int)
    ensures Eligible(s, id, task, reachable, now) <==> CanTake(s, id, task, reachable, now)
  {}

  /** The first of the workers, in registration order, that can take the task. */
  ghost predicate FirstThatCan(s: Pool, i: int, task: Task, reachable: set<string>, now: int) {
    && 0 <= i < |s.order| && CanTake(s, s.order[i], task, reachable, now)
    && forall j :: 0 <= j < i ==> !CanTake(s, s.order[j], task, reachable, now)
  }

  lemma {:induction false} CandidatesMeaning(s: Pool, n: nat, task: Task, reachable: set<string>, now: int)
    requires n <= |s.order|
    ensures var c := Candidates(s, s.order[..n], task, reachable, now);
      && (c == [] <==> forall i :: 0 <= i < n ==> !CanTake(s, s.order[i], task, reachable, now))
      && (c != [] ==> exists i :: i < n && FirstThatCan(s, i, task, reachable, now) && c[0] == s.order[i])
  {
    hide Eligible, CanTake;
    if n > 0 {
      CandidatesMeaning(s, n - 1, task, reachable, now);
      assert s.order[..n][..n - 1] == s.order[..n - 1];
      EligibleMeaning(s, s.order[n - 1], task, reachable, now);
      if Candidates(s, s.order[..n - 1], task, reachable, now) == [] &&
         CanTake(s, s.order[n - 1], task, reachable, now) {
        assert FirstThatCan(s, n - 1, task, reachable, now);
      }
    }
  }

  ghost predicate SomeoneCan(s: Pool, task: Task, reachable: set<string>, now: int) {
    exists i :: 0 <= i < |s.order| && CanTake(s, s.order[i], task, reachable, now)
  }

  /**
   A task is assigned exactly when it has no live lease and some worker can take it; then the first
   such worker holds it under a new id for the lease's duration, and counts as heard from now.
   */
  lemma AssignedExactly(s: Pool, task: Task, reachable: set<string>, now: int)
    ensures var (t, ok) := Step(s, Assigning(task, reachable, now));
      && (ok <==>
            && (task.id in s.leases ==> s.leases[task.id].expires <= now)
            && SomeoneCan(s, task, reachable, now))
      && (!ok ==> t == s.(clock := now))
      && (ok ==> exists i ::
            && 0 <= i < |s.order| && FirstThatCan(s, i, task, reachable, now) && s.order[i] in s.workers
            && t == s.(leases := s.leases[task.id := Lease(s.order[i], now + s.duration, s.issued)],
                       workers := s.workers[s.order[i] := s.workers[s.order[i]].(heartbeat := now)],
                       issued := s.issued + 1, clock := now))
  {
    hide CanTake, Candidates, FirstThatCan, SomeoneCan, Eligible;
    var i := ChosenFirst(s, task, reachable, now);
  }

  /** The first candidate is the first worker that can, and there is one if any worker can. */
  lemma ChosenFirst(s: Pool, task: Task, reachable: set<string>, now: int) returns (i: int)
    ensures var c := Candidates(s, s.order, task, reachable, now);
      && (c != [] <==> SomeoneCan(s, task, reachable, now))
      && (c != [] ==>
            && 0 <= i < |s.order| && FirstThatCan(s, i, task, reachable, now) && c[0] == s.order[i]
            && s.order[i] in s.workers)
  {
    hide CanTake, Candidates;
    CandidatesMeaning(s, |s.order|, task, reachable, now);
    assert s.order[..|s.order|] == s.order;
    var c := Candidates(s, s.order, task, reachable, now);
    if c != [] {
      i :| i < |s.order| && FirstThatCan(s, i, task, reachable, now) && c[0] == s.order[i];
      CanIsRegistered(s, s.order[i], task, reachable, now);
    } else {
      i := 0;
    }
  }

  lemma CanIsRegistered(s: Pool, id: string, task: Task, reachable: set<string>, now: int)
    requires CanTake(s, id, task, reachable, now)
    ensures id in s.workers
  {}

  /** A submission keeps the assignment exactly when it was made and its worker's transport took the task. */
  lemma SubmittedExactly(s: Pool, task: Task, reachable: set<string>, sent: bool, now: int)
    ensures var (t, ok) := Step(s, Submitting(task, reachable, sent, now));
      var given := Step(s, Assigning(task, reachable, now));
      && (ok <==>
            given.1 && sent && task.id in given.0.leases && given.0.leases[task.id].worker in s.transports)
      && t == if given.1 && !ok then given.0.(leases := given.0.leases - {task.id}) else given.0
  {
    hide Assign;
    AssignLeases(s, task, reachable, now);
  }

  // ------------------------------------------------------------------ whose result it is

  /** This call gave the task to the worker under the id. */
  predicate GivenBy(s: Pool, e: Event, task: string, worker: string, lease: nat) {
    && (e.Assigning? || e.Submitting?) && e.task.id == task && Step(s, e).1
    && task in Step(s, e).0.leases
    && Step(s, e).0.leases[task].worker == worker && Step(s, e).0.leases[task].id == lease
  }

  /** A lease was there before the call, for the same worker under the same id, or the call gave it. */
  lemma LeaseComesFrom(s: Pool, e: Event, t: string)
    requires t in Step(s, e).0.leases
    ensures var lease := Step(s, e).0.leases[t];
      || GivenBy(s, e, t, lease.worker, lease.id)
      || (t in s.leases && s.leases[t].worker == lease.worker && s.leases[t].id == lease.id)
  {
    hide Assign, Sweep, Without, Owns;
    match e
    case Assigning(task, reachable, now) => AssignLeases(s, task, reachable, now);
    case Submitting(task, reachable, sent, now) => AssignLeases(s, task, reachable, now);
    case Unregistering(id, sweep, faulty, now) => SweepShrinks(s.leases, id, sweep, faulty);
    case _ =>
  }

  lemma {:induction false} LeaseWasGiven(tr: seq<Pool>, es: seq<Event>, n: nat, t: string) returns (m: nat)
    requires IsRun(tr, es) && n < |tr| && t in tr[n].leases
    ensures m < n && GivenBy(tr[m], es[m], t, tr[n].leases[t].worker, tr[n].leases[t].id)
  {
    hide Step, GivenBy, Sensible;
    assert n > 0;
    LeaseComesFrom(tr[n - 1], es[n - 1], t);
    if GivenBy(tr[n - 1], es[n - 1], t, tr[n].leases[t].worker, tr[n].leases[t].id) {
      m := n - 1;
    } else {
      m := LeaseWasGiven(tr, es, n - 1, t);
    }
  }

  /**
   In every run an accepted result comes from the worker the task was given to: an earlier assign
   or submit gave this very task to this very worker under this very id.
   */
  lemma AcceptedWasGiven(tr: seq<Pool>, es: seq<Event>, n: nat) returns (m: nat)
    requires IsRun(tr, es) && n < |es| && es[n].Accepting? && Step(tr[n], es[n]).1
    ensures m < n && GivenBy(tr[m], es[m], es[n].name, es[n].worker, es[n].lease)
  {
    var e := es[n];
    AcceptedExactly(tr[n], e.name, e.worker, e.lease, e.now);
    hide Step, GivenBy;
    m := LeaseWasGiven(tr, es, n, e.name);
  }

  /** Nobody else's renewal ever succeeds either. */
  lemma RenewedWasGiven(tr: seq<Pool>, es: seq<Event>, n: nat) returns (m: nat)
    requires IsRun(tr, es) && n < |es| && es[n].Renewing? && Step(tr[n], es[n]).1
    ensures m < n && GivenBy(tr[m], es[m], es[n].name, es[n].worker, es[n].lease)
  {
    var e := es[n];
    RenewedExactly(tr[n], e.name, e.worker, e.lease, e.now);
    hide Step, GivenBy;
    m := LeaseWasGiven(tr, es, n, e.name);
  }

  // ------------------------------------------------------------------ the registry

  /** Leaving the order is done worker by worker, and keeps the others in their places. */
  lemma {:induction false} WithoutJoins(a: seq<string>, b: seq<string>, id: string)
    ensures Without(a + b, id) == Without(a, id) + Without(b, id)
    ensures forall x :: Without([x], id) == if x == id then [] else [x]
  {
    if a == [] {
      assert [] + b == b;
    } else {
      assert (a + b)[1..] == a[1..] + b;
      WithoutJoins(a[1..], b, id);
    }
  }

  /**
   Registering gives a worker the capabilities and resources named and counts it as heard from; a
   new one comes last in order. A heartbeat moves only its own time, and a transport is taken only
   for a registered worker; neither gives, moves nor revokes any lease.
   */
  lemma RegistryMeaning(s: Pool, id: string, capabilities: set<string>, resources: Resources, now: int)
    ensures var r := Step(s, Registering(id, capabilities, resources, now)).0;
      && r == s.(workers := s.workers[id := Worker(capabilities, resources, now)], order := r.order, clock := now)
      && r.order == if id in s.workers then s.order else s.order + [id]
    ensures var b := Step(s, Beating(id, now)).0;
      && b == s.(workers := b.workers, clock := now) && b.workers.Keys == s.workers.Keys
      && forall w :: w in s.workers ==>
           b.workers[w] == if w == id then s.workers[w].(heartbeat := now) else s.workers[w]
    ensures Step(s, Attaching(id, now)).0
      == s.(transports := if id in s.workers then s.transports + {id} else s.transports, clock := now)
  {}
}
