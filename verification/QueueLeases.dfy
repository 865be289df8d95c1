/** What a lease promises over a run of the task queue, and that a task stays what it was enqueued as. */
module QueueLeases {
  import opened Common
  import opened TaskQueue

  // ------------------------------------------------------------------ the lease

  /** The call gives the task away, takes it back or moves its deadline. */
  predicate Touches(e: Event, id: nat) {
    || (e.Acking? && e.id == id) || (e.Renewing? && e.id == id) || (e.Discarding? && e.id == id)
    || (e.Releasing? && e.id == id) || (e.Burying? && e.item.id == id)
  }

  lemma InflightStays(q: Queue, e: Event, id: nat)
    requires Inv(q) && Sensible(q, e) && id in q.inflight && !Touches(e, id)
    requires e.Sweeping? ==> e.now < q.inflight[id].until
    ensures var r := Step(q, e);
      id in r.inflight && r.inflight[id] == q.inflight[id]
    ensures e.Claiming? ==> Claim(q, e.now, e.lease).1 != Some(q.inflight[id].item)
  {
    hide Push, WithoutId, FirstDead, Sorted, DistinctIds, DistinctDead, ReleaseAll;
    match e
    case Claiming(now, lease) =>
      var i := FirstDue(q.ready, now);
      assert Places(q, id) <= 1;
      if i < |q.ready| { assert q.ready[i].item.id != id; }
    case Sweeping(now, ids) => SweepMovesExactly(q, now, ids);
    case _ =>
  }

  /** The call is a claim that returned this task under a lease of this length. */
  predicate Claims(q: Queue, e: Event, item: Item, lease: int) {
    e.Claiming? && e.lease == lease && Claim(q, e.now, lease).1 == Some(item)
  }

  /**
   A claimed task is its claimer's until the lease runs out: as long as nobody acknowledges,
   renews, discards, releases or buries it, and no sweep comes at the claim's time plus the lease or
   later, it stays in flight with that very deadline, and no other claim returns it.
   */
  lemma {:induction false} LeaseKeepsTask(tr: seq<Queue>, es: seq<Event>, m: nat, n: nat, item: Item, lease: int)
    requires IsRun(tr, es) && m < n <= |es| && Claims(tr[m], es[m], item, lease)
    requires forall k :: m < k < n ==> !Touches(es[k], item.id)
    requires forall k :: m < k < n && es[k].Sweeping? ==> es[k].now < es[m].now + lease
    ensures item.id in tr[n].inflight && tr[n].inflight[item.id] == Held(es[m].now + lease, item)
    ensures forall k :: m < k < n ==> !(es[k].Claiming? && Claims(tr[k], es[k], item, es[k].lease))
    decreases n - m
  {
    hide Step, Touches, Sensible, Inv;
    if n == m + 1 {
      ClaimHolds(tr[m], es[m].now, lease, item);
    } else {
      LeaseKeepsTask(tr, es, m, n - 1, item, lease);
      ExactlyOnePlace(tr, es, n - 1);
      assert !Touches(es[n - 1], item.id);
      InflightStays(tr[n - 1], es[n - 1], item.id);
    }
  }

  lemma ClaimHolds(q: Queue, now: int, lease: int, item: Item)
    requires Claim(q, now, lease).1 == Some(item)
    ensures var r := Step(q, Claiming(now, lease));
      item.id in r.inflight && r.inflight[item.id] == Held(now + lease, item)
  {}

  /** A renewal moves the deadline of a task in flight, and of no other; renewing another changes nothing. */
  lemma RenewedExactly(q: Queue, id: nat, until: int)
    ensures var (r, ok) := Renew(q, id, until);
      && (ok <==> id in q.inflight)
      && r.inflight.Keys == q.inflight.Keys
      && (forall k :: k in q.inflight ==>
            r.inflight[k] == if k == id then Held(until, q.inflight[k].item) else q.inflight[k])
      && r == q.(inflight := r.inflight)
  {}

  /**
   A sweep takes back exactly the tasks whose deadline has come; they are ready again as they were,
   and everything still leased stays in flight.
   */
  lemma SweptExactly(q: Queue, now: int, ids: seq<nat>)
    requires Inv(q) && IsSweep(q, now, ids)
    ensures var r := Step(q, Sweeping(now, ids));
      && (forall id :: id in r.inflight <==> id in q.inflight && q.inflight[id].until > now)
      && (forall id :: id in r.inflight ==> r.inflight[id] == q.inflight[id])
      && (forall id :: IsReady(r, id) <==> IsReady(q, id) || (id in q.inflight && q.inflight[id].until <= now))
  {
    SweepMovesExactly(q, now, ids);
    hide Inv, IsSweep, IsReady, Step;
  }

  /** The time the task waits for, none meaning the beginning of time, has come. */
  predicate HasCome(item: Item, now: int) {
    match item.notBefore
    case Some(time) => time <= now
    case None => 0 <= now
  }

  /**
   A claim takes a task whose time has come, of the highest priority among these and of equal
   priority the earliest enqueued, and leases it from now; only when none has come it takes none.
   */
  lemma ClaimTakesFirst(q: Queue, now: int, lease: int) returns (i: nat)
    requires Inv(q)
    ensures var (r, taken) := Claim(q, now, lease);
      if taken.None? then r == q && forall k :: 0 <= k < |q.ready| ==> !HasCome(q.ready[k].item, now)
      else
        && i < |q.ready| && q.ready[i].item == taken.value && HasCome(taken.value, now)
        && (forall k :: 0 <= k < |q.ready| && k != i && HasCome(q.ready[k].item, now) ==>
             || q.ready[k].item.priority < taken.value.priority
             || (q.ready[k].item.priority == taken.value.priority && q.ready[i].sequence < q.ready[k].sequence))
        && r.ready == q.ready[..i] + q.ready[i + 1..]
        && r.inflight == q.inflight[taken.value.id := Held(now + lease, taken.value)]
  {
    i := ClaimIsLeast(q, now, lease);
    hide Places, Sorted, DistinctIds, DistinctDead, Claim;
    forall k | 0 <= k < |q.ready| ensures Due(q.ready[k].item, now) == HasCome(q.ready[k].item, now) {}
  }

  // ------------------------------------------------------------------ a task stays what it is

  predicate Queued(q: Queue, item: Item) {
    exists i :: 0 <= i < |q.ready| && q.ready[i].item == item
  }

  /** The queue holds the task, ready or in flight, with just these contents. */
  predicate HasItem(q: Queue, item: Item) {
    Queued(q, item) || (item.id in q.inflight && q.inflight[item.id].item == item)
  }

  /** The call brings the task in: as given, or as another attempt of a dead letter. */
  predicate Introduces(q: Queue, e: Event, item: Item) {
    || e == Enqueuing(item)
    || (e.Retrying? && e.newId == item.id && e.now == item.enqueuedAt &&
        exists i :: 0 <= i < |q.dead| && q.dead[i].id == e.id
          && q.dead[i].priority == item.priority && q.dead[i].notBefore == item.notBefore)
  }

  lemma {:induction false} PushHolds(rows: seq<Row>, row: Row)
    ensures forall x :: x in Push(rows, row) <==> x == row || x in rows
  {
    if rows != [] && !Before(row, rows[0]) {
      PushHolds(rows[1..], row);
      assert rows == [rows[0]] + rows[1..];
    }
  }

  lemma EnqueueHolds(q: Queue, item: Item, x: Item)
    ensures Queued(Enqueue(q, item), x) <==> x == item || Queued(q, x)
  {
    var row := Row(-item.priority, q.sequence + 1, item);
    var r := Enqueue(q, item);
    PushHolds(q.ready, row);
    hide Push;
    if Queued(r, x) {
      var i :| 0 <= i < |r.ready| && r.ready[i].item == x;
      assert r.ready[i] in r.ready;
    }
    if x == item { assert row in r.ready; }
    if Queued(q, x) {
      var i :| 0 <= i < |q.ready| && q.ready[i].item == x;
      assert q.ready[i] in r.ready;
    }
  }

  lemma ReleaseHolds(q: Queue, id: nat, x: Item)
    requires Inv(q)
    ensures HasItem(Release(q, id), x) ==> HasItem(q, x)
  {
    if id in q.inflight {
      EnqueueHolds(q.(inflight := q.inflight - {id}), q.inflight[id].item, x);
      hide Sorted, DistinctIds, DistinctDead, Places;
    }
  }

  lemma {:induction false} ReleaseAllHolds(q: Queue, ids: seq<nat>, x: Item)
    requires Inv(q)
    ensures HasItem(ReleaseAll(q, ids), x) ==> HasItem(q, x)
    decreases |ids|
  {
    hide Inv, HasItem, Release;
    if ids != [] {
      ReleaseInv(q, ids[0]);
      ReleaseHolds(q, ids[0], x);
      ReleaseAllHolds(Release(q, ids[0]), ids[1..], x);
    }
  }

  lemma {:induction false} WithoutHolds(rows: seq<Row>, id: nat)
    ensures forall x :: x in WithoutId(rows, id) ==> x in rows
  {
    if rows != [] { WithoutHolds(rows[1..], id); }
  }

  lemma DiscardHolds(q: Queue, id: nat, x: Item)
    ensures HasItem(Discard(q, id), x) ==> HasItem(q, x)
  {
    WithoutHolds(q.ready, id);
    var r := Discard(q, id);
    hide WithoutId;
    if Queued(r, x) {
      var i :| 0 <= i < |r.ready| && r.ready[i].item == x;
      assert r.ready[i] in r.ready;
      assert r.ready[i] in q.ready;
    }
  }

  lemma ClaimMoves(q: Queue, now: int, lease: int, x: Item)
    ensures HasItem(Claim(q, now, lease).0, x) ==> HasItem(q, x)
  {
    var i := FirstDue(q.ready, now);
    var r := Claim(q, now, lease).0;
    if i < |q.ready| && Queued(r, x) {
      var k :| 0 <= k < |r.ready| && r.ready[k].item == x;
      assert q.ready[if k < i then k else k + 1] == r.ready[k];
    }
  }

  lemma RetryHolds(q: Queue, id: nat, newId: nat, now: int, x: Item)
    ensures HasItem(Retry(q, id, newId, now), x) ==> HasItem(q, x) || Introduces(q, Retrying(id, newId, now), x)
  {
    var i := FirstDead(q.dead, id);
    if i < |q.dead| {
      hide Enqueue, FirstDead;
      var p := q.(dead := q.dead[..i] + q.dead[i + 1..], finished := q.finished + {id});
      EnqueueHolds(p, q.dead[i].(id := newId, enqueuedAt := now), x);
      EnqueueInflight(p, q.dead[i].(id := newId, enqueuedAt := now));
    }
  }

  lemma EnqueueInflight(q: Queue, item: Item)
    ensures Enqueue(q, item).inflight == q.inflight
  {}

  lemma ItemComesFrom(q: Queue, e: Event, x: Item)
    requires Inv(q) && HasItem(Step(q, e), x)
    ensures HasItem(q, x) || Introduces(q, e, x)
  {
    hide Inv, Enqueue, Claim, Discard, Release, ReleaseAll, Retry;
    match e
    case Enqueuing(item) => EnqueueHolds(q, item, x); EnqueueInflight(q, item);
    case Claiming(now, lease) => ClaimMoves(q, now, lease, x);
    case Discarding(id) => DiscardHolds(q, id, x);
    case Releasing(id) => ReleaseHolds(q, id, x);
    case Sweeping(now, ids) => ReleaseAllHolds(q, ids, x);
    case Retrying(id, newId, now) => RetryHolds(q, id, newId, now, x);
    case _ =>
  }

  /**
   In every run a task that is ready or in flight has the very priority, time and deferral it was
   enqueued with, however often it was claimed, released or swept; a retried dead letter keeps its
   priority and deferral under its new id and time.
   */
  lemma {:induction false} TaskAsEnqueued(tr: seq<Queue>, es: seq<Event>, n: nat, x: Item) returns (m: nat)
    requires IsRun(tr, es) && n < |tr| && HasItem(tr[n], x)
    ensures m < n && Introduces(tr[m], es[m], x)
  {
    hide Step, HasItem, Introduces, Sensible, Inv;
    if n == 0 {
      NothingHeld(tr[0], x);
    } else {
      ExactlyOnePlace(tr, es, n - 1);
      ItemComesFrom(tr[n - 1], es[n - 1], x);
      if Introduces(tr[n - 1], es[n - 1], x) {
        m := n - 1;
      } else {
        m := TaskAsEnqueued(tr, es, n - 1, x);
      }
    }
  }

  lemma NothingHeld(q: Queue, x: Item)
    requires q == EMPTY
    ensures !HasItem(q, x)
  {}
}
