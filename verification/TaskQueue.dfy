/**
 The task queue of core/queue.py: a priority queue with deferral, leases and dead letters,
 in its in-process form (a heap of rows) and its Redis form (a sorted set claimed by a script).
 */
module TaskQueue {
  import opened Common

  datatype Item = Item(id: nat, priority: int, enqueuedAt: int, notBefore: Option<int>)

  /** A heap row: ordered by negated priority, then by enqueue sequence. */
  datatype Row = Row(key: int, sequence: nat, item: Item)

  datatype Held = Held(until: int, item: Item)

  /**
   `ready` is the heap's content in pop order. `issued` and `finished` are history: the ids ever
   enqueued, and those acknowledged, discarded or replaced.
   */
  datatype Queue = Queue(
    ready: seq<Row>, inflight: map<nat, Held>, dead: seq<Item>, sequence: nat,
    issued: set<nat>, finished: set<nat>)

  predicate Before(a: Row, b: Row) {
    a.key < b.key || (a.key == b.key && a.sequence < b.sequence)
  }

  /** `not_before` has passed, as the heap path reads it. */
  predicate Due(item: Item, now: int) {
    (if item.notBefore.Some? then item.notBefore.value else 0) <= now
  }

  /** `heappush` */
  function Push(rows: seq<Row>, row: Row): seq<Row> {
    if rows == [] then [row]
    else if Before(row, rows[0]) then [row] + rows
    else [rows[0]] + Push(rows[1..], row)
  }

  /** The position of the row a claim takes; |rows| when every row is deferred. */
  function FirstDue(rows: seq<Row>, now: int): (i: nat)
    ensures i <= |rows|
    ensures i < |rows| ==> Due(rows[i].item, now)
    ensures forall k :: 0 <= k < i ==> !Due(rows[k].item, now)
  {
    if rows == [] || Due(rows[0].item, now) then 0 else 1 + FirstDue(rows[1..], now)
  }

  function Drop(rows: seq<Row>, i: nat): seq<Row>
    requires i < |rows|
  {
    rows[..i] + rows[i + 1..]
  }

  function Enqueue(q: Queue, item: Item): Queue {
    q.(sequence := q.sequence + 1,
       ready := Push(q.ready, Row(-item.priority, q.sequence + 1, item)),
       issued := q.issued + {item.id}, finished := q.finished - {item.id})
  }

  /** `claim` on the heap. */
  function Claim(q: Queue, now: int, lease: int): (Queue, Option<Item>) {
    var i := FirstDue(q.ready, now);
    if i == |q.ready| then (q, None)
    else
      var item := q.ready[i].item;
      (q.(ready := Drop(q.ready, i), inflight := q.inflight[item.id := Held(now + lease, item)]), Some(item))
  }

  function Ack(q: Queue, id: nat): Queue {
    if id in q.inflight then q.(inflight := q.inflight - {id}, finished := q.finished + {id}) else q
  }

  function Renew(q: Queue, id: nat, until: int): (Queue, bool) {
    if id in q.inflight then (q.(inflight := q.inflight[id := q.inflight[id].(until := until)]), true) else (q, false)
  }

  function WithoutId(rows: seq<Row>, id: nat): seq<Row> {
    if rows == [] then []
    else if rows[0].item.id == id then WithoutId(rows[1..], id) else [rows[0]] + WithoutId(rows[1..], id)
  }

  predicate IsReady(q: Queue, id: nat) {
    exists i :: 0 <= i < |q.ready| && q.ready[i].item.id == id
  }

  predicate IsDead(q: Queue, id: nat) {
    exists i :: 0 <= i < |q.dead| && q.dead[i].id == id
  }

  function Discard(q: Queue, id: nat): Queue {
    var a := Ack(q, id);
    if IsReady(q, id) then a.(ready := WithoutId(q.ready, id), finished := a.finished + {id}) else a
  }

  function Release(q: Queue, id: nat): Queue {
    if id in q.inflight then Enqueue(q.(inflight := q.inflight - {id}), q.inflight[id].item) else q
  }

  /** `inflight_active` */
  predicate Active(q: Queue, id: nat, now: int) {
    id in q.inflight && q.inflight[id].until > now
  }

  /** The order in which a sweep re-enqueues: oldest lease, then higher priority, then id. */
  predicate SweptBefore(inflight: map<nat, Held>, a: nat, b: nat)
    requires a in inflight && b in inflight
  {
    var x, y := inflight[a], inflight[b];
    x.until < y.until ||
    (x.until == y.until && (x.item.priority > y.item.priority || (x.item.priority == y.item.priority && a < b)))
  }

  /** `ids` are exactly the in-flight tasks whose lease has run out, in sweep order. */
  ghost predicate IsSweep(q: Queue, now: int, ids: seq<nat>) {
    && (forall id :: id in ids <==> id in q.inflight && !Active(q, id, now))
    && (forall i, j :: 0 <= i < j < |ids| ==>
        ids[i] in q.inflight && ids[j] in q.inflight && SweptBefore(q.inflight, ids[i], ids[j]))
  }

  function ReleaseAll(q: Queue, ids: seq<nat>): Queue
    decreases |ids|
  {
    if ids == [] then q else ReleaseAll(Release(q, ids[0]), ids[1..])
  }

  function DeadLetter(q: Queue, item: Item): Queue {
    q.(inflight := q.inflight - {item.id}, dead := q.dead + [item], finished := q.finished - {item.id})
  }

  function FirstDead(dead: seq<Item>, id: nat): (i: nat)
    ensures i <= |dead|
    ensures i < |dead| ==> dead[i].id == id
    ensures forall k :: 0 <= k < i ==> dead[k].id != id
  {
    if dead == [] || dead[0].id == id then 0 else 1 + FirstDead(dead[1..], id)
  }

  /** `requeue_dead_letter`: a new attempt under a new id. */
  function Retry(q: Queue, id: nat, newId: nat, now: int): Queue {
    var i := FirstDead(q.dead, id);
    if i == |q.dead| then q
    else Enqueue(q.(dead := q.dead[..i] + q.dead[i + 1..], finished := q.finished + {id}),
                 q.dead[i].(id := newId, enqueuedAt := now))
  }

  datatype Event =
    | Enqueuing(item: Item)
    | Claiming(now: int, lease: int)
    | Acking(id: nat)
    | Renewing(id: nat, until: int)
    | Discarding(id: nat)
    | Releasing(id: nat)
    | Sweeping(now: int, ids: seq<nat>)
    | Burying(item: Item)
    | Retrying(id: nat, newId: nat, now: int)

  function Step(q: Queue, e: Event): Queue {
    match e
    case Enqueuing(item) => Enqueue(q, item)
    case Claiming(now, lease) => Claim(q, now, lease).0
    case Acking(id) => Ack(q, id)
    case Renewing(id, until) => Renew(q, id, until).0
    case Discarding(id) => Discard(q, id)
    case Releasing(id) => Release(q, id)
    case Sweeping(now, ids) => ReleaseAll(q, ids)
    case Burying(item) => DeadLetter(q, item)
    case Retrying(id, newId, now) => Retry(q, id, newId, now)
  }

  /** Ids are fresh, sweeps are complete, and only a known task that is not ready is buried, once. */
  ghost predicate Sensible(q: Queue, e: Event) {
    match e
    case Enqueuing(item) => item.id !in q.issued
    case Sweeping(now, ids) => IsSweep(q, now, ids)
    case Burying(item) => item.id in q.issued && !IsReady(q, item.id) && !IsDead(q, item.id)
    case Retrying(id, newId, now) => newId !in q.issued
    case _ => true
  }

  // ------------------------------------------------------------------ exactly one place

  ghost predicate Sorted(rows: seq<Row>) {
    forall i, j :: 0 <= i < j < |rows| ==> Before(rows[i], rows[j])
  }

  ghost predicate DistinctIds(rows: seq<Row>) {
    forall i, j :: 0 <= i < j < |rows| ==> rows[i].item.id != rows[j].item.id
  }

  ghost predicate DistinctDead(dead: seq<Item>) {
    forall i, j :: 0 <= i < j < |dead| ==> dead[i].id != dead[j].id
  }

  /** In how many of the four places a task is. */
  function Places(q: Queue, id: nat): nat {
    (if IsReady(q, id) then 1 else 0) + (if id in q.inflight then 1 else 0)
    + (if IsDead(q, id) then 1 else 0) + (if id in q.finished then 1 else 0)
  }

  ghost predicate Inv(q: Queue) {
    && Sorted(q.ready) && DistinctIds(q.ready) && DistinctDead(q.dead)
    && (forall i :: 0 <= i < |q.ready| ==>
        q.ready[i].sequence <= q.sequence && q.ready[i].key == -q.ready[i].item.priority)
    && (forall id :: id in q.inflight ==> q.inflight[id].item.id == id)
    && (forall id :: Places(q, id) == if id in q.issued then 1 else 0)
  }

  lemma {:induction false} PushMeaning(rows: seq<Row>, row: Row)
    requires Sorted(rows) && (forall i :: 0 <= i < |rows| ==> rows[i].sequence < row.sequence)
    ensures var r := Push(rows, row);
      && Sorted(r) && |r| == |rows| + 1
      && (forall x :: x in r <==> x == row || x in rows)
  {
    if rows != [] && !Before(row, rows[0]) {
      PushMeaning(rows[1..], row);
      assert rows == [rows[0]] + rows[1..];
      var rest := Push(rows[1..], row);
      forall k | 0 <= k < |rest| ensures Before(rows[0], rest[k]) {
        assert rest[k] == row || rest[k] in rows[1..];
      }
    }
  }

  lemma PushIds(rows: seq<Row>, row: Row)
    requires Sorted(rows) && (forall i :: 0 <= i < |rows| ==> rows[i].sequence < row.sequence)
    requires DistinctIds(rows) && forall i :: 0 <= i < |rows| ==> rows[i].item.id != row.item.id
    ensures DistinctIds(Push(rows, row))
  {
    PushMeaning(rows, row);
    PushDistinct(rows, row);
  }

  lemma {:induction false} PushDistinct(rows: seq<Row>, row: Row)
    requires DistinctIds(rows) && forall i :: 0 <= i < |rows| ==> rows[i].item.id != row.item.id
    ensures DistinctIds(Push(rows, row))
    ensures forall x :: x in Push(rows, row) ==> x == row || x in rows
  {
    if rows != [] && !Before(row, rows[0]) {
      PushDistinct(rows[1..], row);
      var rest := Push(rows[1..], row);
      forall k | 0 <= k < |rest| ensures rows[0].item.id != rest[k].item.id {
        assert rest[k] == row || rest[k] in rows[1..];
      }
    }
  }

  lemma RowsReady(rows: seq<Row>, more: seq<Row>, row: Row, id: nat)
    requires forall x :: x in more <==> x == row || x in rows
    ensures (exists i :: 0 <= i < |more| && more[i].item.id == id)
      <==> (id == row.item.id || exists i :: 0 <= i < |rows| && rows[i].item.id == id)
  {
    if i :| 0 <= i < |more| && more[i].item.id == id {
      assert more[i] in more;
    }
    if id == row.item.id {
      assert row in more;
    }
    if i :| 0 <= i < |rows| && rows[i].item.id == id {
      assert rows[i] in more;
    }
  }

  /** Enqueuing a task that is nowhere else puts it in the ready place alone. */
  lemma EnqueueMeaning(q: Queue, item: Item)
    requires Sorted(q.ready) && DistinctIds(q.ready)
    requires forall i :: 0 <= i < |q.ready| ==>
      q.ready[i].sequence <= q.sequence && q.ready[i].key == -q.ready[i].item.priority
    requires !IsReady(q, item.id)
    ensures var r := Enqueue(q, item);
      && Sorted(r.ready) && DistinctIds(r.ready)
      && (forall i :: 0 <= i < |r.ready| ==>
          r.ready[i].sequence <= r.sequence && r.ready[i].key == -r.ready[i].item.priority)
      && (forall id :: IsReady(r, id) <==> id == item.id || IsReady(q, id))
      && (forall id :: IsDead(r, id) == IsDead(q, id))
  {
    var row := Row(-item.priority, q.sequence + 1, item);
    PushMeaning(q.ready, row);
    PushIds(q.ready, row);
    hide Push, Sorted, DistinctIds;
    var r := Enqueue(q, item);
    forall i | 0 <= i < |r.ready| ensures r.ready[i].sequence <= r.sequence &&
        r.ready[i].key == -r.ready[i].item.priority {
      assert r.ready[i] in r.ready;
    }
    forall id ensures IsReady(r, id) <==> id == item.id || IsReady(q, id) {
      RowsReady(q.ready, r.ready, row, id);
    }
  }

  lemma EnqueueInv(q: Queue, item: Item)
    requires Inv(q) && item.id !in q.issued
    ensures Inv(Enqueue(q, item))
  {
    assert Places(q, item.id) == 0;
    EnqueueMeaning(q, item);
    hide IsReady, IsDead, Push;
  }

  lemma ReleaseInv(q: Queue, id: nat)
    requires Inv(q)
    ensures Inv(Release(q, id))
  {
    if id in q.inflight {
      var p := q.(inflight := q.inflight - {id});
      assert Places(q, id) == 1;
      EnqueueMeaning(p, q.inflight[id].item);
      hide IsReady, IsDead, Push, Sorted, DistinctIds;
      var r := Release(q, id);
      forall k ensures Places(r, k) == if k in r.issued then 1 else 0 {
        assert Places(q, k) == if k in q.issued then 1 else 0;
      }
    }
  }

  lemma DropMeaning(q: Queue, i: nat)
    requires Inv(q) && i < |q.ready|
    ensures var r := q.(ready := Drop(q.ready, i));
      && Sorted(r.ready) && DistinctIds(r.ready)
      && (forall k :: 0 <= k < |r.ready| ==>
          r.ready[k].sequence <= q.sequence && r.ready[k].key == -r.ready[k].item.priority)
      && (forall id :: IsReady(r, id) <==> id != q.ready[i].item.id && IsReady(q, id))
  {
    var r := q.(ready := Drop(q.ready, i));
    hide Places, DistinctDead;
    forall id ensures IsReady(r, id) <==> id != q.ready[i].item.id && IsReady(q, id) {
      if id != q.ready[i].item.id && IsReady(q, id) {
        var k :| 0 <= k < |q.ready| && q.ready[k].item.id == id;
        assert r.ready[if k < i then k else k - 1] == q.ready[k];
      }
    }
  }

  lemma ClaimInv(q: Queue, now: int, lease: int)
    requires Inv(q)
    ensures Inv(Claim(q, now, lease).0)
  {
    var i := FirstDue(q.ready, now);
    if i < |q.ready| {
      DropMeaning(q, i);
      var r, id := Claim(q, now, lease).0, q.ready[i].item.id;
      assert IsReady(q, id);
      forall k ensures Places(r, k) == if k in r.issued then 1 else 0 {
        assert Places(q, k) == if k in q.issued then 1 else 0;
        assert IsReady(r, k) == IsReady(q.(ready := Drop(q.ready, i)), k);
      }
    }
  }

  lemma {:induction false} WithoutIdMeaning(rows: seq<Row>, id: nat)
    requires Sorted(rows) && DistinctIds(rows)
    ensures var r := WithoutId(rows, id);
      Sorted(r) && DistinctIds(r) && forall x :: x in r <==> x in rows && x.item.id != id
  {
    if rows != [] {
      WithoutIdMeaning(rows[1..], id);
      assert rows == [rows[0]] + rows[1..];
      var rest := WithoutId(rows[1..], id);
      forall k | 0 <= k < |rest| ensures Before(rows[0], rest[k]) && rows[0].item.id != rest[k].item.id {
        assert rest[k] in rows[1..];
      }
    }
  }

  lemma DiscardMeaning(q: Queue, id: nat)
    requires Inv(q)
    ensures Inv(Discard(q, id))
    ensures !IsReady(Discard(q, id), id) && id !in Discard(q, id).inflight
    ensures id in q.issued && !IsDead(q, id) ==> id in Discard(q, id).finished
  {
    var r := Discard(q, id);
    WithoutIdReady(q, id);
    assert Places(q, id) == if id in q.issued then 1 else 0;
    if !IsReady(q, id) { AckInv(q, id); }
    hide IsReady, IsDead, Sorted, DistinctIds, WithoutId;
    forall k ensures Places(r, k) == if k in r.issued then 1 else 0 {
      assert Places(q, k) == if k in q.issued then 1 else 0;
      SamePlaces(q, r, k);
      SameReady(q.(ready := r.ready), r, k);
    }
  }

  lemma SamePlaces(q: Queue, r: Queue, k: nat)
    requires r.dead == q.dead
    ensures IsDead(r, k) == IsDead(q, k)
  {}

  lemma SameReady(q: Queue, r: Queue, k: nat)
    requires r.ready == q.ready
    ensures IsReady(r, k) == IsReady(q, k)
  {}

  lemma WithoutIdReady(q: Queue, id: nat)
    requires Inv(q)
    ensures var r := q.(ready := WithoutId(q.ready, id));
      && Sorted(r.ready) && DistinctIds(r.ready)
      && (forall i :: 0 <= i < |r.ready| ==>
          r.ready[i].sequence <= q.sequence && r.ready[i].key == -r.ready[i].item.priority)
      && (forall k :: IsReady(r, k) <==> k != id && IsReady(q, k))
  {
    WithoutIdMeaning(q.ready, id);
    var r := q.(ready := WithoutId(q.ready, id));
    hide WithoutId, Places;
    forall k | 0 <= k < |r.ready| ensures r.ready[k].sequence <= q.sequence &&
        r.ready[k].key == -r.ready[k].item.priority {
      assert r.ready[k] in r.ready;
      assert r.ready[k] in q.ready;
    }
    forall k ensures IsReady(r, k) <==> k != id && IsReady(q, k) {
      if IsReady(r, k) {
        var i :| 0 <= i < |r.ready| && r.ready[i].item.id == k;
        assert r.ready[i] in r.ready;
        assert r.ready[i] in q.ready;
      }
      if k != id && IsReady(q, k) {
        var i :| 0 <= i < |q.ready| && q.ready[i].item.id == k;
        assert q.ready[i] in q.ready;
        assert q.ready[i] in r.ready;
      }
    }
  }

  lemma {:induction false} ReleaseAllInv(q: Queue, ids: seq<nat>)
    requires Inv(q)
    ensures Inv(ReleaseAll(q, ids))
    decreases |ids|
  {
    hide Inv, Release;
    if ids != [] {
      ReleaseInv(q, ids[0]);
      ReleaseAllInv(Release(q, ids[0]), ids[1..]);
    }
  }

  /** Burying a task keeps the partition exactly when it is known, not ready and not buried already. */
  lemma BuryExact(q: Queue, item: Item)
    requires Inv(q)
    ensures Inv(DeadLetter(q, item)) <==> item.id in q.issued && !IsReady(q, item.id) && !IsDead(q, item.id)
  {
    var r := DeadLetter(q, item);
    assert r.dead[|q.dead|] == item;
    assert Places(q, item.id) == if item.id in q.issued then 1 else 0;
    if item.id in q.issued && !IsReady(q, item.id) && !IsDead(q, item.id) {
      forall k ensures Places(r, k) == if k in r.issued then 1 else 0 {
        assert Places(q, k) == if k in q.issued then 1 else 0;
        assert IsReady(r, k) == IsReady(q, k);
        if IsDead(q, k) { var i :| 0 <= i < |q.dead| && q.dead[i].id == k; assert r.dead[i].id == k; }
        if IsDead(r, k) && k != item.id { var i :| 0 <= i < |r.dead| && r.dead[i].id == k; assert q.dead[i].id == k; }
      }
    } else if Inv(r) {
      assert Places(r, item.id) == if item.id in r.issued then 1 else 0;
      assert IsDead(r, item.id);
      assert IsReady(r, item.id) == IsReady(q, item.id);
      BuriedTwice(q, item);
    }
  }

  lemma BuriedTwice(q: Queue, item: Item)
    ensures IsDead(q, item.id) ==> !DistinctDead(q.dead + [item])
  {
    if IsDead(q, item.id) {
      var dead := q.dead + [item];
      var i :| 0 <= i < |q.dead| && q.dead[i].id == item.id;
      assert dead[i].id == dead[|q.dead|].id;
    }
  }

  lemma DeadWithout(q: Queue, p: Queue, i: nat)
    requires DistinctDead(q.dead) && i < |q.dead| && p.dead == q.dead[..i] + q.dead[i + 1..]
    ensures DistinctDead(p.dead)
    ensures forall k :: IsDead(p, k) <==> k != q.dead[i].id && IsDead(q, k)
  {
    forall k ensures IsDead(p, k) <==> k != q.dead[i].id && IsDead(q, k) {
      if k != q.dead[i].id && IsDead(q, k) {
        var j :| 0 <= j < |q.dead| && q.dead[j].id == k;
        assert p.dead[if j < i then j else j - 1] == q.dead[j];
      }
    }
  }

  /** A dead letter taken out for another attempt counts as finished. */
  lemma TakenInv(q: Queue, i: nat)
    requires Inv(q) && i < |q.dead|
    ensures Inv(q.(dead := q.dead[..i] + q.dead[i + 1..], finished := q.finished + {q.dead[i].id}))
  {
    hide Sorted, DistinctIds;
    var id := q.dead[i].id;
    var p := q.(dead := q.dead[..i] + q.dead[i + 1..], finished := q.finished + {id});
    DeadWithout(q, p, i);
    assert IsDead(q, id) && Places(q, id) == if id in q.issued then 1 else 0;
    hide DistinctDead, IsDead;
    forall k ensures Places(p, k) == if k in p.issued then 1 else 0 {
      assert Places(q, k) == if k in q.issued then 1 else 0;
      assert IsReady(p, k) == IsReady(q, k);
    }
  }

  lemma RetryInv(q: Queue, id: nat, newId: nat, now: int)
    requires Inv(q) && newId !in q.issued
    ensures Inv(Retry(q, id, newId, now))
  {
    hide Inv, Enqueue;
    var i := FirstDead(q.dead, id);
    if i < |q.dead| {
      TakenInv(q, i);
      EnqueueInv(q.(dead := q.dead[..i] + q.dead[i + 1..], finished := q.finished + {id}),
        q.dead[i].(id := newId, enqueuedAt := now));
    }
  }

  lemma AckInv(q: Queue, id: nat)
    requires Inv(q)
    ensures Inv(Ack(q, id))
  {
    var r := Ack(q, id);
    forall k ensures Places(r, k) == if k in r.issued then 1 else 0 {
      assert Places(q, k) == if k in q.issued then 1 else 0;
      assert IsReady(r, k) == IsReady(q, k) && IsDead(r, k) == IsDead(q, k);
    }
  }

  lemma RenewInv(q: Queue, id: nat, until: int)
    requires Inv(q)
    ensures Inv(Renew(q, id, until).0)
  {
    var r := Renew(q, id, until).0;
    forall k ensures Places(r, k) == if k in r.issued then 1 else 0 {
      assert Places(q, k) == if k in q.issued then 1 else 0;
      assert IsReady(r, k) == IsReady(q, k) && IsDead(r, k) == IsDead(q, k);
    }
  }

  lemma StepInv(q: Queue, e: Event)
    requires Inv(q) && Sensible(q, e)
    ensures Inv(Step(q, e))
  {
    hide Inv;
    match e
    case Enqueuing(item) => EnqueueInv(q, item);
    case Claiming(now, lease) => ClaimInv(q, now, lease);
    case Acking(id) => AckInv(q, id);
    case Renewing(id, until) => RenewInv(q, id, until);
    case Discarding(id) => DiscardMeaning(q, id);
    case Releasing(id) => ReleaseInv(q, id);
    case Sweeping(now, ids) => ReleaseAllInv(q, ids);
    case Burying(item) => BuryExact(q, item);
    case Retrying(id, newId, now) => RetryInv(q, id, newId, now);
  }

  const EMPTY := Queue([], map[], [], 0, {}, {})

  ghost predicate IsRun(tr: seq<Queue>, es: seq<Event>) {
    && |tr| == |es| + 1 && tr[0] == EMPTY
    && forall k :: 0 <= k < |es| ==> Sensible(tr[k], es[k]) && tr[k + 1] == Step(tr[k], es[k])
  }

  /** Over any run every task ever enqueued is in exactly one place: ready, in flight, dead or finished. */
  lemma {:induction false} ExactlyOnePlace(tr: seq<Queue>, es: seq<Event>, n: nat)
    requires IsRun(tr, es) && n < |tr|
    ensures Inv(tr[n])
    ensures forall id :: Places(tr[n], id) == if id in tr[n].issued then 1 else 0
  {
    hide Step, Sensible;
    if n > 0 {
      ExactlyOnePlace(tr, es, n - 1);
      StepInv(tr[n - 1], es[n - 1]);
    }
  }

  // ------------------------------------------------------------------ sweeping expired leases

  lemma {:induction false} ReleaseAllMeaning(q: Queue, ids: seq<nat>)
    requires Inv(q) && (forall id :: id in ids ==> id in q.inflight)
    requires forall i, j :: 0 <= i < j < |ids| ==> ids[i] != ids[j]
    ensures var r := ReleaseAll(q, ids);
      && r.inflight == (map id: nat | id in q.inflight && id !in ids :: q.inflight[id])
      && r.dead == q.dead && r.finished == q.finished && r.issued == q.issued
      && (forall id :: IsReady(r, id) <==> IsReady(q, id) || id in ids)
    decreases |ids|
  {
    if ids != [] {
      var m := Release(q, ids[0]);
      assert Places(q, ids[0]) == 1;
      ReleaseInv(q, ids[0]);
      EnqueueMeaning(q.(inflight := q.inflight - {ids[0]}), q.inflight[ids[0]].item);
      hide Inv, IsReady, IsDead, Push, Sorted, DistinctIds, Places, ReleaseAll;
      forall id ensures IsReady(m, id) <==> IsReady(q, id) || id == ids[0] {
        SameReady(q, q.(inflight := q.inflight - {ids[0]}), id);
      }
      assert m.finished == q.finished && m.issued == q.issued;
      ReleaseAllMeaning(m, ids[1..]);
      assert ids == [ids[0]] + ids[1..];
    } else {
      assert q.inflight == (map id: nat | id in q.inflight && id !in ids :: q.inflight[id]);
    }
  }

  /** A sweep at time t moves exactly the in-flight tasks that are not active at t back to ready. */
  lemma SweepMovesExactly(q: Queue, now: int, ids: seq<nat>)
    requires Inv(q) && IsSweep(q, now, ids)
    ensures var r := Step(q, Sweeping(now, ids));
      && (forall id :: id in r.inflight <==> Active(q, id, now))
      && (forall id :: id in r.inflight ==> r.inflight[id] == q.inflight[id])
      && (forall id :: IsReady(r, id) <==> IsReady(q, id) || (id in q.inflight && !Active(q, id, now)))
      && r.dead == q.dead && r.finished == q.finished
  {
    assert forall i, j :: 0 <= i < j < |ids| ==> SweptBefore(q.inflight, ids[i], ids[j]) && ids[i] != ids[j];
    hide Inv, ReleaseAll, IsReady;
    ReleaseAllMeaning(q, ids);
  }

  // ------------------------------------------------------------------ claims

  /**
   The heap claim returns the least task by (higher priority, earlier sequence) among those
   whose time has come, and leaves every other row ready.
   */
  lemma ClaimIsLeast(q: Queue, now: int, lease: int) returns (i: nat)
    requires Inv(q)
    ensures var (r, item) := Claim(q, now, lease);
      if item.None? then r == q && forall k :: 0 <= k < |q.ready| ==> !Due(q.ready[k].item, now)
      else
        && i < |q.ready| && q.ready[i].item == item.value && Due(item.value, now)
        && (forall k :: 0 <= k < |q.ready| && k != i && Due(q.ready[k].item, now) ==> Before(q.ready[i], q.ready[k]))
        && r == q.(ready := q.ready[..i] + q.ready[i + 1..],
                   inflight := q.inflight[item.value.id := Held(now + lease, item.value)])
  {
    hide Places;
    i := FirstDue(q.ready, now);
  }

  // ------------------------------------------------------------------ the Redis backend

  const WEIGHT := 10_000_000_000
  const SCAN := 100

  /** The score a task is stored under. */
  function Score(item: Item): int {
    -item.priority * WEIGHT + item.enqueuedAt
  }

  /** `not_before` has passed, as the script reads it. */
  predicate ScriptDue(item: Item, now: int) {
    item.notBefore.None? || item.notBefore.value <= now
  }

  /** The set in score order. */
  ghost predicate ByScore(zs: seq<Item>) {
    forall i, j :: 0 <= i < j < |zs| ==> Score(zs[i]) < Score(zs[j])
  }

  function ScriptFirstDue(zs: seq<Item>, now: int): (i: nat)
    ensures i <= |zs|
    ensures i < |zs| ==> ScriptDue(zs[i], now)
    ensures forall k :: 0 <= k < i ==> !ScriptDue(zs[k], now)
  {
    if zs == [] || ScriptDue(zs[0], now) then 0 else 1 + ScriptFirstDue(zs[1..], now)
  }

  /** What CLAIM_LUA returns: the first due task among the first hundred. */
  function ScriptClaim(zs: seq<Item>, now: int): Option<Item> {
    var i := ScriptFirstDue(zs, now);
    if i < |zs| && i < SCAN then Some(zs[i]) else None
  }

  /** ZADD into a set kept in score order. */
  function ZAdd(zs: seq<Item>, item: Item): seq<Item> {
    if zs == [] then [item]
    else if Score(item) < Score(zs[0]) then [item] + zs
    else [zs[0]] + ZAdd(zs[1..], item)
  }

  /** CLAIM_LUA: pop up to a hundred, keep the deferred aside, put them back. */
  method RunClaimScript(zs: seq<Item>, now: int) returns (claimed: Option<Item>, left: seq<Item>)
    requires ByScore(zs)
    ensures claimed == ScriptClaim(zs, now)
    ensures left == if claimed.Some? then zs[..ScriptFirstDue(zs, now)] + zs[ScriptFirstDue(zs, now) + 1..] else zs
  {
    hide Score, ScriptFirstDue, ZAdd;
    var rest := zs;
    var i := 0;
    while i < SCAN && rest != []
      invariant i <= SCAN && i <= |zs| && rest == zs[i..]
      invariant forall k :: 0 <= k < i ==> !ScriptDue(zs[k], now)
    {
      var row := rest[0];
      rest := rest[1..];
      if ScriptDue(row, now) {
        FirstDueIs(zs, now, i);
        left := PutBack(zs, i, i + 1);
        return Some(row), left;
      }
      i := i + 1;
    }
    FirstDueIs(zs, now, i);
    left := PutBack(zs, i, i);
    assert zs[..i] + zs[i..] == zs;
    return None, left;
  }

  /** Re-adding the deferred rows, the first `i`, to what is left from `from` on. */
  method PutBack(zs: seq<Item>, i: nat, from: nat) returns (left: seq<Item>)
    requires ByScore(zs) && i <= from <= |zs|
    ensures left == zs[..i] + zs[from..]
  {
    hide Score;
    left := zs[from..];
    var j := i;
    while j > 0
      invariant 0 <= j <= i
      invariant left == zs[j..i] + zs[from..]
    {
      j := j - 1;
      assert zs[j..i] == [zs[j]] + zs[j + 1..i];
      ZAddFront(left, zs[j]);
      left := ZAdd(left, zs[j]);
    }
  }

  lemma ZAddFront(zs: seq<Item>, item: Item)
    requires zs == [] || Score(item) < Score(zs[0])
    ensures ZAdd(zs, item) == [item] + zs
  {}

  /** The first due index is the one everything before which is deferred. */
  lemma {:induction false} FirstDueIs(zs: seq<Item>, now: int, i: nat)
    requires i <= |zs| && (forall k :: 0 <= k < i ==> !ScriptDue(zs[k], now))
    ensures ScriptFirstDue(zs, now) >= i
    ensures i < |zs| && ScriptDue(zs[i], now) ==> ScriptFirstDue(zs, now) == i
  {}

  /** The score orders lexicographically: priority first, then time, as long as times stay below the weight. */
  lemma ScoreIsLexicographic(a: Item, b: Item)
    requires 0 <= a.enqueuedAt < WEIGHT && 0 <= b.enqueuedAt < WEIGHT
    ensures Score(a) < Score(b) <==>
      a.priority > b.priority || (a.priority == b.priority && a.enqueuedAt < b.enqueuedAt)
  {
    if a.priority > b.priority {
      assert (a.priority - b.priority) * WEIGHT >= WEIGHT;
    } else if a.priority < b.priority {
      assert (b.priority - a.priority) * WEIGHT >= WEIGHT;
    }
  }

  /** Both backends hold the same tasks, and within a priority the sequence follows the enqueue times. */
  ghost predicate Mirrors(q: Queue, zs: seq<Item>) {
    && ByScore(zs)
    && (forall x :: x in zs <==> exists i :: 0 <= i < |q.ready| && q.ready[i].item == x)
    && (forall i :: 0 <= i < |q.ready| ==> 0 <= q.ready[i].item.enqueuedAt < WEIGHT)
    && (forall i, j :: 0 <= i < j < |q.ready| && q.ready[i].item.priority == q.ready[j].item.priority ==>
          q.ready[i].item.enqueuedAt < q.ready[j].item.enqueuedAt)
  }

  function Items(rows: seq<Row>): (r: seq<Item>)
    ensures |r| == |rows| && forall i :: 0 <= i < |rows| ==> r[i] == rows[i].item
  {
    seq(|rows|, i requires 0 <= i < |rows| => rows[i].item)
  }

  /** Two score-ordered listings of the same tasks are the same listing. */
  lemma {:induction false} ByScoreUnique(a: seq<Item>, b: seq<Item>)
    requires ByScore(a) && ByScore(b) && forall x :: x in a <==> x in b
    ensures a == b
    decreases |a|
  {
    if a == [] {
      if b != [] { Member(b); assert false; }
    } else if b == [] {
      Member(a);
      assert false;
    } else {
      Member(a);
      Member(b);
      LeastScore(a, b[0]);
      LeastScore(b, a[0]);
      forall x ensures x in a[1..] <==> x in b[1..] {
        TailMember(a, x);
        TailMember(b, x);
      }
      ByScoreUnique(a[1..], b[1..]);
      assert a == [a[0]] + a[1..] && b == [b[0]] + b[1..];
    }
  }

  lemma Member(a: seq<Item>)
    requires a != []
    ensures a[0] in a
  {}

  lemma LeastScore(a: seq<Item>, x: Item)
    requires ByScore(a) && x in a
    ensures x == a[0] || Score(a[0]) < Score(x)
  {}

  lemma TailMember(a: seq<Item>, x: Item)
    requires ByScore(a) && a != []
    ensures x in a[1..] <==> x in a && x != a[0]
  {
    if x in a[1..] {
      var k :| 0 <= k < |a[1..]| && a[1..][k] == x;
      assert a[k + 1] == x;
    }
  }

  lemma MirrorIsTheHeap(q: Queue, zs: seq<Item>)
    requires Inv(q) && Mirrors(q, zs)
    ensures zs == Items(q.ready)
  {
    var items := Items(q.ready);
    forall i, j | 0 <= i < j < |items| ensures Score(items[i]) < Score(items[j]) {
      assert Before(q.ready[i], q.ready[j]);
      ScoreIsLexicographic(items[i], items[j]);
    }
    forall x ensures x in zs <==> x in items {
      if x in items { var i :| 0 <= i < |items| && items[i] == x; assert q.ready[i].item == x; }
      if x in zs { var i :| 0 <= i < |q.ready| && q.ready[i].item == x; assert items[i] == x; }
    }
    ByScoreUnique(zs, items);
  }

  lemma {:induction false} SameFirstDue(rows: seq<Row>, now: int)
    requires now >= 0
    ensures ScriptFirstDue(Items(rows), now) == FirstDue(rows, now)
  {
    if rows != [] {
      assert Items(rows)[1..] == Items(rows[1..]);
      SameFirstDue(rows[1..], now);
    }
  }

  /**
   The two backends pick the same task if and only if at most 99 deferred tasks precede it;
   beyond that the script gives up where the heap still finds it.
   */
  lemma BackendsAgree(q: Queue, zs: seq<Item>, now: int, lease: int)
    requires Inv(q) && Mirrors(q, zs) && now >= 0
    ensures ScriptClaim(zs, now) == Claim(q, now, lease).1 <==>
      FirstDue(q.ready, now) < SCAN || FirstDue(q.ready, now) == |q.ready|
    ensures ScriptClaim(zs, now) == Claim(q, now, lease).1 || ScriptClaim(zs, now).None?
  {
    MirrorIsTheHeap(q, zs);
    SameFirstDue(q.ready, now);
    hide Inv, Mirrors;
  }

  /** A release breaks the agreement: the heap sends the task to the back, the score keeps its place. */
  lemma ReleaseParts()
    ensures var a, b := Item(1, 5, 100, None), Item(2, 5, 200, None);
      var q := Release(Claim(Enqueue(Enqueue(EMPTY, a), b), 300, 90).0, 1);
      && Claim(q, 300, 90).1 == Some(b)
      && ScriptClaim(ZAdd(ZAdd([], b), a), 300) == Some(a)
  {
    var a, b := Item(1, 5, 100, None), Item(2, 5, 200, None);
    var one := Enqueue(EMPTY, a);
    assert one.ready == [Row(-5, 1, a)];
    var two := Enqueue(one, b);
    assert two.ready == [Row(-5, 1, a), Row(-5, 2, b)];
    var held := Claim(two, 300, 90).0;
    assert held.ready == [Row(-5, 2, b)];
    var back := Release(held, 1);
    assert [Row(-5, 2, b)][1..] == [] && Push([], Row(-5, 3, a)) == [Row(-5, 3, a)];
    assert back.ready == [Row(-5, 2, b), Row(-5, 3, a)];
    assert ZAdd(ZAdd([], b), a) == [a, b];
  }
}
