/**
 The heap and the Redis form of the task queue side by side: when an operation keeps them
 agreeing, step by step and over whole runs.
 */
module QueueBackends {
  import opened Common
  import opened TaskQueue

  // ------------------------------------------------------------------ what mirroring means

  ghost predicate InRange(rows: seq<Row>) {
    forall x :: x in rows ==> 0 <= x.item.enqueuedAt < WEIGHT
  }

  /** Within a priority the enqueue times follow the sequence numbers. */
  ghost predicate Timed(rows: seq<Row>) {
    forall x, y :: x in rows && y in rows && x.item.priority == y.item.priority && x.sequence < y.sequence ==>
      x.item.enqueuedAt < y.item.enqueuedAt
  }

  ghost predicate Regular(rows: seq<Row>) {
    InRange(rows) && Timed(rows)
  }

  ghost predicate Ordered(rows: seq<Row>) {
    Sorted(rows) && forall i :: 0 <= i < |rows| ==> rows[i].key == -rows[i].item.priority
  }

  lemma RegularByScore(rows: seq<Row>)
    requires Ordered(rows) && Regular(rows)
    ensures ByScore(Items(rows))
  {
    hide Score;
    var items := Items(rows);
    forall i, j | 0 <= i < j < |items| ensures Score(items[i]) < Score(items[j]) {
      assert rows[i] in rows && rows[j] in rows && Before(rows[i], rows[j]);
      ScoreIsLexicographic(items[i], items[j]);
    }
  }

  /** The set mirrors the heap exactly when it lists the heap's tasks in the heap's order and the times are regular. */
  lemma MirrorsExactly(q: Queue, zs: seq<Item>)
    requires Inv(q)
    ensures Mirrors(q, zs) <==> Regular(q.ready) && zs == Items(q.ready)
  {
    hide Places, Score, DistinctIds, DistinctDead;
    if Mirrors(q, zs) {
      MirrorIsTheHeap(q, zs);
      MirrorsRegular(q, zs);
    }
    if Regular(q.ready) && zs == Items(q.ready) {
      RegularByScore(q.ready);
      RegularPairs(q.ready);
      forall x ensures x in zs <==> exists i :: 0 <= i < |q.ready| && q.ready[i].item == x {
        if x in zs { var i :| 0 <= i < |zs| && zs[i] == x; assert q.ready[i].item == x; }
        if i :| 0 <= i < |q.ready| && q.ready[i].item == x { assert zs[i] == x; }
      }
    }
  }

  lemma RegularPairs(rows: seq<Row>)
    requires Ordered(rows) && Regular(rows)
    ensures forall i :: 0 <= i < |rows| ==> 0 <= rows[i].item.enqueuedAt < WEIGHT
    ensures forall i, j :: 0 <= i < j < |rows| && rows[i].item.priority == rows[j].item.priority ==>
      rows[i].item.enqueuedAt < rows[j].item.enqueuedAt
  {
    forall i, j | 0 <= i < j < |rows| && rows[i].item.priority == rows[j].item.priority
      ensures rows[i].item.enqueuedAt < rows[j].item.enqueuedAt
    {
      assert rows[i] in rows && rows[j] in rows && Before(rows[i], rows[j]);
    }
    forall i | 0 <= i < |rows| ensures 0 <= rows[i].item.enqueuedAt < WEIGHT { assert rows[i] in rows; }
  }

  lemma RowOrder(rows: seq<Row>, i: nat, j: nat)
    requires Ordered(rows) && i < |rows| && j < |rows| && i != j && rows[i].item.priority == rows[j].item.priority
    ensures rows[i].sequence < rows[j].sequence <==> i < j
  {
    assert if i < j then Before(rows[i], rows[j]) else Before(rows[j], rows[i]);
  }

  lemma MirrorsRegular(q: Queue, zs: seq<Item>)
    requires Ordered(q.ready) && Mirrors(q, zs)
    ensures Regular(q.ready)
  {
    hide Score, ByScore;
    forall x, y | x in q.ready && y in q.ready && x.item.priority == y.item.priority && x.sequence < y.sequence
      ensures x.item.enqueuedAt < y.item.enqueuedAt
    {
      var i :| 0 <= i < |q.ready| && q.ready[i] == x;
      var j :| 0 <= j < |q.ready| && q.ready[j] == y;
      RowOrder(q.ready, i, j);
    }
  }

  // ------------------------------------------------------------------ adding to the sorted set

  function ZAddAll(zs: seq<Item>, xs: seq<Item>): seq<Item>
    decreases |xs|
  {
    if xs == [] then zs else ZAddAll(ZAdd(zs, xs[0]), xs[1..])
  }

  lemma {:induction false} ZAddMeaning(zs: seq<Item>, item: Item)
    ensures forall x :: x in ZAdd(zs, item) <==> x in zs || x == item
  {
    hide Score;
    if zs != [] {
      ZAddMeaning(zs[1..], item);
      assert zs == [zs[0]] + zs[1..];
    }
  }

  lemma {:induction false} ZAddByScore(zs: seq<Item>, item: Item)
    requires ByScore(zs) && forall x :: x in zs ==> Score(x) != Score(item)
    ensures ByScore(ZAdd(zs, item))
  {
    hide Score;
    if zs != [] && Score(item) >= Score(zs[0]) {
      assert zs == [zs[0]] + zs[1..];
      ZAddByScore(zs[1..], item);
      ZAddMeaning(zs[1..], item);
      var rest := ZAdd(zs[1..], item);
      forall k | 0 <= k < |rest| ensures Score(zs[0]) < Score(rest[k]) {
        assert rest[k] in rest;
      }
    }
  }

  /** Re-adding tasks in any order gives one listing, as long as no two scores collide. */
  lemma {:induction false} ZAddAllMeaning(zs: seq<Item>, xs: seq<Item>, whole: seq<Item>)
    requires ByScore(whole) && ByScore(zs)
    requires (forall x :: x in zs ==> x in whole) && (forall x :: x in xs ==> x in whole && x !in zs)
    requires forall i, j :: 0 <= i < j < |xs| ==> xs[i] != xs[j]
    ensures ByScore(ZAddAll(zs, xs))
    ensures forall x :: x in ZAddAll(zs, xs) <==> x in zs || x in xs
    decreases |xs|
  {
    if xs != [] {
      hide ZAdd, Score, ByScore;
      ZAddMeaning(zs, xs[0]);
      forall x | x in zs ensures Score(x) != Score(xs[0]) { ScoresApart(whole, x, xs[0]); }
      ZAddByScore(zs, xs[0]);
      assert forall x :: x in xs[1..] ==> x in xs && x != xs[0];
      ZAddAllMeaning(ZAdd(zs, xs[0]), xs[1..], whole);
      assert xs == [xs[0]] + xs[1..];
    }
  }

  lemma ScoresApart(whole: seq<Item>, x: Item, y: Item)
    requires ByScore(whole) && x in whole && y in whole && x != y
    ensures Score(x) != Score(y)
  {
    var i :| 0 <= i < |whole| && whole[i] == x;
    var j :| 0 <= j < |whole| && whole[j] == y;
    assert i < j || j < i;
  }

  // ------------------------------------------------------------------ when a task fits behind the others

  /** Every ready task of the same priority was enqueued earlier. */
  ghost predicate Behind(rows: seq<Row>, item: Item) {
    forall i :: 0 <= i < |rows| && rows[i].item.priority == item.priority ==> rows[i].item.enqueuedAt < item.enqueuedAt
  }

  ghost predicate Fits(rows: seq<Row>, item: Item) {
    0 <= item.enqueuedAt < WEIGHT && Behind(rows, item)
  }

  /** The tasks, in the order they become ready: each fits behind the ready ones and those before it. */
  ghost predicate AllFit(rows: seq<Row>, xs: seq<Item>) {
    && (forall k :: 0 <= k < |xs| ==> Fits(rows, xs[k]))
    && (forall k, l :: 0 <= k < l < |xs| && xs[k].priority == xs[l].priority ==> xs[k].enqueuedAt < xs[l].enqueuedAt)
  }

  function RowFor(q: Queue, xs: seq<Item>, k: nat): Row
    requires k < |xs|
  {
    Row(-xs[k].priority, q.sequence + 1 + k, xs[k])
  }

  /** The rows after enqueuing several tasks: the old ones, and one per task under the next numbers. */
  ghost predicate RowsAdded(q: Queue, xs: seq<Item>, rows: seq<Row>) {
    && (forall x :: x in q.ready ==> x in rows)
    && (forall k :: 0 <= k < |xs| ==> RowFor(q, xs, k) in rows)
    && (forall x :: x in rows ==> x in q.ready || exists k :: 0 <= k < |xs| && x == RowFor(q, xs, k))
  }

  lemma RegularFits(q: Queue, xs: seq<Item>, rows: seq<Row>)
    requires RowsAdded(q, xs, rows) && Regular(rows) && forall x :: x in q.ready ==> x.sequence <= q.sequence
    ensures AllFit(q.ready, xs)
  {
    forall k | 0 <= k < |xs| ensures Fits(q.ready, xs[k]) {
      assert RowFor(q, xs, k) in rows;
      forall i | 0 <= i < |q.ready| && q.ready[i].item.priority == xs[k].priority
        ensures q.ready[i].item.enqueuedAt < xs[k].enqueuedAt
      {
        assert q.ready[i] in rows;
      }
    }
    forall k, l | 0 <= k < l < |xs| && xs[k].priority == xs[l].priority ensures xs[k].enqueuedAt < xs[l].enqueuedAt {
      assert RowFor(q, xs, k) in rows && RowFor(q, xs, l) in rows;
    }
  }

  /** Two rows of the same priority, the second a new one. */
  lemma FitsPair(q: Queue, xs: seq<Item>, x: Row, l: nat)
    requires AllFit(q.ready, xs) && l < |xs| && x.item.priority == xs[l].priority && x.sequence < q.sequence + 1 + l
    requires x in q.ready || exists k :: 0 <= k < |xs| && x == RowFor(q, xs, k)
    ensures x.item.enqueuedAt < xs[l].enqueuedAt
  {
    if x in q.ready {
      var i :| 0 <= i < |q.ready| && q.ready[i] == x;
      assert Fits(q.ready, xs[l]);
    } else {
      var k :| 0 <= k < |xs| && x == RowFor(q, xs, k);
      assert k < l;
    }
  }

  lemma FitsRegular(q: Queue, xs: seq<Item>, rows: seq<Row>)
    requires RowsAdded(q, xs, rows) && Regular(q.ready) && AllFit(q.ready, xs)
    requires forall x :: x in q.ready ==> x.sequence <= q.sequence
    ensures Regular(rows)
  {
    hide AllFit;
    forall x, y | x in rows && y in rows && x.item.priority == y.item.priority && x.sequence < y.sequence
      ensures x.item.enqueuedAt < y.item.enqueuedAt
    {
      if y !in q.ready {
        var l :| 0 <= l < |xs| && y == RowFor(q, xs, l);
        FitsPair(q, xs, x, l);
      }
    }
    forall x | x in rows ensures 0 <= x.item.enqueuedAt < WEIGHT {
      if x !in q.ready {
        var k :| 0 <= k < |xs| && x == RowFor(q, xs, k);
        InRangeOf(q, xs, k);
      }
    }
  }

  lemma InRangeOf(q: Queue, xs: seq<Item>, k: nat)
    requires AllFit(q.ready, xs) && k < |xs|
    ensures 0 <= xs[k].enqueuedAt < WEIGHT
  {
    assert Fits(q.ready, xs[k]);
  }

  lemma NumbersSoFar(q: Queue)
    requires Inv(q)
    ensures forall x :: x in q.ready ==> x.sequence <= q.sequence
  {
    hide Sorted, DistinctIds, DistinctDead, Places;
    forall x | x in q.ready ensures x.sequence <= q.sequence {
      var i :| 0 <= i < |q.ready| && q.ready[i] == x;
    }
  }

  /** The new rows are regular exactly when the tasks fit. */
  lemma RegularExactly(q: Queue, xs: seq<Item>, rows: seq<Row>)
    requires Inv(q) && Regular(q.ready) && RowsAdded(q, xs, rows)
    ensures Regular(rows) <==> AllFit(q.ready, xs)
  {
    hide Inv, Regular, RowsAdded, AllFit;
    NumbersSoFar(q);
    if Regular(rows) { RegularFits(q, xs, rows); }
    if AllFit(q.ready, xs) { FitsRegular(q, xs, rows); }
  }

  /** After tasks became ready in the order `xs` and were added to the set in any order `ys`. */
  lemma AddedMirrors(q: Queue, r: Queue, zs: seq<Item>, xs: seq<Item>, ys: seq<Item>)
    requires Inv(q) && Inv(r) && Mirrors(q, zs) && RowsAdded(q, xs, r.ready)
    requires forall x :: x in ys <==> x in xs
    requires forall i, j :: 0 <= i < j < |ys| ==> ys[i] != ys[j]
    requires forall x :: x in xs ==> !IsReady(q, x.id)
    ensures Mirrors(r, ZAddAll(zs, ys)) <==> AllFit(q.ready, xs)
  {
    hide Inv, Mirrors, ZAddAll, Regular, AllFit, ByScore;
    MirrorsExactly(q, zs);
    MirrorsExactly(r, ZAddAll(zs, ys));
    RegularExactly(q, xs, r.ready);
    if AllFit(q.ready, xs) {
      var whole := Items(r.ready);
      InvOrdered(q);
      InvOrdered(r);
      RegularByScore(r.ready);
      RegularByScore(q.ready);
      AddedItems(q, xs, r.ready);
      ListedIsReady(q);
      ZAddAllMeaning(zs, ys, whole);
      ByScoreUnique(ZAddAll(zs, ys), whole);
    }
  }

  lemma InvOrdered(q: Queue)
    requires Inv(q)
    ensures Ordered(q.ready)
  {
    hide Places;
  }

  lemma ListedIsReady(q: Queue)
    ensures forall x :: x in Items(q.ready) ==> IsReady(q, x.id)
  {
    forall x | x in Items(q.ready) ensures IsReady(q, x.id) {
      var i :| 0 <= i < |q.ready| && Items(q.ready)[i] == x;
      assert q.ready[i].item.id == x.id;
    }
  }

  lemma AddedItems(q: Queue, xs: seq<Item>, rows: seq<Row>)
    requires RowsAdded(q, xs, rows)
    ensures forall x :: x in Items(rows) <==> x in Items(q.ready) || x in xs
  {
    forall x ensures x in Items(rows) <==> x in Items(q.ready) || x in xs {
      if x in Items(rows) {
        var i :| 0 <= i < |rows| && Items(rows)[i] == x;
        assert rows[i] in rows;
        if rows[i] in q.ready {
          var j :| 0 <= j < |q.ready| && q.ready[j] == rows[i];
          assert Items(q.ready)[j] == x;
        }
      }
      if x in Items(q.ready) {
        var j :| 0 <= j < |q.ready| && Items(q.ready)[j] == x;
        assert q.ready[j] in rows;
        var i :| 0 <= i < |rows| && rows[i] == q.ready[j];
        assert Items(rows)[i] == x;
      }
      if x in xs {
        var k :| 0 <= k < |xs| && xs[k] == x;
        assert RowFor(q, xs, k) in rows;
        var i :| 0 <= i < |rows| && rows[i] == RowFor(q, xs, k);
        assert Items(rows)[i] == x;
      }
    }
  }

  // ------------------------------------------------------------------ the Redis side

  /** What Redis holds: the sorted set, the leases and the dead letters. */
  datatype Redis = Redis(zs: seq<Item>, inflight: map<nat, Held>, dead: seq<Item>)

  function WithoutItem(zs: seq<Item>, id: nat): seq<Item> {
    if zs == [] then []
    else if zs[0].id == id then WithoutItem(zs[1..], id) else [zs[0]] + WithoutItem(zs[1..], id)
  }

  function HeldItems(inflight: map<nat, Held>, ids: seq<nat>): (xs: seq<Item>)
    requires forall i :: 0 <= i < |ids| ==> ids[i] in inflight
    ensures |xs| == |ids| && forall i :: 0 <= i < |ids| ==> xs[i] == inflight[ids[i]].item
  {
    seq(|ids|, i requires 0 <= i < |ids| => inflight[ids[i]].item)
  }

  /** The order in which a hash lists the same tasks may be any other. */
  ghost predicate Rearranged(ids: seq<nat>, order: seq<nat>) {
    && (forall id :: id in order <==> id in ids)
    && (forall i, j :: 0 <= i < j < |order| ==> order[i] != order[j])
  }

  /** REQUEUE_LUA, walking the hash in its own order. */
  function RedisSweep(r: Redis, order: seq<nat>): Redis
    requires forall i :: 0 <= i < |order| ==> order[i] in r.inflight
  {
    r.(zs := ZAddAll(r.zs, HeldItems(r.inflight, order)),
       inflight := map id: nat | id in r.inflight && id !in order :: r.inflight[id])
  }

  /** CLAIM_LUA together with the lease it writes. */
  function RedisClaim(r: Redis, now: int, lease: int): Redis {
    var i := ScriptFirstDue(r.zs, now);
    if ScriptClaim(r.zs, now).None? then r
    else r.(zs := r.zs[..i] + r.zs[i + 1..], inflight := r.inflight[r.zs[i].id := Held(now + lease, r.zs[i])])
  }

  /** RELEASE_LUA */
  function RedisRelease(r: Redis, id: nat): Redis {
    if id !in r.inflight then r
    else r.(zs := ZAddAll(r.zs, [r.inflight[id].item]), inflight := r.inflight - {id})
  }

  function RedisRetry(r: Redis, id: nat, newId: nat, now: int): Redis {
    var i := FirstDead(r.dead, id);
    if i == |r.dead| then r
    else r.(zs := ZAddAll(r.zs, [r.dead[i].(id := newId, enqueuedAt := now)]), dead := r.dead[..i] + r.dead[i + 1..])
  }

  predicate RedisEnabled(r: Redis, e: Event, order: seq<nat>) {
    e.Sweeping? ==> forall i :: 0 <= i < |order| ==> order[i] in r.inflight
  }

  function RedisStep(r: Redis, e: Event, order: seq<nat>): Redis
    requires RedisEnabled(r, e, order)
  {
    match e
    case Enqueuing(item) => r.(zs := ZAddAll(r.zs, [item]))
    case Claiming(now, lease) => RedisClaim(r, now, lease)
    case Acking(id) => r.(inflight := r.inflight - {id})
    case Renewing(id, until) =>
      if id in r.inflight then r.(inflight := r.inflight[id := r.inflight[id].(until := until)]) else r
    case Discarding(id) => r.(inflight := r.inflight - {id}, zs := WithoutItem(r.zs, id))
    case Releasing(id) => RedisRelease(r, id)
    case Sweeping(now, ids) => RedisSweep(r, order)
    case Burying(item) => r.(inflight := r.inflight - {item.id}, dead := r.dead + [item])
    case Retrying(id, newId, now) => RedisRetry(r, id, newId, now)
  }

  ghost predicate Same(q: Queue, r: Redis) {
    Mirrors(q, r.zs) && r.inflight == q.inflight && r.dead == q.dead
  }

  /**
   What a caller can check before an operation: the task that becomes ready fits behind the ready
   ones of its priority, and at most 99 deferred tasks precede the one to be claimed.
   */
  ghost predicate Agreeable(q: Queue, e: Event) {
    match e
    case Enqueuing(item) => Fits(q.ready, item)
    case Claiming(now, _) => FirstDue(q.ready, now) < SCAN || FirstDue(q.ready, now) == |q.ready|
    case Releasing(id) => id in q.inflight ==> Fits(q.ready, q.inflight[id].item)
    case Sweeping(_, ids) => (forall i :: 0 <= i < |ids| ==> ids[i] in q.inflight) &&
        AllFit(q.ready, HeldItems(q.inflight, ids))
    case Retrying(id, newId, now) =>
      IsDead(q, id) ==> Fits(q.ready, q.dead[FirstDead(q.dead, id)].(id := newId, enqueuedAt := now))
    case _ => true
  }

  // ------------------------------------------------------------------ one step

  lemma EnqueueRows(q: Queue, item: Item)
    requires Inv(q)
    ensures RowsAdded(q, [item], Enqueue(q, item).ready)
  {
    hide Places, DistinctIds, DistinctDead;
    PushMeaning(q.ready, Row(-item.priority, q.sequence + 1, item));
    assert RowFor(q, [item], 0) == Row(-item.priority, q.sequence + 1, item);
  }

  /** Adding one task keeps the backends agreeing exactly when it fits. */
  lemma EnqueueMirrors(q: Queue, zs: seq<Item>, item: Item)
    requires Inv(q) && Inv(Enqueue(q, item)) && Mirrors(q, zs) && !IsReady(q, item.id)
    ensures Mirrors(Enqueue(q, item), ZAddAll(zs, [item])) <==> Fits(q.ready, item)
  {
    hide Inv, Mirrors, ZAddAll, Fits;
    EnqueueRows(q, item);
    AddedMirrors(q, Enqueue(q, item), zs, [item], [item]);
    assert AllFit(q.ready, [item]) <==> Fits(q.ready, [item][0]);
  }

  lemma MirrorsReady(q: Queue, p: Queue, zs: seq<Item>)
    requires q.ready == p.ready
    ensures Mirrors(q, zs) == Mirrors(p, zs)
  {}

  /**
   A release keeps the backends agreeing exactly when every ready task of the same priority was
   enqueued before the one released.
   */
  lemma ReleaseMirrors(q: Queue, zs: seq<Item>, id: nat)
    requires Inv(q) && Mirrors(q, zs) && id in q.inflight && 0 <= q.inflight[id].item.enqueuedAt < WEIGHT
    ensures Mirrors(Release(q, id), ZAdd(zs, q.inflight[id].item)) <==> Behind(q.ready, q.inflight[id].item)
  {
    hide Mirrors, Behind, ZAdd;
    var item := q.inflight[id].item;
    assert Places(q, id) == 1;
    ReleaseInv(q, id);
    hide Inv;
    ReleaseRows(q, id);
    AddedMirrors(q, Release(q, id), zs, [item], [item]);
    assert [item][1..] == [];
    assert AllFit(q.ready, [item]) <==> Fits(q.ready, [item][0]);
  }

  lemma ReleaseRows(q: Queue, id: nat)
    requires Inv(q) && id in q.inflight
    ensures RowsAdded(q, [q.inflight[id].item], Release(q, id).ready)
  {
    hide Places, DistinctIds, DistinctDead;
    var item := q.inflight[id].item;
    PushMeaning(q.ready, Row(-item.priority, q.sequence + 1, item));
    assert RowFor(q, [item], 0) == Row(-item.priority, q.sequence + 1, item);
  }

  /** The rows after a sweep: one per released task, numbered in the order of release. */
  lemma {:induction false} SweepRows(q: Queue, ids: seq<nat>)
    requires Inv(q) && (forall i :: 0 <= i < |ids| ==> ids[i] in q.inflight)
    requires forall i, j :: 0 <= i < j < |ids| ==> ids[i] != ids[j]
    ensures RowsAdded(q, HeldItems(q.inflight, ids), ReleaseAll(q, ids).ready)
    decreases |ids|
  {
    hide Inv;
    if ids != [] {
      var m := Release(q, ids[0]);
      ReleaseInv(q, ids[0]);
      ReleaseRows(q, ids[0]);
      SweepRows(m, ids[1..]);
      RowsAfter(q, m, ids, ReleaseAll(q, ids).ready);
    }
  }

  lemma RowsAfter(q: Queue, m: Queue, ids: seq<nat>, rows: seq<Row>)
    requires ids != [] && (forall i :: 0 <= i < |ids| ==> ids[i] in q.inflight)
    requires forall i, j :: 0 <= i < j < |ids| ==> ids[i] != ids[j]
    requires m.sequence == q.sequence + 1 && m.inflight == q.inflight - {ids[0]}
    requires RowsAdded(q, [q.inflight[ids[0]].item], m.ready)
    requires RowsAdded(m, HeldItems(m.inflight, ids[1..]), rows)
    ensures RowsAdded(q, HeldItems(q.inflight, ids), rows)
  {
    var xs, tail, head := HeldItems(q.inflight, ids), HeldItems(m.inflight, ids[1..]), [q.inflight[ids[0]].item];
    forall k | 0 <= k < |xs| ensures RowFor(q, xs, k) in rows {
      if k == 0 {
        assert RowFor(q, head, 0) in m.ready;
      } else {
        assert RowFor(m, tail, k - 1) in rows;
      }
    }
    forall x | x in rows && x !in q.ready ensures exists k :: 0 <= k < |xs| && x == RowFor(q, xs, k) {
      if x in m.ready {
        assert x == RowFor(q, xs, 0);
      } else {
        var k :| 0 <= k < |tail| && x == RowFor(m, tail, k);
        assert x == RowFor(q, xs, k + 1);
      }
    }
  }

  /** A sweep keeps the backends agreeing exactly when the swept tasks fit, whatever order Redis walks its hash in. */
  lemma SweepMirrors(q: Queue, zs: seq<Item>, now: int, ids: seq<nat>, order: seq<nat>)
    requires Inv(q) && Mirrors(q, zs) && IsSweep(q, now, ids) && Rearranged(ids, order)
    ensures (forall i :: 0 <= i < |ids| ==> ids[i] in q.inflight) &&
      (forall i :: 0 <= i < |order| ==> order[i] in q.inflight)
    ensures Mirrors(ReleaseAll(q, ids), ZAddAll(zs, HeldItems(q.inflight, order))) <==>
      AllFit(q.ready, HeldItems(q.inflight, ids))
  {
    hide Mirrors, AllFit, ZAddAll, ReleaseAll, Regular;
    SweptApart(q, now, ids);
    forall i | 0 <= i < |order| ensures order[i] in q.inflight { assert order[i] in ids; }
    var xs, ys := HeldItems(q.inflight, ids), HeldItems(q.inflight, order);
    SweepRows(q, ids);
    ReleaseAllInv(q, ids);
    SameItems(q.inflight, ids, order);
    assert forall i :: 0 <= i < |order| ==> ys[i].id == order[i];
    forall x | x in xs ensures !IsReady(q, x.id) {
      var k :| 0 <= k < |xs| && xs[k] == x;
      assert Places(q, ids[k]) == 1;
    }
    hide Inv;
    AddedMirrors(q, ReleaseAll(q, ids), zs, xs, ys);
  }

  lemma SweptApart(q: Queue, now: int, ids: seq<nat>)
    requires IsSweep(q, now, ids)
    ensures forall i :: 0 <= i < |ids| ==> ids[i] in q.inflight
    ensures forall i, j :: 0 <= i < j < |ids| ==> ids[i] != ids[j]
  {
    forall i | 0 <= i < |ids| ensures ids[i] in q.inflight { assert ids[i] in ids; }
    assert forall i, j :: 0 <= i < j < |ids| ==> SweptBefore(q.inflight, ids[i], ids[j]);
  }

  lemma SameItems(inflight: map<nat, Held>, ids: seq<nat>, order: seq<nat>)
    requires forall i :: 0 <= i < |ids| ==> ids[i] in inflight
    requires Rearranged(ids, order) && forall i :: 0 <= i < |order| ==> order[i] in inflight
    ensures forall x :: x in HeldItems(inflight, order) <==> x in HeldItems(inflight, ids)
  {
    forall x ensures x in HeldItems(inflight, order) <==> x in HeldItems(inflight, ids) {
      if x in HeldItems(inflight, order) {
        var i :| 0 <= i < |order| && HeldItems(inflight, order)[i] == x;
        assert order[i] in ids;
        var j :| 0 <= j < |ids| && ids[j] == order[i];
        assert HeldItems(inflight, ids)[j] == x;
      }
      if x in HeldItems(inflight, ids) {
        var j :| 0 <= j < |ids| && HeldItems(inflight, ids)[j] == x;
        assert ids[j] in order;
        var i :| 0 <= i < |order| && order[i] == ids[j];
        assert HeldItems(inflight, order)[i] == x;
      }
    }
  }

  /** Fewer ready rows, in the same order, stay regular. */
  lemma FewerRegular(rows: seq<Row>, fewer: seq<Row>)
    requires Regular(rows) && forall x :: x in fewer ==> x in rows
    ensures Regular(fewer)
  {}

  /** A claim keeps the backends agreeing exactly when both take the same task, or none. */
  lemma ClaimMirrors(q: Queue, r: Redis, now: int, lease: int)
    requires Inv(q) && Same(q, r) && now >= 0
    ensures Same(Claim(q, now, lease).0, RedisClaim(r, now, lease)) <==> Agreeable(q, Claiming(now, lease))
    ensures Agreeable(q, Claiming(now, lease)) ==> ScriptClaim(r.zs, now) == Claim(q, now, lease).1
  {
    hide Mirrors, Regular;
    MirrorsExactly(q, r.zs);
    SameFirstDue(q.ready, now);
    ClaimInv(q, now, lease);
    var p, i := Claim(q, now, lease).0, FirstDue(q.ready, now);
    MirrorsExactly(p, RedisClaim(r, now, lease).zs);
    hide Inv;
    if i < |q.ready| {
      DropItems(q.ready, i);
      FewerRegular(q.ready, Drop(q.ready, i));
    }
  }

  lemma DropItems(rows: seq<Row>, i: nat)
    requires i < |rows|
    ensures Items(Drop(rows, i)) == Items(rows)[..i] + Items(rows)[i + 1..]
    ensures forall x :: x in Drop(rows, i) ==> x in rows
  {}

  lemma {:induction false} WithoutItems(rows: seq<Row>, id: nat)
    ensures Items(WithoutId(rows, id)) == WithoutItem(Items(rows), id)
    ensures forall x :: x in WithoutId(rows, id) ==> x in rows
    ensures (forall i :: 0 <= i < |rows| ==> rows[i].item.id != id) ==> WithoutId(rows, id) == rows
  {
    if rows != [] {
      WithoutItems(rows[1..], id);
      assert Items(rows)[1..] == Items(rows[1..]);
      assert rows == [rows[0]] + rows[1..];
    }
  }

  lemma DiscardMirrors(q: Queue, zs: seq<Item>, id: nat)
    requires Inv(q) && Mirrors(q, zs)
    ensures Mirrors(Discard(q, id), WithoutItem(zs, id))
  {
    hide Mirrors, Regular;
    DiscardMeaning(q, id);
    MirrorsExactly(q, zs);
    WithoutItems(q.ready, id);
    FewerRegular(q.ready, WithoutId(q.ready, id));
    assert Discard(q, id).ready == WithoutId(q.ready, id);
    hide Inv;
    MirrorsExactly(Discard(q, id), WithoutItem(zs, id));
  }

  lemma RetryMirrors(q: Queue, r: Redis, id: nat, newId: nat, now: int)
    requires Inv(q) && Same(q, r) && newId !in q.issued
    ensures Same(Retry(q, id, newId, now), RedisRetry(r, id, newId, now)) <==> Agreeable(q, Retrying(id, newId, now))
  {
    hide Mirrors, ZAddAll, Fits;
    RetryInv(q, id, newId, now);
    var i := FirstDead(q.dead, id);
    if i < |q.dead| {
      var item := q.dead[i].(id := newId, enqueuedAt := now);
      assert Places(q, newId) == 0;
      hide Inv;
      var p := q.(dead := q.dead[..i] + q.dead[i + 1..], finished := q.finished + {id});
      RetryRows(q, p, item);
      AddedMirrors(q, Retry(q, id, newId, now), r.zs, [item], [item]);
      assert AllFit(q.ready, [item]) <==> Fits(q.ready, [item][0]);
      assert IsDead(q, id);
    } else {
      assert !IsDead(q, id);
    }
  }

  lemma RetryRows(q: Queue, p: Queue, item: Item)
    requires Inv(q) && p.ready == q.ready && p.sequence == q.sequence
    ensures RowsAdded(q, [item], Enqueue(p, item).ready)
  {
    hide Places, DistinctIds, DistinctDead;
    PushMeaning(q.ready, Row(-item.priority, q.sequence + 1, item));
    assert RowFor(q, [item], 0) == Row(-item.priority, q.sequence + 1, item);
  }

  /** Exactly the agreeable operations keep the two backends the same. */
  lemma StepAgrees(q: Queue, r: Redis, e: Event, order: seq<nat>)
    requires Inv(q) && Sensible(q, e) && Same(q, r)
    requires (e.Claiming? ==> e.now >= 0) && (e.Sweeping? ==> Rearranged(e.ids, order))
    ensures RedisEnabled(r, e, order)
    ensures Same(Step(q, e), RedisStep(r, e, order)) <==> Agreeable(q, e)
  {
    hide Inv, Mirrors, ZAddAll, Fits, AllFit, IsSweep, Rearranged;
    match e
    case Enqueuing(item) =>
      assert !IsReady(q, item.id) by { assert Inv(q); NowhereYet(q, item.id); }
      EnqueueInv(q, item);
      EnqueueMirrors(q, r.zs, item);
    case Claiming(now, lease) => ClaimMirrors(q, r, now, lease);
    case Acking(id) => MirrorsReady(q, Ack(q, id), r.zs);
    case Renewing(id, until) => MirrorsReady(q, Renew(q, id, until).0, r.zs);
    case Discarding(id) => DiscardMirrors(q, r.zs, id);
    case Releasing(id) => ReleaseStep(q, r, id);
    case Sweeping(now, ids) => SweepStep(q, r, now, ids, order);
    case Burying(item) => MirrorsReady(q, DeadLetter(q, item), r.zs);
    case Retrying(id, newId, now) => RetryMirrors(q, r, id, newId, now);
  }

  lemma NowhereYet(q: Queue, id: nat)
    requires Inv(q) && id !in q.issued
    ensures !IsReady(q, id)
  {
    assert Places(q, id) == 0;
  }

  lemma ReleaseStep(q: Queue, r: Redis, id: nat)
    requires Inv(q) && Same(q, r)
    ensures Same(Release(q, id), RedisRelease(r, id)) <==> Agreeable(q, Releasing(id))
  {
    hide Mirrors, ZAddAll, Fits;
    if id in q.inflight {
      var item := q.inflight[id].item;
      assert Places(q, id) == 1;
      ReleaseInv(q, id);
      hide Inv;
      ReleaseRows(q, id);
      AddedMirrors(q, Release(q, id), r.zs, [item], [item]);
      assert AllFit(q.ready, [item]) <==> Fits(q.ready, [item][0]);
    }
  }

  lemma SweepStep(q: Queue, r: Redis, now: int, ids: seq<nat>, order: seq<nat>)
    requires Inv(q) && Same(q, r) && IsSweep(q, now, ids) && Rearranged(ids, order)
    ensures RedisEnabled(r, Sweeping(now, ids), order)
    ensures Same(ReleaseAll(q, ids), RedisSweep(r, order)) <==> Agreeable(q, Sweeping(now, ids))
  {
    SweepMirrors(q, r.zs, now, ids, order);
    SweptApart(q, now, ids);
    assert forall id :: id in ids ==> id in q.inflight;
    ReleaseAllMeaning(q, ids);
    hide Inv, Mirrors, ZAddAll, AllFit, ReleaseAll;
  }

  // ------------------------------------------------------------------ whole runs

  /** The same operations on both backends, from empty; Redis may walk its hash in any order. */
  ghost predicate IsDualRun(qs: seq<Queue>, rs: seq<Redis>, es: seq<Event>, orders: seq<seq<nat>>) {
    && IsRun(qs, es) && |rs| == |qs| && |orders| == |es| && rs[0] == Redis([], map[], [])
    && forall k :: 0 <= k < |es| ==>
         && (es[k].Claiming? ==> es[k].now >= 0)
         && (es[k].Sweeping? ==> Rearranged(es[k].ids, orders[k]))
         && RedisEnabled(rs[k], es[k], orders[k])
         && rs[k + 1] == RedisStep(rs[k], es[k], orders[k])
  }

  /**
   Over any run whose operations were agreeable the two backends hold the same tasks in the same
   order, and the next operation keeps it so exactly when it is agreeable too.
   */
  lemma {:induction false} BackendsAgreeOverRuns(qs: seq<Queue>, rs: seq<Redis>, es: seq<Event>,
      orders: seq<seq<nat>>, n: nat)
    requires IsDualRun(qs, rs, es, orders) && n <= |es|
    requires forall k :: 0 <= k < n ==> Agreeable(qs[k], es[k])
    ensures Same(qs[n], rs[n])
    ensures n < |es| ==> (Same(qs[n + 1], rs[n + 1]) <==> Agreeable(qs[n], es[n]))
    ensures n < |es| && es[n].Claiming? && Agreeable(qs[n], es[n]) ==>
      Claim(qs[n], es[n].now, es[n].lease).1 == ScriptClaim(rs[n].zs, es[n].now)
  {
    hide Inv, Same, Agreeable, Step, RedisStep, RedisEnabled, Sensible;
    ExactlyOnePlace(qs, es, n);
    if n == 0 {
      EmptySame(qs[0], rs[0]);
    } else {
      BackendsAgreeOverRuns(qs, rs, es, orders, n - 1);
    }
    if n < |es| {
      StepAgrees(qs[n], rs[n], es[n], orders[n]);
      if es[n].Claiming? { ClaimMirrors(qs[n], rs[n], es[n].now, es[n].lease); }
    }
  }

  lemma EmptySame(q: Queue, r: Redis)
    requires q == EMPTY && r == Redis([], map[], [])
    ensures Same(q, r)
  {}
}
