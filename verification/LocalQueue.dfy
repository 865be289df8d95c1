/** The in-process queue object: its fields are rewritten in place, one step of the model per call. */
module LocalQueue {
  import opened Common
  import Q = TaskQueue

  class TaskQueue {
    var local: seq<Q.Row>              // the heap, listed in pop order
    var inflight: map<nat, Q.Held>
    var deadLetters: seq<Q.Item>
    var sequence: nat
    ghost var issued: set<nat>
    ghost var finished: set<nat>

    ghost function State(): Q.Queue
      reads this
    {
      Q.Queue(local, inflight, deadLetters, sequence, issued, finished)
    }

    constructor ()
      ensures State() == Q.EMPTY
    {
      local, inflight, deadLetters, sequence, issued, finished := [], map[], [], 0, {}, {};
    }

    method Enqueue(item: Q.Item)
      modifies this
      ensures State() == Q.Step(old(State()), Q.Enqueuing(item))
    {
      sequence := sequence + 1;
      local := Q.Push(local, Q.Row(-item.priority, sequence, item));
      issued, finished := issued + {item.id}, finished - {item.id};
    }

    /** The popping loop of `claim`: the first due task, and the deferred rows popped before it. */
    method PopDue(now: int) returns (item: Option<Q.Item>, deferred: seq<Q.Row>)
      modifies this`local
      ensures |deferred| == Q.FirstDue(old(local), now) && deferred == old(local)[..|deferred|]
      ensures item == if |deferred| == |old(local)| then None else Some(old(local)[|deferred|].item)
      ensures local == if item.None? then [] else old(local)[|deferred| + 1..]
    {
      deferred := [];
      item := None;
      while local != []
        invariant |deferred| <= |old(local)| && deferred == old(local)[..|deferred|]
        invariant forall k :: 0 <= k < |deferred| ==> !Q.Due(old(local)[k].item, now)
        invariant local == old(local)[|deferred|..]
        decreases |local|
      {
        var row := local[0];
        local := local[1..];
        if Q.Due(row.item, now) {
          FirstDueIs(old(local), now, |deferred|);
          return Some(row.item), deferred;
        }
        deferred := deferred + [row];
      }
      FirstDueIs(old(local), now, |deferred|);
    }

    /** The loop that pushes the deferred rows back in front of the rest. */
    method PushBack(deferred: seq<Q.Row>)
      requires Q.Sorted(deferred + local)
      modifies this`local
      ensures local == deferred + old(local)
    {
      hide Q.Before;
      ghost var rest := local;
      var j := 0;
      assert deferred[..0] + rest == rest;
      while j < |deferred|
        invariant j <= |deferred| && local == deferred[..j] + rest
      {
        Between(deferred, rest, j);
        PushBetween(deferred[..j], rest, deferred[j]);
        local := Q.Push(local, deferred[j]);
        j := j + 1;
        assert deferred[..j] == deferred[..j - 1] + [deferred[j - 1]];
      }
      assert deferred[..j] == deferred;
    }

    method Claim(now: int, lease: int) returns (item: Option<Q.Item>)
      requires Q.Sorted(local)
      modifies this`local, this`inflight
      ensures (State(), item) == Q.Claim(old(State()), now, lease)
    {
      var deferred;
      ghost var all := local;
      item, deferred := PopDue(now);
      SortedAround(all, |deferred|);
      PushBack(deferred);
      if item.Some? {
        inflight := inflight[item.value.id := Q.Held(now + lease, item.value)];
      } else {
        assert all[..|all|] + [] == all;
      }
    }

    method Ack(id: nat)
      modifies this
      ensures State() == Q.Step(old(State()), Q.Acking(id))
    {
      if id in inflight { finished := finished + {id}; }
      inflight := inflight - {id};
      assert id !in old(inflight) ==> inflight == old(inflight);
    }

    method Renew(id: nat, until: int) returns (ok: bool)
      modifies this
      ensures (State(), ok) == Q.Renew(old(State()), id, until)
    {
      if id !in inflight { return false; }
      inflight := inflight[id := Q.Held(until, inflight[id].item)];
      return true;
    }

    method Discard(id: nat)
      modifies this
      ensures State() == Q.Step(old(State()), Q.Discarding(id))
    {
      Ack(id);
      var kept := Filter(local, id);
      KeptIffAbsent(local, id);
      hide Q.WithoutId;
      if kept != local { finished := finished + {id}; }
      local := kept;
    }

    method TakeInflight(id: nat) returns (item: Option<Q.Item>)
      modifies this`inflight
      ensures item == if id in old(inflight) then Some(old(inflight)[id].item) else None
      ensures inflight == old(inflight) - {id}
    {
      item := if id in inflight then Some(inflight[id].item) else None;
      inflight := inflight - {id};
    }

    method Release(id: nat) returns (item: Option<Q.Item>)
      modifies this
      ensures State() == Q.Step(old(State()), Q.Releasing(id))
      ensures item.Some? == old(id in inflight)
    {
      item := TakeInflight(id);
      if item.Some? {
        Enqueue(item.value);
      } else {
        assert inflight == old(inflight);
      }
    }

    /** The expired task that goes first among `left`. */
    method Oldest(left: set<nat>) returns (best: nat)
      requires left != {} && forall id :: id in left ==> id in inflight
      ensures best in left && forall id :: id in left && id != best ==> Q.SweptBefore(inflight, best, id)
    {
      best :| best in left;
      var rest := left - {best};
      while rest != {}
        invariant rest <= left && best in left && best !in rest
        invariant forall id :: id in left - rest && id != best ==> Q.SweptBefore(inflight, best, id)
        decreases rest
      {
        var id :| id in rest;
        forall x | x in left ensures SweepOrder(inflight, id, best, x) { SweepOrderTotal(inflight, id, best, x); }
        if Q.SweptBefore(inflight, id, best) { best := id; }
        rest := rest - {id};
      }
    }

    /** `requeue_expired`; a missing or zero `now` means the wall clock. */
    method RequeueExpired(now: Option<int>, wall: int) returns (ids: seq<nat>)
      modifies this
      ensures var current := if now.None? || now.value == 0 then wall else now.value;
        && Q.IsSweep(old(State()), current, ids)
        && State() == Q.Step(old(State()), Q.Sweeping(current, ids))
    {
      hide Q.IsSweep, Q.Release;
      var current := if now.None? || now.value == 0 then wall else now.value;
      ids := ExpiredInOrder(current);
      ghost var q := State();
      var k := 0;
      while k < |ids|
        invariant k <= |ids|
        invariant Q.ReleaseAll(State(), ids[k..]) == Q.ReleaseAll(q, ids)
      {
        assert ids[k..][1..] == ids[k + 1..];
        var _ := Release(ids[k]);
        k := k + 1;
      }
    }

    method ExpiredInOrder(current: int) returns (ids: seq<nat>)
      ensures Q.IsSweep(State(), current, ids)
    {
      hide Q.SweptBefore;
      var left := set id | id in inflight && inflight[id].until <= current;
      ids := [];
      while left != {}
        invariant forall id :: id in ids || id in left <==> id in inflight && !Q.Active(State(), id, current)
        invariant forall i, j :: 0 <= i < j < |ids| ==> Q.SweptBefore(inflight, ids[i], ids[j])
        invariant forall i, id :: 0 <= i < |ids| && id in left ==> Q.SweptBefore(inflight, ids[i], id)
        decreases left
      {
        var id := Oldest(left);
        ids := ids + [id];
        left := left - {id};
      }
    }

    method DeadLetter(item: Q.Item)
      modifies this
      ensures State() == Q.Step(old(State()), Q.Burying(item))
    {
      inflight := inflight - {item.id};
      deadLetters := deadLetters + [item];
      finished := finished - {item.id};
    }

    method RequeueDeadLetter(id: nat, newId: nat, now: int) returns (ok: bool)
      modifies this
      ensures State() == Q.Step(old(State()), Q.Retrying(id, newId, now))
      ensures ok <==> old(Q.IsDead(State(), id))
    {
      var i := 0;
      while i < |deadLetters| && deadLetters[i].id != id
        invariant i <= |deadLetters| && forall k :: 0 <= k < i ==> deadLetters[k].id != id
      {
        i := i + 1;
      }
      FirstDeadIs(deadLetters, id, i);
      if i == |deadLetters| { return false; }
      var item := deadLetters[i];
      deadLetters := deadLetters[..i] + deadLetters[i + 1..];
      finished := finished + {id};
      Enqueue(item.(id := newId, enqueuedAt := now));
      return true;
    }
  }

  /** The list comprehension of `discard`. */
  method Filter(rows: seq<Q.Row>, id: nat) returns (kept: seq<Q.Row>)
    ensures kept == Q.WithoutId(rows, id)
  {
    kept := [];
    var i := 0;
    while i < |rows|
      invariant i <= |rows| && kept + Q.WithoutId(rows[i..], id) == Q.WithoutId(rows, id)
    {
      assert rows[i..][1..] == rows[i + 1..];
      if rows[i].item.id != id {
        assert kept + ([rows[i]] + Q.WithoutId(rows[i + 1..], id)) == kept + [rows[i]] + Q.WithoutId(rows[i + 1..], id);
        kept := kept + [rows[i]];
      }
      i := i + 1;
    }
  }

  ghost predicate SweepOrder(inflight: map<nat, Q.Held>, a: nat, b: nat, x: nat)
    requires a in inflight && b in inflight && x in inflight
  {
    && (a == b || Q.SweptBefore(inflight, a, b) || Q.SweptBefore(inflight, b, a))
    && (Q.SweptBefore(inflight, a, b) && (x == b || Q.SweptBefore(inflight, b, x)) ==> Q.SweptBefore(inflight, a, x))
  }

  lemma SweepOrderTotal(inflight: map<nat, Q.Held>, a: nat, b: nat, x: nat)
    requires a in inflight && b in inflight && x in inflight
    ensures SweepOrder(inflight, a, b, x)
  {}

  /** Sorted rows stay sorted when one is left out, or none. */
  lemma SortedAround(rows: seq<Q.Row>, i: nat)
    requires Q.Sorted(rows) && i <= |rows|
    ensures Q.Sorted(rows[..i] + if i < |rows| then rows[i + 1..] else [])
  {
    hide Q.Before;
  }

  /** A deferred row lies between those before it and all that follow. */
  lemma Between(deferred: seq<Q.Row>, rest: seq<Q.Row>, j: nat)
    requires Q.Sorted(deferred + rest) && j < |deferred|
    ensures forall k :: 0 <= k < j ==> Q.Before(deferred[..j][k], deferred[j])
    ensures forall k :: 0 <= k < |rest| ==> Q.Before(deferred[j], rest[k])
  {
    hide Q.Before;
    var all := deferred + rest;
    assert all[j] == deferred[j];
    forall k | 0 <= k < j ensures Q.Before(deferred[..j][k], deferred[j]) {
      assert all[k] == deferred[k] && Q.Before(all[k], all[j]);
    }
    forall k | 0 <= k < |rest| ensures Q.Before(deferred[j], rest[k]) {
      assert all[|deferred| + k] == rest[k] && Q.Before(all[j], all[|deferred| + k]);
    }
  }

  lemma FirstDueIs(rows: seq<Q.Row>, now: int, i: nat)
    requires i <= |rows| && forall k :: 0 <= k < i ==> !Q.Due(rows[k].item, now)
    requires i < |rows| ==> Q.Due(rows[i].item, now)
    ensures Q.FirstDue(rows, now) == i
  {}

  lemma FirstDeadIs(dead: seq<Q.Item>, id: nat, i: nat)
    requires i <= |dead| && forall k :: 0 <= k < i ==> dead[k].id != id
    requires i < |dead| ==> dead[i].id == id
    ensures Q.FirstDead(dead, id) == i
  {}

  lemma {:induction false} PushBetween(pre: seq<Q.Row>, post: seq<Q.Row>, row: Q.Row)
    requires forall k :: 0 <= k < |pre| ==> Q.Before(pre[k], row)
    requires post != [] ==> Q.Before(row, post[0])
    ensures Q.Push(pre + post, row) == pre + [row] + post
  {
    if pre == [] {
      assert pre + post == post;
    } else {
      assert (pre + post)[1..] == pre[1..] + post;
      PushBetween(pre[1..], post, row);
      assert pre + [row] + post == [pre[0]] + (pre[1..] + [row] + post);
    }
  }

  lemma {:induction false} KeptIffAbsent(rows: seq<Q.Row>, id: nat)
    ensures Q.WithoutId(rows, id) == rows <==> !exists k :: 0 <= k < |rows| && rows[k].item.id == id
    ensures |Q.WithoutId(rows, id)| <= |rows|
  {
    if rows != [] {
      KeptIffAbsent(rows[1..], id);
      assert rows == [rows[0]] + rows[1..];
      if rows[0].item.id != id && exists k :: 0 <= k < |rows| && rows[k].item.id == id {
        var k :| 0 <= k < |rows| && rows[k].item.id == id;
        assert rows[1..][k - 1].item.id == id;
      }
    }
  }
}
