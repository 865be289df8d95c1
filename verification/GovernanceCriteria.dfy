/** Criteria as they are written: which items of a list count, and what it means that a plan moves them. */
module GovernanceCriteria {
  import opened Common
  import opened Governance

  // ------------------------------------------------------------------ the items that count

  /** Item `i` of the list, trimmed, is `x`. */
  predicate Reads(cfg: Config, items: seq<string>, i: int, x: string) {
    0 <= i < |items| && cfg.strip(items[i]) == x
  }

  predicate Blank(cfg: Config, items: seq<string>, i: int) {
    Reads(cfg, items, i, "")
  }

  /** `picked` are the items that are not blank, trimmed and in order; `at` says where each was. */
  ghost predicate Picks(cfg: Config, items: seq<string>, at: seq<nat>, picked: seq<string>) {
    && |at| == |picked|
    && (forall k, l :: 0 <= k < l < |at| ==> at[k] < at[l])
    && (forall k :: 0 <= k < |at| ==> Reads(cfg, items, at[k], picked[k]) && picked[k] != "")
    && (forall i: nat :: i < |items| && !Blank(cfg, items, i) ==> i in at)
  }

  /** Every item that is not blank is kept, trimmed and in its place, and nothing else. */
  lemma {:induction false} CleanPicks(cfg: Config, items: seq<string>) returns (at: seq<nat>)
    ensures Picks(cfg, items, at, Clean(cfg, items))
  {
    if items == [] {
      at := [];
    } else {
      hide Picks;
      var n := |items| - 1;
      at := CleanPicks(cfg, items[..n]);
      var x := cfg.strip(items[n]);
      if x != "" {
        OneMorePick(cfg, items, at, Clean(cfg, items[..n]));
        at := at + [n];
      } else {
        OneMoreBlank(cfg, items, at, Clean(cfg, items[..n]));
        assert Clean(cfg, items[..n]) + [] == Clean(cfg, items[..n]);
      }
    }
  }

  lemma ReadsPrefix(cfg: Config, items: seq<string>, n: nat)
    requires n <= |items|
    ensures forall i, x :: i < n ==> Reads(cfg, items[..n], i, x) == Reads(cfg, items, i, x)
  {}

  lemma OneMorePick(cfg: Config, items: seq<string>, at: seq<nat>, picked: seq<string>)
    requires items != [] && Picks(cfg, items[..|items| - 1], at, picked)
    requires cfg.strip(items[|items| - 1]) != ""
    ensures Picks(cfg, items, at + [|items| - 1], picked + [cfg.strip(items[|items| - 1])])
  {
    var n := |items| - 1;
    ReadsPrefix(cfg, items, n);
    forall k | 0 <= k < |at| ensures at[k] < n { assert Reads(cfg, items[..n], at[k], picked[k]); }
    assert Reads(cfg, items, n, cfg.strip(items[n]));
    hide Reads;
    forall i: nat | i < |items| && !Blank(cfg, items, i) ensures i in at + [n] {
      if i < n { assert !Blank(cfg, items[..n], i); }
    }
  }

  lemma OneMoreBlank(cfg: Config, items: seq<string>, at: seq<nat>, picked: seq<string>)
    requires items != [] && Picks(cfg, items[..|items| - 1], at, picked)
    requires cfg.strip(items[|items| - 1]) == ""
    ensures Picks(cfg, items, at, picked)
  {
    var n := |items| - 1;
    ReadsPrefix(cfg, items, n);
    forall k | 0 <= k < |at| ensures at[k] < n { assert Reads(cfg, items[..n], at[k], picked[k]); }
    assert Reads(cfg, items, n, "");
    hide Reads;
    forall i: nat | i < |items| && !Blank(cfg, items, i) ensures i in at {
      assert i < n;
      assert !Blank(cfg, items[..n], i);
    }
  }

  ghost function PlacesOf(cfg: Config, items: seq<string>, x: string): set<nat> {
    set i: nat | i < |items| && Reads(cfg, items, i, x)
  }

  /** Multiplicity: an item counts as often as it is written. */
  lemma {:induction false} CleanCounts(cfg: Config, items: seq<string>, x: string)
    ensures multiset(Clean(cfg, items))[x] == if x == "" then 0 else |PlacesOf(cfg, items, x)|
  {
    if items == [] {
      assert PlacesOf(cfg, items, x) == {};
    } else {
      var n := |items| - 1;
      var last := cfg.strip(items[n]);
      CleanCounts(cfg, items[..n], x);
      MorePlaces(cfg, items, x);
      hide PlacesOf, Reads;
      assert Clean(cfg, items) == Clean(cfg, items[..n]) + if last != "" then [last] else [];
    }
  }

  lemma MorePlaces(cfg: Config, items: seq<string>, x: string)
    requires items != []
    ensures var n := |items| - 1;
      |PlacesOf(cfg, items, x)| == |PlacesOf(cfg, items[..n], x)| + if cfg.strip(items[n]) == x then 1 else 0
  {
    var n := |items| - 1;
    ReadsPrefix(cfg, items, n);
    assert Reads(cfg, items, n, x) <==> cfg.strip(items[n]) == x;
    hide Reads;
    var few, all := PlacesOf(cfg, items[..n], x), PlacesOf(cfg, items, x);
    forall i: nat ensures i in all <==> i in few || (i == n && Reads(cfg, items, n, x)) {}
    if Reads(cfg, items, n, x) {
      assert n !in few && all == few + {n};
    } else {
      assert all == few;
    }
  }

  /** Membership: exactly the items that are not blank, trimmed. */
  lemma CleanMeaning(cfg: Config, items: seq<string>, x: string)
    ensures x in Clean(cfg, items) <==> x != "" && exists i :: 0 <= i < |items| && cfg.strip(items[i]) == x
  {
    var at := CleanPicks(cfg, items);
    var picked := Clean(cfg, items);
    hide Clean;
    if x in picked {
      var k :| 0 <= k < |picked| && picked[k] == x;
      assert Reads(cfg, items, at[k], x);
    }
    if i :| x != "" && 0 <= i < |items| && cfg.strip(items[i]) == x {
      assert Reads(cfg, items, i, x);
      assert !Blank(cfg, items, i);
      var k :| 0 <= k < |at| && at[k] == i;
      assert Reads(cfg, items, at[k], picked[k]);
    }
  }

  // ------------------------------------------------------------------ what a sound plan is

  /** Criterion `j` of successor `i`, trimmed, is `x`. */
  predicate Takes(cfg: Config, successors: seq<Successor>, i: int, j: int, x: string) {
    0 <= i < |successors| && Reads(cfg, successors[i].criteria, j, x)
  }

  /** The criteria of all successors that are not blank, each at a place of its own. */
  ghost predicate PicksAll(cfg: Config, successors: seq<Successor>, at: seq<(nat, nat)>, picked: seq<string>) {
    && |at| == |picked|
    && (forall k, l :: 0 <= k < l < |at| ==> at[k] != at[l])
    && (forall k :: 0 <= k < |at| ==> Takes(cfg, successors, at[k].0, at[k].1, picked[k]) && picked[k] != "")
    && (forall i: nat, j: nat, x :: Takes(cfg, successors, i, j, x) && x != "" ==> (i, j) in at)
  }

  lemma TakesPrefix(cfg: Config, successors: seq<Successor>, n: nat)
    requires n <= |successors|
    ensures forall i, j, x :: i < n ==> Takes(cfg, successors[..n], i, j, x) == Takes(cfg, successors, i, j, x)
  {
    hide Reads;
  }

  lemma {:induction false} TransferredPicks(cfg: Config, successors: seq<Successor>) returns (at: seq<(nat, nat)>)
    ensures PicksAll(cfg, successors, at, Transferred(cfg, successors))
  {
    if successors == [] {
      at := [];
    } else {
      hide PicksAll, Picks;
      var n := |successors| - 1;
      var before := TransferredPicks(cfg, successors[..n]);
      var own := CleanPicks(cfg, successors[n].criteria);
      var tail := Numbered(n, own);
      MorePicks(cfg, successors, before, Transferred(cfg, successors[..n]), own, Clean(cfg, successors[n].criteria));
      at := before + tail;
    }
  }

  function Numbered(n: nat, own: seq<nat>): (r: seq<(nat, nat)>)
    ensures |r| == |own| && forall k :: 0 <= k < |own| ==> r[k] == (n, own[k])
  {
    seq(|own|, k requires 0 <= k < |own| => (n, own[k]))
  }

  lemma MorePicks(cfg: Config, successors: seq<Successor>, before: seq<(nat, nat)>, picked: seq<string>,
      own: seq<nat>, more: seq<string>)
    requires successors != [] && PicksAll(cfg, successors[..|successors| - 1], before, picked)
    requires Picks(cfg, successors[|successors| - 1].criteria, own, more)
    ensures PicksAll(cfg, successors, before + Numbered(|successors| - 1, own), picked + more)
  {
    var n := |successors| - 1;
    var tail, few := Numbered(n, own), successors[..n];
    hide Numbered;
    TakesPrefix(cfg, successors, n);
    forall k | 0 <= k < |before|
      ensures Takes(cfg, successors, before[k].0, before[k].1, picked[k]) && before[k].0 < n
    {
      assert Takes(cfg, few, before[k].0, before[k].1, picked[k]);
    }
    forall k | 0 <= k < |tail| ensures Takes(cfg, successors, tail[k].0, tail[k].1, more[k]) {
      assert Reads(cfg, successors[n].criteria, own[k], more[k]);
    }
    MoreCovered(cfg, successors, before, picked, own, more);
    hide Takes, Reads, Blank;
    assert forall k :: 0 <= k < |before| ==> picked[k] != "";
    assert forall k :: 0 <= k < |more| ==> more[k] != "";
    JoinPlaces(cfg, successors, before, picked, tail, more);
  }

  /** Two lists of places, all of the first before successor `n` and all of the second at it. */
  lemma JoinPlaces(cfg: Config, successors: seq<Successor>, a: seq<(nat, nat)>, x: seq<string>, b: seq<(nat, nat)>,
      y: seq<string>)
    requires successors != [] && |a| == |x| && |b| == |y|
    requires forall k :: 0 <= k < |a| ==>
      Takes(cfg, successors, a[k].0, a[k].1, x[k]) && x[k] != "" && a[k].0 < |successors| - 1
    requires forall k :: 0 <= k < |b| ==>
      Takes(cfg, successors, b[k].0, b[k].1, y[k]) && y[k] != "" && b[k].0 == |successors| - 1
    requires forall k, l :: 0 <= k < l < |a| ==> a[k] != a[l]
    requires forall k, l :: 0 <= k < l < |b| ==> b[k] != b[l]
    requires forall i: nat, j: nat, x :: Takes(cfg, successors, i, j, x) && x != "" ==> (i, j) in a + b
    ensures PicksAll(cfg, successors, a + b, x + y)
  {
    hide Takes;
    forall k | 0 <= k < |a + b|
      ensures Takes(cfg, successors, (a + b)[k].0, (a + b)[k].1, (x + y)[k]) && (x + y)[k] != ""
    {
      if k >= |a| { assert (a + b)[k] == b[k - |a|] && (x + y)[k] == y[k - |a|]; }
    }
    forall k, l | 0 <= k < l < |a + b| ensures (a + b)[k] != (a + b)[l] {
      if k >= |a| { assert b[k - |a|] != b[l - |a|]; }
    }
  }

  lemma MoreCovered(cfg: Config, successors: seq<Successor>, before: seq<(nat, nat)>, picked: seq<string>,
      own: seq<nat>, more: seq<string>)
    requires successors != [] && PicksAll(cfg, successors[..|successors| - 1], before, picked)
    requires Picks(cfg, successors[|successors| - 1].criteria, own, more)
    ensures forall i: nat, j: nat, x :: Takes(cfg, successors, i, j, x) && x != "" ==>
      (i, j) in before + Numbered(|successors| - 1, own)
  {
    var n := |successors| - 1;
    var tail, few := Numbered(n, own), successors[..n];
    hide Numbered;
    TakesPrefix(cfg, successors, n);
    forall i: nat, j: nat, x | Takes(cfg, successors, i, j, x) && x != "" ensures (i, j) in before + tail {
      if i < n {
        assert Takes(cfg, few, i, j, x);
      } else {
        assert !Blank(cfg, successors[n].criteria, j);
        var k :| 0 <= k < |own| && own[k] == j;
        assert tail[k] == (n, j);
      }
    }
  }

  /** Exactly the criteria the successors name, trimmed; repeated exactly if one is named at two places. */
  lemma TransferredMeaning(cfg: Config, successors: seq<Successor>)
    ensures forall x :: x in Transferred(cfg, successors) <==>
      x != "" && exists i, j :: Takes(cfg, successors, i, j, x)
    ensures NoRepeats(Transferred(cfg, successors)) <==> TakenOnce(cfg, successors)
  {
    var at := TransferredPicks(cfg, successors);
    var picked := Transferred(cfg, successors);
    hide Transferred, Takes;
    forall x ensures x in picked <==> x != "" && exists i, j :: Takes(cfg, successors, i, j, x) {
      if x in picked {
        var k :| 0 <= k < |picked| && picked[k] == x;
        assert Takes(cfg, successors, at[k].0, at[k].1, x);
      }
      if i, j :| x != "" && Takes(cfg, successors, i, j, x) {
        TakesNat(cfg, successors, i, j, x);
        var k :| 0 <= k < |at| && at[k] == (i, j);
        TakesOne(cfg, successors, i, j, x, picked[k]);
      }
    }
    PlacesApart(cfg, successors, at, picked);
  }

  ghost predicate TakenOnce(cfg: Config, successors: seq<Successor>) {
    forall i, j, k, l, x :: Takes(cfg, successors, i, j, x) && Takes(cfg, successors, k, l, x) && x != "" ==>
      i == k && j == l
  }

  lemma TakesNat(cfg: Config, successors: seq<Successor>, i: int, j: int, x: string)
    requires Takes(cfg, successors, i, j, x)
    ensures 0 <= i && 0 <= j
  {}

  lemma TakesOne(cfg: Config, successors: seq<Successor>, i: int, j: int, x: string, y: string)
    requires Takes(cfg, successors, i, j, x) && Takes(cfg, successors, i, j, y)
    ensures x == y
  {}

  lemma PlacesApart(cfg: Config, successors: seq<Successor>, at: seq<(nat, nat)>, picked: seq<string>)
    requires PicksAll(cfg, successors, at, picked)
    ensures NoRepeats(picked) <==> TakenOnce(cfg, successors)
  {
    hide Takes;
    if NoRepeats(picked) {
      forall i, j, k, l, x | Takes(cfg, successors, i, j, x) && Takes(cfg, successors, k, l, x) && x != ""
        ensures i == k && j == l
      {
        TakesNat(cfg, successors, i, j, x);
        TakesNat(cfg, successors, k, l, x);
        var p :| 0 <= p < |at| && at[p] == (i, j);
        var q :| 0 <= q < |at| && at[q] == (k, l);
        TakesOne(cfg, successors, i, j, x, picked[p]);
        TakesOne(cfg, successors, k, l, x, picked[q]);
      }
    }
    if TakenOnce(cfg, successors) {
      forall p, q | 0 <= p < q < |picked| ensures picked[p] != picked[q] {
        assert Takes(cfg, successors, at[p].0, at[p].1, picked[p]);
        assert Takes(cfg, successors, at[q].0, at[q].1, picked[q]);
      }
    }
  }

  /** Some item, trimmed, is `x`. */
  ghost predicate Written(cfg: Config, items: seq<string>, x: string) {
    exists i :: Reads(cfg, items, i, x)
  }

  /** Some successor takes `x`. */
  ghost predicate Taken(cfg: Config, successors: seq<Successor>, x: string) {
    exists i, j :: Takes(cfg, successors, i, j, x)
  }

  predicate AnyWritten(cfg: Config, items: seq<string>) {
    exists i :: 0 <= i < |items| && !Blank(cfg, items, i)
  }

  lemma CleanNone(cfg: Config, items: seq<string>)
    ensures Clean(cfg, items) != [] <==> AnyWritten(cfg, items)
  {
    var at := CleanPicks(cfg, items);
    var picked := Clean(cfg, items);
    hide Clean;
    if picked != [] {
      assert Reads(cfg, items, at[0], picked[0]);
      assert !Blank(cfg, items, at[0]);
    }
    if AnyWritten(cfg, items) {
      var i: nat :| i < |items| && !Blank(cfg, items, i);
      assert i in at;
    }
  }

  /**
   A sound plan in the words of the request: the source is named and has a criterion that is not
   blank; every successor has a title of its own and such a criterion; what the successors take is
   exactly what remains, and each criterion is taken at one place only.
   */
  ghost predicate SoundAsWritten(cfg: Config, scope: Scope) {
    var remaining, successors := scope.source.remaining, scope.successors;
    && cfg.strip(scope.source.identifier) != "" && AnyWritten(cfg, remaining) && successors != []
    && (forall i :: 0 <= i < |successors| ==>
          cfg.strip(successors[i].title) != "" && AnyWritten(cfg, successors[i].criteria))
    && (forall i, j :: 0 <= i < j < |successors| ==>
          cfg.strip(successors[i].title) != cfg.strip(successors[j].title))
    && (forall x :: x != "" ==> (Written(cfg, remaining, x) <==> Taken(cfg, successors, x)))
    && TakenOnce(cfg, successors)
  }

  lemma PlanSoundMeaning(cfg: Config, scope: Scope)
    ensures PlanSound(cfg, scope) <==> SoundAsWritten(cfg, scope)
  {
    var remaining, successors := scope.source.remaining, scope.successors;
    hide Clean, Transferred, Reads, Takes, TakenOnce, AnyWritten;
    CleanNone(cfg, remaining);
    TransferredMeaning(cfg, successors);
    forall i | 0 <= i < |successors|
      ensures Clean(cfg, successors[i].criteria) != [] <==> AnyWritten(cfg, successors[i].criteria)
    {
      CleanNone(cfg, successors[i].criteria);
    }
    TitlesApart(cfg, successors);
    SameElements(cfg, remaining, successors);
    hide Elements, NoRepeats, Titles;
  }

  lemma TitlesApart(cfg: Config, successors: seq<Successor>)
    ensures NoRepeats(Titles(cfg, successors)) <==>
      forall i, j :: 0 <= i < j < |successors| ==>
        cfg.strip(successors[i].title) != cfg.strip(successors[j].title)
  {
    var titles := Titles(cfg, successors);
    assert forall i :: 0 <= i < |successors| ==> titles[i] == cfg.strip(successors[i].title);
    hide Titles;
  }

  lemma WrittenMeaning(cfg: Config, items: seq<string>, x: string)
    ensures x in Clean(cfg, items) <==> x != "" && Written(cfg, items, x)
  {
    CleanMeaning(cfg, items, x);
    if i :| Reads(cfg, items, i, x) { assert 0 <= i < |items| && cfg.strip(items[i]) == x; }
    if i :| 0 <= i < |items| && cfg.strip(items[i]) == x { assert Reads(cfg, items, i, x); }
  }

  lemma SameElements(cfg: Config, remaining: seq<string>, successors: seq<Successor>)
    ensures Elements(Transferred(cfg, successors)) == Elements(Clean(cfg, remaining)) <==>
      forall x :: x != "" ==> (Written(cfg, remaining, x) <==> Taken(cfg, successors, x))
  {
    hide Clean, Transferred, Reads, Takes;
    var a, b := Transferred(cfg, successors), Clean(cfg, remaining);
    TransferredMeaning(cfg, successors);
    forall x ensures x in b <==> x != "" && Written(cfg, remaining, x) { WrittenMeaning(cfg, remaining, x); }
    ByElement(a, b);
    if forall x :: x in a <==> x in b {
      forall x | x != "" ensures Written(cfg, remaining, x) <==> Taken(cfg, successors, x) {
        assert x in a <==> x in b;
      }
    }
  }

  lemma ByElement(a: seq<string>, b: seq<string>)
    ensures Elements(a) == Elements(b) <==> forall x :: x in a <==> x in b
  {
    if Elements(a) == Elements(b) {
      forall x ensures x in a <==> x in b { assert x in Elements(a) <==> x in Elements(b); }
    }
  }

  // ------------------------------------------------------------------ what the records hold

  /** The record of the successor with the `k`-th number holds the criterion. */
  predicate Holds(created: seq<Record>, ids: seq<Id>, k: int, x: string) {
    && 0 <= k < |ids| && ByIdentifier(created, ids[k]).Some?
    && x in ByIdentifier(created, ids[k]).value.metadata.criteria
  }

  /** No criterion stands in two records, or twice in one. */
  ghost predicate HeldOnce(created: seq<Record>, ids: seq<Id>) {
    && (forall k, l, x :: Holds(created, ids, k, x) && Holds(created, ids, l, x) ==> k == l)
    && forall k :: 0 <= k < |ids| ==> HeldApart(created, ids[k])
  }

  predicate HeldApart(created: seq<Record>, id: Id) {
    ByIdentifier(created, id).Some? ==> NoRepeats(ByIdentifier(created, id).value.metadata.criteria)
  }

  lemma {:induction false} CoveredMeaning(created: seq<Record>, ids: seq<Id>)
    requires AllRecorded(created, ids)
    ensures forall x :: x in CoveredBy(created, ids) <==> exists k :: Holds(created, ids, k, x)
    ensures NoRepeats(CoveredBy(created, ids)) <==> HeldOnce(created, ids)
  {
    if ids != [] {
      var n := |ids| - 1;
      var few, last := CoveredBy(created, ids[..n]), ByIdentifier(created, ids[n]).value.metadata.criteria;
      CoveredMeaning(created, ids[..n]);
      forall k, x ensures Holds(created, ids, k, x) <==> Holds(created, ids[..n], k, x) || (k == n && x in last) {}
      assert CoveredBy(created, ids) == few + last;
      assert HeldApart(created, ids[n]) <==> NoRepeats(last);
      HoldsWithin(created, ids[..n]);
      hide Holds, ByIdentifier, CoveredBy, HeldApart, NoRepeats;
      forall x ensures x in few + last <==> exists k :: Holds(created, ids, k, x) {
        if x in last { assert Holds(created, ids, n, x); }
        if x in few {
          var k :| Holds(created, ids[..n], k, x);
          assert Holds(created, ids, k, x);
        }
      }
      NoRepeatsJoin(few, last);
      HeldJoin(created, ids, few, last);
    }
  }

  lemma HoldsWithin(created: seq<Record>, ids: seq<Id>)
    ensures forall k, x :: Holds(created, ids, k, x) ==> 0 <= k < |ids|
  {}

  lemma HeldJoin(created: seq<Record>, ids: seq<Id>, few: seq<string>, last: seq<string>)
    requires ids != []
    requires var n := |ids| - 1;
      && (forall k, x :: Holds(created, ids, k, x) <==> Holds(created, ids[..n], k, x) || (k == n && x in last))
      && (forall k, x :: Holds(created, ids[..n], k, x) ==> 0 <= k < n)
      && (forall x :: x in few <==> exists k :: Holds(created, ids[..n], k, x))
      && (HeldApart(created, ids[n]) <==> NoRepeats(last))
    ensures HeldOnce(created, ids) <==>
      HeldOnce(created, ids[..|ids| - 1]) && NoRepeats(last) && forall x :: x in few ==> x !in last
  {
    hide Holds, HeldApart, NoRepeats;
    var n := |ids| - 1;
    if HeldOnce(created, ids) {
      forall k, l, x | Holds(created, ids[..n], k, x) && Holds(created, ids[..n], l, x) ensures k == l {
        assert Holds(created, ids, k, x) && Holds(created, ids, l, x);
      }
      forall x | x in few ensures x !in last {
        var k :| Holds(created, ids[..n], k, x);
        assert Holds(created, ids, k, x);
        assert Holds(created, ids, n, x) <==> x in last;
      }
      forall k | 0 <= k < n ensures HeldApart(created, ids[..n][k]) { assert ids[..n][k] == ids[k]; }
    }
    if HeldOnce(created, ids[..n]) && NoRepeats(last) && forall x :: x in few ==> x !in last {
      forall k, l, x | Holds(created, ids, k, x) && Holds(created, ids, l, x) ensures k == l {
        assert k != n ==> x in few;
        assert l != n ==> x in few;
      }
      forall k | 0 <= k < |ids| ensures HeldApart(created, ids[k]) {
        if k < n { assert HeldApart(created, ids[..n][k]); }
      }
    }
  }

  lemma NoRepeatsJoin(a: seq<string>, b: seq<string>)
    ensures NoRepeats(a + b) <==> NoRepeats(a) && NoRepeats(b) && forall x :: x in a ==> x !in b
  {
    if NoRepeats(a + b) {
      forall i, j | 0 <= i < j < |a| ensures a[i] != a[j] { assert (a + b)[i] == a[i] && (a + b)[j] == a[j]; }
      forall i, j | 0 <= i < j < |b| ensures b[i] != b[j] {
        assert (a + b)[|a| + i] == b[i] && (a + b)[|a| + j] == b[j];
      }
      forall i, j | 0 <= i < |a| && 0 <= j < |b| ensures a[i] != b[j] {
        assert (a + b)[i] == a[i] && (a + b)[|a| + j] == b[j];
      }
    }
    if NoRepeats(a) && NoRepeats(b) && forall x :: x in a ==> x !in b {
      forall i, j | 0 <= i < j < |a + b| ensures (a + b)[i] != (a + b)[j] {
        if i < |a| <= j { assert (a + b)[i] in a && (a + b)[j] == b[j - |a|]; }
      }
    }
  }

  /** The `k`-th record and no other holds the criterion. */
  ghost predicate OnlyIn(created: seq<Record>, ids: seq<Id>, k: int, x: string) {
    Holds(created, ids, k, x) && forall l :: Holds(created, ids, l, x) ==> l == k
  }

  /**
   Every item that is not blank after trimming is a criterion of exactly one of the records, once;
   and the records hold nothing else.
   */
  ghost predicate MovedOnce(cfg: Config, created: seq<Record>, ids: seq<Id>, items: seq<string>) {
    && (forall i :: 0 <= i < |items| && cfg.strip(items[i]) != "" ==>
          exists k :: OnlyIn(created, ids, k, cfg.strip(items[i])))
    && (forall k, x :: Holds(created, ids, k, x) ==>
          x != "" && exists i :: 0 <= i < |items| && cfg.strip(items[i]) == x)
    && (forall k :: 0 <= k < |ids| ==> ByIdentifier(created, ids[k]).Some? && HeldApart(created, ids[k]))
  }

  /** Exact coverage of the cleaned list, in terms of the list as written. */
  lemma ExactMeansOnce(cfg: Config, created: seq<Record>, ids: seq<Id>, items: seq<string>)
    requires AllRecorded(created, ids) && NoRepeats(CoveredBy(created, ids))
    requires Elements(CoveredBy(created, ids)) == Elements(Clean(cfg, items))
    ensures MovedOnce(cfg, created, ids, items)
  {
    CoveredMeaning(created, ids);
    ByElement(CoveredBy(created, ids), Clean(cfg, items));
    hide Holds, HeldApart, ByIdentifier, CoveredBy, Clean, Elements, NoRepeats;
    forall i | 0 <= i < |items| && cfg.strip(items[i]) != "" ensures exists k :: OnlyIn(created, ids, k,
        cfg.strip(items[i])) {
      var x := cfg.strip(items[i]);
      CleanMeaning(cfg, items, x);
      assert x in CoveredBy(created, ids);
      var k :| Holds(created, ids, k, x);
      assert OnlyIn(created, ids, k, x);
    }
    forall k, x | Holds(created, ids, k, x)
      ensures x != "" && exists i :: 0 <= i < |items| && cfg.strip(items[i]) == x
    {
      assert x in CoveredBy(created, ids);
      CleanMeaning(cfg, items, x);
    }
  }

  // ------------------------------------------------------------------ the numbers of a plan

  /** Record `i` is the first that carries the number. */
  predicate First(created: seq<Record>, i: int, id: Id) {
    0 <= i < |created| && created[i].identifier == id && forall j :: 0 <= j < i ==> created[j].identifier != id
  }

  lemma {:induction false} LookupIsFirst(created: seq<Record>, id: Id) returns (i: nat)
    requires ByIdentifier(created, id).Some?
    ensures First(created, i, id) && ByIdentifier(created, id).value == created[i]
  {
    if created[0].identifier == id {
      i := 0;
    } else {
      i := LookupIsFirst(created[1..], id);
      i := i + 1;
    }
  }

  /** An earlier attempt of this transfer holds the number: its first record points back, or its own intent has it. */
  ghost predicate HeldByTransfer(s: State, sourceId: Id, id: Id) {
    || (exists i :: First(s.created, i, id) && s.created[i].metadata.transferredFrom == sourceId)
    || (id in s.intents && s.intents[id].identifier == id)
  }

  lemma OursMeaning(s: State, sourceId: Id, id: Id)
    ensures Ours(s, sourceId, id) <==> HeldByTransfer(s, sourceId, id)
  {
    if ByIdentifier(s.created, id).Some? {
      var i := LookupIsFirst(s.created, id);
      forall j | First(s.created, j, id) ensures i == j { FirstIsOne(s.created, i, j, id); }
    }
  }

  lemma FirstIsOne(created: seq<Record>, i: int, j: int, id: Id)
    requires First(created, i, id) && First(created, j, id)
    ensures i == j
  {}

  /** Nothing the server listed, no intent and no record carries the number. */
  ghost predicate Unheld(s: State, remoteIds: set<Id>, id: Id) {
    && id !in remoteIds
    && (forall key :: key in s.intents ==> s.intents[key].identifier != id)
    && (forall i :: 0 <= i < |s.created| ==> s.created[i].identifier != id)
    && (forall i :: 0 <= i < |s.created| && s.created[i].finding.Some? ==>
          s.created[i].finding.value.identifier != id)
  }

  lemma KnownMeaning(s: State, remoteIds: set<Id>, id: Id)
    ensures id !in Known(s, remoteIds) <==> Unheld(s, remoteIds, id)
  {
    if id !in Known(s, remoteIds) {
      forall i | 0 <= i < |s.created| ensures s.created[i] in s.created {}
    }
  }

  lemma {:induction false} ResolveNumbers(cfg: Config, s: State, sourceId: Id, wanted: seq<Id>, taken: set<Id>, i: nat)
    requires Fair(cfg) && Resolve(cfg, s, sourceId, wanted, taken).Some? && i < |wanted|
    ensures var ids := Resolve(cfg, s, sourceId, wanted, taken).value;
      && (wanted[i] != "" ==> ids[i] == wanted[i] && cfg.wellFormed(Ir, ids[i]))
      && ((ids[i] !in taken && ids[i] !in ids[..i]) || (wanted[i] != "" && Ours(s, sourceId, ids[i])))
    decreases |wanted|
  {
    hide Ours, Fair;
    var ids := Resolve(cfg, s, sourceId, wanted, taken).value;
    assert GoodReservation(cfg, Ir, taken) by { FairReserves(cfg, taken); }
    if i > 0 {
      var more := taken + {ids[0]};
      ResolveNumbers(cfg, s, sourceId, wanted[1..], more, i - 1);
      var rest := Resolve(cfg, s, sourceId, wanted[1..], more).value;
      assert ids == [ids[0]] + rest && ids[..i] == [ids[0]] + rest[..i - 1];
    }
  }

  lemma FairReserves(cfg: Config, taken: set<Id>)
    requires Fair(cfg)
    ensures GoodReservation(cfg, Ir, taken)
  {}

  /**
   Every number of an accepted plan is the one its retry or its successor asks for, and well formed,
   or a newly reserved one; and nobody else holds it: it is not the source's, not an earlier
   successor's and nowhere in use, or it is an asked-for number this very transfer holds already.
   */
  lemma PlannedNumbers(cfg: Config, s: State, scope: Scope, remoteIds: set<Id>, i: nat)
    requires Fair(cfg) && PlanFor(cfg, s, scope, remoteIds).Some? && i < |scope.successors|
    ensures var source, ids := cfg.strip(scope.source.identifier), PlanFor(cfg, s, scope, remoteIds).value;
      var asked := if source in s.plans && i < |s.plans[source].identifiers|
                   then cfg.strip(s.plans[source].identifiers[i]) else cfg.strip(scope.successors[i].identifier);
      && (asked != "" ==> ids[i] == asked && cfg.wellFormed(Ir, asked))
      && (|| (ids[i] != source && ids[i] !in ids[..i] && Unheld(s, remoteIds, ids[i]))
          || (asked != "" && HeldByTransfer(s, source, ids[i])))
  {
    hide Resolve, Known, Ours, HeldByTransfer, Fair, PlanSound, Unheld;
    var source, ids := cfg.strip(scope.source.identifier), PlanFor(cfg, s, scope, remoteIds).value;
    ResolveNumbers(cfg, s, source, Wanted(cfg, s, scope), Known(s, remoteIds) + {source}, i);
    KnownMeaning(s, remoteIds, ids[i]);
    OursMeaning(s, source, ids[i]);
  }
}
