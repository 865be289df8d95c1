/** The audit trail of lab/audit.py: a journal whose records are chained by hash. */
module Audit {
  import opened Common

  /** The stored fields, as text; `extra` is journalled but not hashed. */
  datatype Entry = Entry(
    sequence: int, timestamp: string, actor: string, action: string, subject: string,
    decision: string, rule: string, reason: string, previous: string, extra: string, hash: string)

  type Hash = string -> string

  /** SHA-256 in hex: taken to be injective, with non-empty output free of the separator. */
  ghost predicate IsDigest(h: Hash) {
    && (forall x, y :: h(x) == h(y) ==> x == y)
    && (forall x :: Plain(h(x)) && h(x) != "")
  }

  /** No separator inside. */
  predicate Plain(s: string) {
    forall i :: 0 <= i < |s| ==> s[i] != '|'
  }

  function Zeros(n: nat): (s: string)
    ensures |s| == n && Plain(s)
  {
    if n == 0 then "" else Zeros(n - 1) + "0"
  }

  const GENESIS := Zeros(64)

  function NatText(n: nat): string {
    if n < 10 then [Digit(n)] else NatText(n / 10) + [Digit(n % 10)]
  }

  function IntText(n: int): string {
    if n < 0 then "-" + NatText(-n) else NatText(n)
  }

  /** Texts joined with a separator. */
  function Join(xs: seq<string>): string
    requires xs != []
  {
    if |xs| == 1 then xs[0] else Join(xs[..|xs| - 1]) + "|" + xs[|xs| - 1]
  }

  /** The hashed fields before the previous hash, as text. */
  function Fields(e: Entry): (xs: seq<string>)
    ensures |xs| == 8
  {
    [IntText(e.sequence), e.timestamp, e.actor, e.action, e.subject, e.decision, e.rule, e.reason]
  }

  /** Everything the canonical text holds before the last separator. */
  function Head(e: Entry): string {
    Join(Fields(e))
  }

  /** `_canonical` */
  function Canonical(e: Entry): string {
    Head(e) + "|" + e.previous
  }

  function LastHash(trail: seq<Entry>): string {
    if trail == [] then GENESIS else trail[|trail| - 1].hash
  }

  ghost predicate IsTrail(h: Hash, trail: seq<Entry>) {
    forall i :: 0 <= i < |trail| ==>
      && trail[i].sequence == i + 1
      && trail[i].previous == LastHash(trail[..i])
      && trail[i].hash == h(Canonical(trail[i]))
  }

  /** A decision to be journalled. */
  datatype Decision = Decision(actor: string, action: string, subject: string, decision: string, rule: string,
      reason: string, extra: string)

  function Chain(h: Hash, trail: seq<Entry>, d: Decision, timestamp: string): Entry {
    var sequence := if trail == [] then 1 else trail[|trail| - 1].sequence + 1;
    var previous := if LastHash(trail) == "" then GENESIS else LastHash(trail);
    var e := Entry(sequence, timestamp, d.actor, d.action, d.subject, d.decision, d.rule, d.reason, previous, d.extra,
        "");
    e.(hash := h(Canonical(e)))
  }

  /**
   The record of a decision: every field as decided, numbered next, carrying the hash of the record
   before it, or the genesis value where there is none, and its own hash over all of these.
   */
  lemma RecordOfDecision(h: Hash, trail: seq<Entry>, d: Decision, timestamp: string)
    ensures var e := Chain(h, trail, d, timestamp);
      && e.actor == d.actor && e.action == d.action && e.subject == d.subject && e.decision == d.decision
      && e.rule == d.rule && e.reason == d.reason && e.extra == d.extra && e.timestamp == timestamp
      && e.sequence == (if trail == [] then 1 else trail[|trail| - 1].sequence + 1)
      && (trail != [] && trail[|trail| - 1].hash != "" ==> e.previous == trail[|trail| - 1].hash)
      && (trail == [] || trail[|trail| - 1].hash == "" ==>
            |e.previous| == 64 && forall i :: 0 <= i < 64 ==> e.previous[i] == '0')
      && e.hash == h(IntText(e.sequence) + "|" + e.timestamp + "|" + e.actor + "|" + e.action + "|" + e.subject + "|"
                     + e.decision + "|" + e.rule + "|" + e.reason + "|" + e.previous)
  {
    var e := Chain(h, trail, d, timestamp);
    CanonicalOfChain(h, trail, d, timestamp);
    CanonicalText(e);
    ZerosOnly(64);
    hide Canonical, Zeros;
  }

  lemma CanonicalText(e: Entry)
    ensures Canonical(e) == IntText(e.sequence) + "|" + e.timestamp + "|" + e.actor + "|" + e.action + "|" + e.subject
      + "|" + e.decision + "|" + e.rule + "|" + e.reason + "|" + e.previous
  {
    var xs := Fields(e);
    assert xs[..7] == [IntText(e.sequence), e.timestamp, e.actor, e.action, e.subject, e.decision, e.rule];
    assert xs[..7][..6] == xs[..6] && xs[..6][..5] == xs[..5] && xs[..5][..4] == xs[..4];
    assert xs[..4][..3] == xs[..3] && xs[..3][..2] == xs[..2] && xs[..2][..1] == xs[..1];
    JoinOne(xs[..1]);
    JoinNext(xs[..2]);
    JoinNext(xs[..3]);
    JoinNext(xs[..4]);
    JoinNext(xs[..5]);
    JoinNext(xs[..6]);
    JoinNext(xs[..7]);
    JoinNext(xs);
    hide Join, IntText;
  }

  lemma JoinOne(xs: seq<string>)
    requires |xs| == 1
    ensures Join(xs) == xs[0]
  {}

  lemma JoinNext(xs: seq<string>)
    requires |xs| > 1
    ensures Join(xs) == Join(xs[..|xs| - 1]) + "|" + xs[|xs| - 1]
  {}

  lemma {:induction false} ZerosOnly(n: nat)
    ensures forall i :: 0 <= i < n ==> Zeros(n)[i] == '0'
  {
    if n > 0 { ZerosOnly(n - 1); }
  }

  /** Appending keeps a trail valid, and never makes a broken one look valid. */
  lemma AppendKeepsTrail(h: Hash, trail: seq<Entry>, d: Decision, timestamp: string)
    requires IsDigest(h)
    ensures IsTrail(h, trail + [Chain(h, trail, d, timestamp)]) <==> IsTrail(h, trail)
  {
    var longer := trail + [Chain(h, trail, d, timestamp)];
    if IsTrail(h, longer) {
      TrailPrefix(h, longer, |trail|);
      assert longer[..|trail|] == trail;
    }
    if IsTrail(h, trail) { ChainFits(h, trail, d, timestamp); }
  }

  lemma HeadNotEmpty(h: Hash, trail: seq<Entry>)
    requires IsDigest(h) && IsTrail(h, trail)
    ensures LastHash(trail) != ""
  {
    hide Canonical, Plain;
  }

  lemma ChainFits(h: Hash, trail: seq<Entry>, d: Decision, timestamp: string)
    requires IsDigest(h) && IsTrail(h, trail)
    ensures IsTrail(h, trail + [Chain(h, trail, d, timestamp)])
  {
    hide Canonical;
    HeadNotEmpty(h, trail);
    var last := Chain(h, trail, d, timestamp);
    var longer := trail + [last];
    assert last.sequence == |trail| + 1 && last.previous == LastHash(trail);
    hide LastHash, IsDigest, Chain;
    CanonicalOfChain(h, trail, d, timestamp);
    forall i | 0 <= i < |longer|
      ensures longer[i].sequence == i + 1
      ensures longer[i].previous == LastHash(longer[..i]) && longer[i].hash == h(Canonical(longer[i]))
    {
      if i < |trail| {
        assert longer[..i] == trail[..i];
      } else {
        assert longer[..i] == trail;
      }
    }
  }

  lemma CanonicalOfChain(h: Hash, trail: seq<Entry>, d: Decision, timestamp: string)
    ensures var e := Chain(h, trail, d, timestamp); e.hash == h(Canonical(e))
  {
    hide Join;
  }

  // ------------------------------------------------------------------ the head fixes the trail

  lemma SeparatorIsLast(a: string, x: string, b: string, y: string)
    requires Plain(y) && a + "|" + x == b + "|" + y
    ensures |a| <= |b|
  {
    var s := a + "|" + x;
    assert s[|a|] == '|';
    assert s == b + "|" + y;
    assert forall i :: |b| < i < |s| ==> s[i] == y[i - |b| - 1];
  }

  /** Texts that agree after joining with a separator-free tail agree in both parts. */
  lemma JoinSplits(a: string, x: string, b: string, y: string)
    requires Plain(x) && Plain(y) && a + "|" + x == b + "|" + y
    ensures a == b && x == y
  {
    SeparatorIsLast(a, x, b, y);
    SeparatorIsLast(b, y, a, x);
    var s := a + "|" + x;
    assert a == s[..|a|] && b == s[..|b|];
    assert x == s[|a| + 1..] && y == s[|b| + 1..];
  }

  lemma PreviousIsPlain(h: Hash, trail: seq<Entry>, i: nat)
    requires IsDigest(h) && IsTrail(h, trail) && i < |trail|
    ensures Plain(trail[i].previous)
  {
    hide Canonical, Plain;
    if i > 0 { assert trail[..i][i - 1].hash == h(Canonical(trail[i - 1])); }
  }

  lemma SameCanonical(e: Entry, f: Entry)
    requires Plain(e.previous) && Plain(f.previous) && Canonical(e) == Canonical(f)
    ensures e.previous == f.previous
  {
    hide Head, Plain;
    JoinSplits(Head(e), e.previous, Head(f), f.previous);
  }

  lemma LastLink(h: Hash, trail: seq<Entry>)
    requires IsDigest(h) && IsTrail(h, trail) && trail != []
    ensures var n := |trail| - 1;
      && LastHash(trail) == h(Canonical(trail[n]))
      && trail[n].previous == LastHash(trail[..n])
      && Plain(trail[n].previous)
      && IsTrail(h, trail[..n])
  {
    hide Canonical, Plain;
    PreviousIsPlain(h, trail, |trail| - 1);
    TrailPrefix(h, trail, |trail| - 1);
  }

  lemma Injective(h: Hash, x: string, y: string)
    requires IsDigest(h) && h(x) == h(y)
    ensures x == y
  {}

  ghost predicate SameRecords(a: seq<Entry>, b: seq<Entry>) {
    |a| == |b| && forall i :: 0 <= i < |a| ==> Canonical(a[i]) == Canonical(b[i])
  }

  /** Two valid trails of equal length with the same head hash have the same canonical records throughout. */
  lemma {:induction false} HeadFixesTrail(h: Hash, a: seq<Entry>, b: seq<Entry>)
    requires IsDigest(h) && IsTrail(h, a) && IsTrail(h, b)
    requires |a| == |b| && LastHash(a) == LastHash(b)
    ensures SameRecords(a, b)
  {
    hide Canonical, Head, Plain, IsTrail, IsDigest, LastHash;
    if a != [] {
      var n := |a| - 1;
      LastLink(h, a);
      LastLink(h, b);
      Injective(h, Canonical(a[n]), Canonical(b[n]));
      SameCanonical(a[n], b[n]);
      HeadFixesTrail(h, a[..n], b[..n]);
      OneMoreRecord(a, b);
    }
  }

  lemma OneMoreRecord(a: seq<Entry>, b: seq<Entry>)
    requires |a| == |b| > 0 && Canonical(a[|a| - 1]) == Canonical(b[|b| - 1])
    requires SameRecords(a[..|a| - 1], b[..|b| - 1])
    ensures SameRecords(a, b)
  {
    hide Canonical;
    forall i | 0 <= i < |a| - 1 ensures Canonical(a[i]) == Canonical(b[i]) {
      assert a[..|a| - 1][i] == a[i] && b[..|b| - 1][i] == b[i];
    }
  }

  lemma TrailPrefix(h: Hash, trail: seq<Entry>, n: nat)
    requires IsTrail(h, trail) && n <= |trail|
    ensures IsTrail(h, trail[..n])
  {
    forall i | 0 <= i < n ensures trail[..n][..i] == trail[..i] {}
  }

  /** `snapshot_pointer` */
  datatype Pointer = Pointer(records: nat, head: string)

  function Snapshot(trail: seq<Entry>): Pointer {
    Pointer(|trail|, LastHash(trail))
  }

  /**
   Tamper evidence: a valid trail that extends or equals what a snapshot recorded still begins
   with exactly the snapshot's canonical records if its entry at that position carries the head.
   */
  lemma SnapshotDetectsRewriting(h: Hash, before: seq<Entry>, after: seq<Entry>)
    requires IsDigest(h) && IsTrail(h, before) && IsTrail(h, after)
    requires |after| >= Snapshot(before).records && LastHash(after[..|before|]) == Snapshot(before).head
    ensures SameRecords(before, after[..|before|])
  {
    hide Canonical, IsTrail, IsDigest, SameRecords;
    TrailPrefix(h, after, |before|);
    HeadFixesTrail(h, before, after[..|before|]);
  }

  /**
   A rewritten entry is noticed: with its canonical text changed, the trail is no longer valid,
   unless it was the last one, and then the head no longer matches an earlier snapshot.
   */
  lemma RewritingShows(h: Hash, trail: seq<Entry>, k: nat, e: Entry)
    requires IsDigest(h) && IsTrail(h, trail) && k < |trail| && Canonical(e) != Canonical(trail[k])
    ensures IsTrail(h, trail[k := e]) ==> k == |trail| - 1 && Snapshot(trail[k := e]) != Snapshot(trail)
  {
    hide Canonical, IsTrail, IsDigest;
    var changed := trail[k := e];
    if IsTrail(h, changed) && LastHash(changed) == LastHash(trail) { HeadFixesTrail(h, trail, changed); }
  }

  /** Dropping any entry but the last breaks the trail; dropping the last is left to the snapshot. */
  lemma DroppingShows(h: Hash, trail: seq<Entry>, k: nat)
    requires IsDigest(h) && IsTrail(h, trail) && k < |trail|
    ensures IsTrail(h, trail[..k] + trail[k + 1..]) <==> k == |trail| - 1
    ensures Snapshot(trail[..k] + trail[k + 1..]) != Snapshot(trail)
  {
    var less := trail[..k] + trail[k + 1..];
    if k == |trail| - 1 {
      assert less == trail[..k];
      TrailPrefix(h, trail, k);
    } else {
      assert less[k].sequence == k + 2;
    }
  }

  // ------------------------------------------------------------------ which fields the hash fixes

  function Separators(s: string): nat {
    if s == "" then 0 else Separators(s[..|s| - 1]) + if s[|s| - 1] == '|' then 1 else 0
  }

  lemma {:induction false} SeparatorsAdd(a: string, b: string)
    ensures Separators(a + b) == Separators(a) + Separators(b)
  {
    if b == "" {
      assert a + b == a;
    } else {
      assert (a + b)[..|a + b| - 1] == a + b[..|b| - 1];
      SeparatorsAdd(a, b[..|b| - 1]);
    }
  }

  lemma {:induction false} PlainHasNone(s: string)
    ensures Separators(s) == 0 <==> Plain(s)
  {
    if s != "" {
      PlainHasNone(s[..|s| - 1]);
      assert s == s[..|s| - 1] + [s[|s| - 1]];
    }
  }

  function SeparatorsIn(xs: seq<string>): nat {
    if xs == [] then 0 else SeparatorsIn(xs[..|xs| - 1]) + Separators(xs[|xs| - 1])
  }

  lemma {:induction false} JoinCounts(xs: seq<string>)
    requires xs != []
    ensures Separators(Join(xs)) == |xs| - 1 + SeparatorsIn(xs)
  {
    var n := |xs| - 1;
    if n > 0 {
      JoinCounts(xs[..n]);
      SeparatorsAdd(Join(xs[..n]) + "|", xs[n]);
      SeparatorsAdd(Join(xs[..n]), "|");
      assert Separators("|") == 1 by { assert "|"[..0] == ""; }
    } else {
      assert xs[..0] == [];
    }
  }

  ghost predicate AllPlain(xs: seq<string>) {
    forall i :: 0 <= i < |xs| ==> Plain(xs[i])
  }

  lemma {:induction false} AllPlainHasNone(xs: seq<string>)
    ensures SeparatorsIn(xs) == 0 <==> AllPlain(xs)
  {
    if xs != [] {
      var n := |xs| - 1;
      AllPlainHasNone(xs[..n]);
      PlainHasNone(xs[n]);
      assert xs == xs[..n] + [xs[n]];
    }
  }

  lemma {:induction false} JoinInjective(xs: seq<string>, ys: seq<string>)
    requires |xs| == |ys| > 0 && Join(xs) == Join(ys) && AllPlain(xs) && AllPlain(ys)
    ensures xs == ys
  {
    var n := |xs| - 1;
    if n > 0 {
      JoinSplits(Join(xs[..n]), xs[n], Join(ys[..n]), ys[n]);
      JoinInjective(xs[..n], ys[..n]);
      assert xs == xs[..n] + [xs[n]] && ys == ys[..n] + [ys[n]];
    }
  }

  /** Texts without separators are determined by their join, among all texts of that number. */
  lemma PlainDetermined(xs: seq<string>, ys: seq<string>)
    requires |xs| == |ys| > 0 && Join(xs) == Join(ys) && AllPlain(xs)
    ensures xs == ys
  {
    JoinCounts(xs);
    JoinCounts(ys);
    AllPlainHasNone(xs);
    AllPlainHasNone(ys);
    JoinInjective(xs, ys);
  }

  lemma FirstSeparator(s: string) returns (u: string, v: string)
    requires !Plain(s)
    ensures s == u + "|" + v
  {
    var p :| 0 <= p < |s| && s[p] == '|';
    u, v := s[..p], s[p + 1..];
  }

  /** Replacing two neighbours by two others with the same join leaves the whole join as it is. */
  lemma {:induction false} JoinAround(xs: seq<string>, i: nat, x: string, y: string)
    requires i + 1 < |xs| && xs[i] + "|" + xs[i + 1] == x + "|" + y
    ensures Join(xs[i := x][i + 1 := y]) == Join(xs)
  {
    var n, zs := |xs| - 1, xs[i := x][i + 1 := y];
    if i + 1 < n {
      JoinAround(xs[..n], i, x, y);
      assert zs[..n] == xs[..n][i := x][i + 1 := y];
    } else if i > 0 {
      assert xs[..n][..i] == zs[..n][..i] == xs[..i];
      assert Join(xs) == Join(xs[..i]) + "|" + (xs[i] + "|" + xs[n]);
      assert Join(zs) == Join(xs[..i]) + "|" + (x + "|" + y);
    }
  }

  /** With a separator inside one of them, past the first, the boundary beside it can be moved. */
  lemma BoundaryMoves(xs: seq<string>, i: nat) returns (ys: seq<string>)
    requires |xs| >= 3 && 1 <= i < |xs| && !Plain(xs[i])
    ensures |ys| == |xs| && ys[0] == xs[0] && ys != xs && Join(ys) == Join(xs)
  {
    var u, v := FirstSeparator(xs[i]);
    if i + 1 < |xs| {
      var w := v + "|" + xs[i + 1];
      assert xs[i] + "|" + xs[i + 1] == u + "|" + w;
      JoinAround(xs, i, u, w);
      ys := xs[i := u][i + 1 := w];
      assert |ys[i]| < |xs[i]|;
    } else {
      var w := xs[i - 1] + "|" + u;
      assert xs[i - 1] + "|" + xs[i] == w + "|" + v;
      JoinAround(xs, i - 1, w, v);
      ys := xs[i - 1 := w][i := v];
      assert |ys[i]| < |xs[i]|;
    }
  }

  // ------------------------------------------------------------------ the sequence number's text

  lemma {:induction false} NatTextMeaning(n: nat)
    ensures NatText(n) != "" && forall i :: 0 <= i < |NatText(n)| ==> '0' <= NatText(n)[i] <= '9'
    ensures n >= 10 ==> |NatText(n)| >= 2
  {
    if n >= 10 { NatTextMeaning(n / 10); }
  }

  lemma {:induction false} NatTextInjective(n: nat, m: nat)
    requires NatText(n) == NatText(m)
    ensures n == m
  {
    NatTextMeaning(n);
    NatTextMeaning(m);
    if n >= 10 && m >= 10 {
      var s, t := NatText(n), NatText(m);
      assert s[..|s| - 1] == NatText(n / 10) && t[..|t| - 1] == NatText(m / 10);
      assert s[|s| - 1] == Digit(n % 10) && t[|t| - 1] == Digit(m % 10);
      NatTextInjective(n / 10, m / 10);
    } else if n < 10 && m < 10 {
      assert NatText(n)[0] == Digit(n) && NatText(m)[0] == Digit(m);
    }
  }

  lemma SignShows(n: int)
    ensures IntText(n) != "" && (IntText(n)[0] == '-' <==> n < 0)
  {
    NatTextMeaning(if n < 0 then -n else n);
  }

  lemma IntTextInjective(n: int, m: int)
    requires IntText(n) == IntText(m)
    ensures n == m
  {
    SignShows(n);
    SignShows(m);
    if n < 0 && m < 0 {
      assert IntText(n)[1..] == NatText(-n) && IntText(m)[1..] == NatText(-m);
      NatTextInjective(-n, -m);
    } else if n >= 0 && m >= 0 {
      NatTextInjective(n, m);
    }
  }

  lemma IntTextIsPlain(n: int)
    ensures Plain(IntText(n))
  {
    NatTextMeaning(if n < 0 then -n else n);
  }

  // ------------------------------------------------------------------ entries

  /** The hashed fields agree; the hash and the extra data may differ. */
  predicate SameFields(e: Entry, f: Entry) {
    && e.sequence == f.sequence && e.timestamp == f.timestamp && e.actor == f.actor && e.action == f.action
    && e.subject == f.subject && e.decision == f.decision && e.rule == f.rule && e.reason == f.reason
    && e.previous == f.previous
  }

  /** No separator in any text before the previous hash. */
  predicate PlainBody(e: Entry) {
    && Plain(e.timestamp) && Plain(e.actor) && Plain(e.action) && Plain(e.subject)
    && Plain(e.decision) && Plain(e.rule) && Plain(e.reason)
  }

  lemma FieldsOf(e: Entry)
    ensures PlainBody(e) <==> AllPlain(Fields(e))
  {
    hide Plain, IntText;
    IntTextIsPlain(e.sequence);
    var xs := Fields(e);
    if AllPlain(xs) {
      assert Plain(xs[1]) && Plain(xs[2]) && Plain(xs[3]) && Plain(xs[4]) && Plain(xs[5]) && Plain(xs[6]) &&
          Plain(xs[7]);
    }
  }

  lemma SameFieldsOf(e: Entry, f: Entry)
    ensures SameFields(e, f) <==> Fields(e) == Fields(f) && e.previous == f.previous
  {
    hide IntText;
    var xs, ys := Fields(e), Fields(f);
    if xs == ys {
      assert xs[0] == ys[0] && xs[1] == ys[1] && xs[2] == ys[2] && xs[3] == ys[3];
      assert xs[4] == ys[4] && xs[5] == ys[5] && xs[6] == ys[6] && xs[7] == ys[7];
      IntTextInjective(e.sequence, f.sequence);
    }
  }

  function WithFields(e: Entry, xs: seq<string>, previous: string): Entry
    requires |xs| == 8
  {
    e.(timestamp := xs[1], actor := xs[2], action := xs[3], subject := xs[4], decision := xs[5], rule := xs[6],
       reason := xs[7], previous := previous)
  }

  lemma WithFieldsOf(e: Entry, xs: seq<string>, previous: string)
    requires |xs| == 8 && xs[0] == Fields(e)[0]
    ensures Fields(WithFields(e, xs, previous)) == xs
  {
    hide IntText;
  }

  lemma CanonicalIsJoin(e: Entry)
    ensures Canonical(e) == Join(Fields(e) + [e.previous])
  {
    var xs := Fields(e) + [e.previous];
    assert xs[..8] == Fields(e);
  }

  ghost predicate Determined(e: Entry) {
    forall f: Entry :: Canonical(f) == Canonical(e) ==> SameFields(e, f)
  }

  /**
   Exactly when the canonical text of an entry determines its fields: when none of its texts
   contains the separator.
   */
  lemma FieldsDetermined(e: Entry)
    ensures Determined(e) <==> PlainBody(e) && Plain(e.previous)
  {
    hide Plain, PlainBody, Fields, Canonical, SameFields, WithFields;
    FieldsOf(e);
    CanonicalIsJoin(e);
    var xs := Fields(e) + [e.previous];
    AllPlainSnoc(Fields(e), e.previous);
    if AllPlain(xs) {
      forall f: Entry | Canonical(f) == Canonical(e) ensures SameFields(e, f) {
        CanonicalIsJoin(f);
        PlainDetermined(xs, Fields(f) + [f.previous]);
        SnocEqual(Fields(e), e.previous, Fields(f), f.previous);
        SameFieldsOf(e, f);
      }
    } else {
      var i :| 0 <= i < |xs| && !Plain(xs[i]);
      FirstIsPlain(e);
      var ys := BoundaryMoves(xs, i);
      var f := WithFields(e, ys[..8], ys[8]);
      WithFieldsOf(e, ys[..8], ys[8]);
      PreviousOf(e, ys[..8], ys[8]);
      assert ys == ys[..8] + [ys[8]];
      CanonicalIsJoin(f);
      SameFieldsOf(e, f);
      assert Canonical(f) == Canonical(e);
    }
  }

  lemma PreviousOf(e: Entry, xs: seq<string>, previous: string)
    requires |xs| == 8
    ensures var f := WithFields(e, xs, previous); f.previous == previous && f.sequence == e.sequence && f.hash == e.hash
  {}

  lemma FirstIsPlain(e: Entry)
    ensures Plain(Fields(e)[0])
  {
    hide Plain, IntText;
    IntTextIsPlain(e.sequence);
  }

  lemma AllPlainSnoc(xs: seq<string>, x: string)
    ensures AllPlain(xs + [x]) <==> AllPlain(xs) && Plain(x)
  {
    hide Plain;
    var ys := xs + [x];
    assert ys[|xs|] == x;
    assert forall i :: 0 <= i < |xs| ==> ys[i] == xs[i];
  }

  lemma SnocEqual(xs: seq<string>, x: string, ys: seq<string>, y: string)
    requires |xs| == |ys| && xs + [x] == ys + [y]
    ensures xs == ys && x == y
  {
    assert (xs + [x])[..|xs|] == xs && (ys + [y])[..|ys|] == ys;
    assert (xs + [x])[|xs|] == x && (ys + [y])[|ys|] == y;
  }

  ghost predicate SameEntries(a: seq<Entry>, b: seq<Entry>) {
    |a| == |b| && forall i :: 0 <= i < |a| ==> SameFields(a[i], b[i])
  }

  /** Every valid trail of this length and head has these fields throughout. */
  ghost predicate FixesFields(h: Hash, a: seq<Entry>) {
    forall b :: IsTrail(h, b) && |b| == |a| && LastHash(b) == LastHash(a) ==> SameEntries(a, b)
  }

  /**
   Exactly when length and head hash of a valid trail fix not only its canonical records but its
   fields: when no text of any entry contains the separator.
   */
  lemma HeadFixesFields(h: Hash, a: seq<Entry>)
    requires IsDigest(h) && IsTrail(h, a)
    ensures FixesFields(h, a) <==> forall i :: 0 <= i < |a| ==> PlainBody(a[i])
  {
    hide Plain, PlainBody, Canonical, SameFields, IsTrail, IsDigest, Determined;
    if forall i :: 0 <= i < |a| ==> PlainBody(a[i]) {
      forall b | IsTrail(h, b) && |b| == |a| && LastHash(b) == LastHash(a) ensures SameEntries(a, b) {
        HeadFixesTrail(h, a, b);
        forall i | 0 <= i < |a| ensures SameFields(a[i], b[i]) {
          PreviousIsPlain(h, a, i);
          FieldsDetermined(a[i]);
          DeterminedBy(a[i], b[i]);
        }
      }
    } else {
      var k :| 0 <= k < |a| && !PlainBody(a[k]);
      var f := OtherBody(a[k]);
      Forged(h, a, k, f);
      var b := a[k := f];
      assert !SameFields(a[k], b[k]);
    }
  }

  lemma DeterminedBy(e: Entry, f: Entry)
    requires Determined(e) && Canonical(f) == Canonical(e)
    ensures SameFields(e, f)
  {}

  /** A different entry with the same canonical text, sequence, previous hash and hash. */
  lemma OtherBody(e: Entry) returns (f: Entry)
    requires !PlainBody(e)
    ensures Canonical(f) == Canonical(e) && !SameFields(e, f)
    ensures f.sequence == e.sequence && f.previous == e.previous && f.hash == e.hash
  {
    hide Plain, PlainBody, Fields, SameFields, WithFields, Join;
    FieldsOf(e);
    var xs := Fields(e);
    var i :| 0 <= i < |xs| && !Plain(xs[i]);
    FirstIsPlain(e);
    var ys := BoundaryMoves(xs, i);
    f := WithFields(e, ys, e.previous);
    WithFieldsOf(e, ys, e.previous);
    PreviousOf(e, ys, e.previous);
    SameFieldsOf(e, f);
  }

  lemma Forged(h: Hash, a: seq<Entry>, k: nat, f: Entry)
    requires IsTrail(h, a) && k < |a| && Canonical(f) == Canonical(a[k])
    requires f.sequence == a[k].sequence && f.previous == a[k].previous && f.hash == a[k].hash
    ensures IsTrail(h, a[k := f]) && LastHash(a[k := f]) == LastHash(a)
  {
    hide Canonical, LastHash;
    SameHead(a, k, f);
    var b := a[k := f];
    forall i | 0 <= i < |b|
      ensures b[i].sequence == i + 1 && b[i].previous == LastHash(b[..i]) && b[i].hash == h(Canonical(b[i]))
    {
      assert a[i].previous == LastHash(a[..i]);
      if k < i {
        SameHead(a[..i], k, f);
        assert b[..i] == a[..i][k := f];
      } else {
        assert b[..i] == a[..i];
      }
    }
  }

  lemma SameHead(a: seq<Entry>, k: nat, f: Entry)
    requires k < |a| && f.hash == a[k].hash
    ensures LastHash(a[k := f]) == LastHash(a)
  {}

  /** The extra data and the stored hash are no part of what is hashed, whatever they are. */
  lemma ExtraNotCovered(e: Entry, extra: string, hash: string)
    ensures Canonical(e.(extra := extra, hash := hash)) == Canonical(e)
  {
    assert Fields(e.(extra := extra, hash := hash)) == Fields(e);
  }

  /** A boundary that the hash does not see: a separator at the end of one field, or at the start of the next. */
  lemma BoundaryNotCovered(e: Entry, x: string, y: string, z: string)
    ensures Canonical(e.(actor := x + "|" + y, action := z)) == Canonical(e.(actor := x, action := y + "|" + z))
  {
    var f, g := e.(actor := x + "|" + y, action := z), e.(actor := x, action := y + "|" + z);
    assert (x + "|" + y) + "|" + z == x + "|" + (y + "|" + z);
    JoinAround(Fields(f), 2, x, y + "|" + z);
    assert Fields(g) == Fields(f)[2 := x][3 := y + "|" + z];
  }

  // ------------------------------------------------------------------ the journal object

  class AuditTrail {
    var journal: seq<Entry>
    const digest: Hash

    constructor (digest: Hash)
      ensures journal == [] && this.digest == digest
    {
      journal, this.digest := [], digest;
    }

    method Append(d: Decision, timestamp: string) returns (record: Entry)
      modifies this`journal
      ensures record == Chain(digest, old(journal), d, timestamp)
      ensures journal == old(journal) + [record]
      ensures IsDigest(digest) ==> (IsTrail(digest, journal) <==> old(IsTrail(digest, journal)))
    {
      var previous := if journal == [] || journal[|journal| - 1].hash == "" then GENESIS
          else journal[|journal| - 1].hash;
      var sequence := if journal == [] then 1 else journal[|journal| - 1].sequence + 1;
      record := Entry(sequence, timestamp, d.actor, d.action, d.subject, d.decision, d.rule, d.reason, previous,
          d.extra, "");
      record := record.(hash := digest(Canonical(record)));
      assert record == Chain(digest, journal, d, timestamp);
      if IsDigest(digest) { AppendKeepsTrail(digest, journal, d, timestamp); }
      journal := journal + [record];
    }
  }

  datatype Problem = SequenceGap(index: nat) | BrokenChain(index: nat) | Tampered(index: nat)

  /** What record `i` of the journal suffers from. */
  predicate Suffers(h: Hash, trail: seq<Entry>, p: Problem) {
    && 1 <= p.index <= |trail|
    && var e := trail[p.index - 1];
    match p
    case SequenceGap(i) => e.sequence != i
    case BrokenChain(i) => e.previous != LastHash(trail[..i - 1])
    case Tampered(_) => e.hash != h(Canonical(e))
  }

  /** The three checks of one record, the `i`-th from 0, against the hash before it. */
  method Inspect(h: Hash, record: Entry, i: nat, previous: string) returns (found: seq<Problem>)
    ensures forall p :: p in found <==>
      (p == SequenceGap(i + 1) && record.sequence != i + 1)
      || (p == BrokenChain(i + 1) && record.previous != previous)
      || (p == Tampered(i + 1) && record.hash != h(Canonical(record)))
  {
    hide Canonical;
    found := [];
    if record.sequence != i + 1 { found := found + [SequenceGap(i + 1)]; }
    if record.previous != previous { found := found + [BrokenChain(i + 1)]; }
    if record.hash != h(Canonical(record)) { found := found + [Tampered(i + 1)]; }
  }

  /** `verify`: the problems are exactly those present, and there are none exactly when the trail is valid. */
  method Verify(h: Hash, trail: seq<Entry>) returns (problems: seq<Problem>)
    ensures forall p :: p in problems <==> Suffers(h, trail, p)
    ensures problems == [] <==> IsTrail(h, trail)
  {
    hide Canonical, IsTrail;
    problems := [];
    var previous := GENESIS;
    var i := 0;
    while i < |trail|
      invariant i <= |trail| && previous == LastHash(trail[..i])
      invariant forall p :: p in problems <==> Suffers(h, trail, p) && p.index <= i
    {
      assert trail[..i + 1][i] == trail[i];
      var found := Inspect(h, trail[i], i, previous);
      problems := problems + found;
      previous := trail[i].hash;
      i := i + 1;
    }
    NoProblems(h, trail, problems);
  }

  lemma NoProblems(h: Hash, trail: seq<Entry>, problems: seq<Problem>)
    requires forall p :: p in problems <==> Suffers(h, trail, p)
    ensures problems == [] <==> IsTrail(h, trail)
  {
    if problems == [] {
      forall i | 0 <= i < |trail|
        ensures trail[i].sequence == i + 1
        ensures trail[i].previous == LastHash(trail[..i]) && trail[i].hash == h(Canonical(trail[i]))
      {
        assert !Suffers(h, trail, SequenceGap(i + 1));
        assert !Suffers(h, trail, BrokenChain(i + 1));
        assert !Suffers(h, trail, Tampered(i + 1));
      }
    } else {
      assert Suffers(h, trail, problems[0]);
    }
  }
}
