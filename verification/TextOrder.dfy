/** The order of texts by their characters, as Python compares strings. */
module TextOrder {
  predicate TextLeq(a: string, b: string) {
    a == [] || (b != [] && (a[0] < b[0] || (a[0] == b[0] && TextLeq(a[1..], b[1..]))))
  }

  lemma {:induction false} LeqTotal(a: string, b: string)
    ensures TextLeq(a, b) || TextLeq(b, a)
    ensures TextLeq(a, a)
  {
    if a != [] {
      if b != [] { LeqTotal(a[1..], b[1..]); } else { LeqTotal(a[1..], b); }
    }
  }

  lemma {:induction false} LeqTransitive(a: string, b: string, c: string)
    requires TextLeq(a, b) && TextLeq(b, c)
    ensures TextLeq(a, c)
  {
    if a != [] && a[0] == b[0] == c[0] { LeqTransitive(a[1..], b[1..], c[1..]); }
  }

  lemma {:induction false} LeqAntisymmetric(a: string, b: string)
    requires TextLeq(a, b) && TextLeq(b, a)
    ensures a == b
  {
    if a != [] {
      LeqAntisymmetric(a[1..], b[1..]);
      assert a == [a[0]] + a[1..] && b == [b[0]] + b[1..];
    }
  }

  // ------------------------------------------------------------------ texts of one length

  /** Two different texts of one length, in order: whatever follows them, they decide. */
  predicate Below(p: string, q: string) {
    |p| == |q| && p != q && TextLeq(p, q)
  }

  lemma {:induction false} BelowDecides(p: string, q: string, x: string, y: string)
    requires Below(p, q)
    ensures TextLeq(p + x, q + y) && !TextLeq(q + y, p + x)
    ensures |x| == |y| ==> Below(p + x, q + y)
  {
    assert p == [p[0]] + p[1..] && q == [q[0]] + q[1..];
    assert (p + x)[1..] == p[1..] + x && (q + y)[1..] == q[1..] + y;
    if p[0] == q[0] { BelowDecides(p[1..], q[1..], x, y); }
    if |x| == |y| { assert (p + x)[..|p|] == p && (q + y)[..|q|] == q; }
  }

  lemma {:induction false} SamePrefix(p: string, x: string, y: string)
    ensures TextLeq(p + x, p + y) <==> TextLeq(x, y)
    ensures Below(x, y) ==> Below(p + x, p + y)
  {
    if p == [] {
      assert p + x == x && p + y == y;
    } else {
      assert (p + x)[1..] == p[1..] + x && (p + y)[1..] == p[1..] + y;
      SamePrefix(p[1..], x, y);
      if Below(x, y) { assert (p + x)[|p|..] == x && (p + y)[|p|..] == y; }
    }
  }

  /** Parts compared one after the other: the first that differs decides. */
  lemma BelowPair(p: string, x: string, q: string, y: string)
    requires |x| == |y| && (Below(p, q) || (p == q && Below(x, y)))
    ensures Below(p + x, q + y)
  {
    if Below(p, q) { BelowDecides(p, q, x, y); } else { SamePrefix(p, x, y); }
  }
}
