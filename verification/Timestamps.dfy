/**
 Instants and the texts that stand for them: what `datetime.now(timezone.utc).isoformat()`
 writes, and stamps with another zone. The rolling update compares such texts, not times.
 */
module Timestamps {
  import opened Common
  import opened TextOrder

  /** Whole seconds, and the microseconds beyond them. */
  function Seconds(t: nat): nat {
    t / 1_000_000
  }

  function Micros(t: nat): nat {
    t % 1_000_000
  }

  function YearLength(y: nat): nat {
    if y % 4 == 0 && (y % 100 != 0 || y % 400 == 0) then 366 else 365
  }

  function MonthLength(y: nat, m: nat): (n: nat)
    ensures 28 <= n <= 31
  {
    if m == 2 then YearLength(y) - 337 else if m == 4 || m == 6 || m == 9 || m == 11 then 30 else 31
  }

  /** The year a day falls in, counted from the first day of year `y`, and the day of that year. */
  function YearOf(day: nat, y: nat): (r: (nat, nat))
    ensures r.0 >= y && r.1 < YearLength(r.0)
    decreases day
  {
    if day < YearLength(y) then (y, day) else YearOf(day - YearLength(y), y + 1)
  }

  /** The month a day of year `y` falls in, counted from the first day of month `m`, and the day of that month. */
  function MonthOf(day: nat, y: nat, m: nat): (r: (nat, nat))
    requires 1 <= m <= 12
    ensures m <= r.0 <= 12
    decreases 12 - m
  {
    if m == 12 || day < MonthLength(y, m) then (m, day) else MonthOf(day - MonthLength(y, m), y, m + 1)
  }

  /** Before the start of year 10000, the last a timestamp can name the year of. */
  predicate InRange(t: int) {
    0 <= t < 315_537_897_600_000_000
  }

  /** Microseconds since the start of year 1. */
  type Instant = t: nat | t < 315_537_897_600_000_000

  /** The days before year `y`. */
  function DaysBefore(y: nat): int
    requires y > 0
  {
    365 * (y - 1) + (y - 1) / 4 - (y - 1) / 100 + (y - 1) / 400
  }

  lemma DaysBeforeNext(y: nat)
    requires y > 0
    ensures DaysBefore(y + 1) == DaysBefore(y) + YearLength(y)
  {
    Fourth(y - 1);
    Hundredth(y - 1);
    FourHundredth(y - 1);
    Centuries(y);
    LeapDays(y, y / 4, y / 100, y / 400, y % 4 == 0, y % 100 == 0, y % 400 == 0);
  }

  /** A leap day in every fourth year, but not in a hundredth unless it is a four hundredth. */
  lemma LeapDays(y: nat, a: nat, b: nat, c: nat, p: bool, q: bool, r: bool)
    requires (r ==> q) && (q ==> p)
    ensures var n := if p && (!q || r) then 366 else 365;
      365 * y + a - b + c ==
        365 * (y - 1) + (a - if p then 1 else 0) - (b - if q then 1 else 0) + (c - if r then 1 else 0) + n
  {}

  lemma Fourth(n: nat)
    ensures (n + 1) / 4 == n / 4 + if (n + 1) % 4 == 0 then 1 else 0
  {}

  lemma Hundredth(n: nat)
    ensures (n + 1) / 100 == n / 100 + if (n + 1) % 100 == 0 then 1 else 0
  {}

  lemma FourHundredth(n: nat)
    ensures (n + 1) / 400 == n / 400 + if (n + 1) % 400 == 0 then 1 else 0
  {}

  lemma Centuries(y: nat)
    ensures y % 100 == 0 ==> y % 4 == 0
    ensures y % 400 == 0 ==> y % 100 == 0
  {
    if y % 100 == 0 { assert y == 4 * (25 * (y / 100)); }
    if y % 400 == 0 { assert y == 100 * (4 * (y / 400)); }
  }

  lemma {:induction false} YearCounts(day: nat, y: nat)
    requires y > 0
    ensures DaysBefore(YearOf(day, y).0) + YearOf(day, y).1 == DaysBefore(y) + day
    decreases day
  {
    hide DaysBefore;
    if day >= YearLength(y) {
      DaysBeforeNext(y);
      YearCounts(day - YearLength(y), y + 1);
    }
  }

  lemma {:induction false} FiveDigits(y: nat)
    requires y >= 10_000
    ensures DaysBefore(y) >= 3_652_059
    decreases y
  {
    if y > 10_000 {
      FiveDigits(y - 1);
      DaysBeforeNext(y - 1);
    }
  }

  lemma AnyDigits(y: nat)
    requires y > 0
    ensures y >= 10_000 ==> DaysBefore(y) >= 3_652_059
  {
    if y >= 10_000 { FiveDigits(y); }
  }

  /** Every day before year 10000 has a year of four digits. */
  lemma FourDigits(day: nat)
    requires day < 3_652_059
    ensures YearOf(day, 1).0 <= 9999
  {
    YearCounts(day, 1);
    AnyDigits(YearOf(day, 1).0);
  }

  // ------------------------------------------------------------------ texts

  function Power(width: nat): nat {
    if width == 0 then 1 else 10 * Power(width - 1)
  }

  function Digits(n: nat, width: nat): (s: string)
    ensures |s| == width && forall i :: 0 <= i < width ==> '0' <= s[i] <= '9'
  {
    if width == 0 then "" else Digits(n / 10, width - 1) + [Digit(n % 10)]
  }

  function Date(day: nat): string {
    var (y, d) := YearOf(day, 1);
    var (m, k) := MonthOf(d, y, 1);
    Digits(y, 4) + ("-" + (Digits(m, 2) + ("-" + Digits(k + 1, 2))))
  }

  function Clock(second: nat): string {
    Digits(second / 3600, 2) + (":" + (Digits(second / 60 % 60, 2) + (":" + Digits(second % 60, 2))))
  }

  /** Date and time to the second. */
  function Head(second: nat): string {
    Date(second / 86_400) + ("T" + Clock(second % 86_400))
  }

  /** A zone as written after the time: `Z`, or a signed offset. */
  datatype Zone = Zulu | Offset(west: bool, minutes: nat)

  const UTC := Offset(false, 0)

  function ZoneText(z: Zone): string {
    match z
    case Zulu => "Z"
    case Offset(west, minutes) =>
      [if west then '-' else '+'] + (Digits(minutes / 60, 2) + (":" + Digits(minutes % 60, 2)))
  }

  predicate AllDigits(s: string) {
    forall i :: 0 <= i < |s| ==> '0' <= s[i] <= '9'
  }

  /** A clock reading as a stamp writes it: the second, any digits of a fraction, and the zone. */
  datatype Reading = Reading(second: nat, fraction: string, zone: Zone)

  predicate IsReading(r: Reading) {
    && r.second < 315_537_897_600
    && AllDigits(r.fraction)
    && (r.zone.Offset? ==> r.zone.minutes < 1440)
  }

  function Dotted(fraction: string): string {
    if fraction == "" then "" else "." + fraction
  }

  function Stamp(r: Reading): string {
    Head(r.second) + (Dotted(r.fraction) + ZoneText(r.zone))
  }

  function SixDigits(micro: nat): string {
    if micro == 0 then "" else Digits(micro, 6)
  }

  /** `isoformat` of a UTC time: six digits of a fraction, or none. */
  function Iso(t: Instant): string {
    Stamp(Reading(Seconds(t), SixDigits(Micros(t)), UTC))
  }

  function Value(s: string): nat
    requires AllDigits(s)
  {
    if s == "" then 0 else 10 * Value(s[..|s| - 1]) + (s[|s| - 1] as int - 48)
  }

  /** The width of the last of `n` digits of a fraction, in microseconds. */
  function Unit(n: nat): (p: nat)
    ensures p > 0
  {
    if n == 0 then 1_000_000 else if n == 1 then 100_000 else if n == 2 then 10_000
    else if n == 3 then 1000 else if n == 4 then 100 else if n == 5 then 10 else 1
  }

  /** The microseconds a fraction stands for; further digits are cut off. */
  function Micro(fraction: string): nat
    requires AllDigits(fraction)
  {
    if |fraction| >= 6 then Value(fraction[..6]) else Value(fraction) * Unit(|fraction|)
  }

  /** The clock reading in microseconds, and the time it stands for. */
  function ClockOf(r: Reading): nat
    requires AllDigits(r.fraction)
  {
    r.second * 1_000_000 + Micro(r.fraction)
  }

  function TimeOf(r: Reading): int
    requires AllDigits(r.fraction)
  {
    match r.zone
    case Zulu => ClockOf(r)
    case Offset(west, minutes) => if west then ClockOf(r) + minutes * 60_000_000 else ClockOf(r) - minutes * 60_000_000
  }

  // ------------------------------------------------------------------ texts in time order

  lemma {:induction false} DigitsOrder(n: nat, m: nat, width: nat)
    requires n < m < Power(width)
    ensures Below(Digits(n, width), Digits(m, width))
  {
    assert width > 0;
    var x, y := [Digit(n % 10)], [Digit(m % 10)];
    if n / 10 < m / 10 {
      DigitsOrder(n / 10, m / 10, width - 1);
    } else {
      assert n / 10 == m / 10 && n % 10 < m % 10;
      assert Below(x, y);
    }
    BelowPair(Digits(n / 10, width - 1), x, Digits(m / 10, width - 1), y);
  }

  lemma Widths()
    ensures Power(2) == 100 && Power(4) == 10_000 && Power(6) == 1_000_000
  {
    assert Power(1) == 10 && Power(3) == 1000 && Power(5) == 100_000;
  }

  lemma {:induction false} YearOrder(a: nat, b: nat, y: nat)
    requires a < b
    ensures YearOf(a, y).0 < YearOf(b, y).0 || (YearOf(a, y).0 == YearOf(b, y).0 && YearOf(a, y).1 < YearOf(b, y).1)
    decreases a
  {
    if a >= YearLength(y) { YearOrder(a - YearLength(y), b - YearLength(y), y + 1); }
  }

  lemma {:induction false} MonthOrder(a: nat, b: nat, y: nat, m: nat)
    requires a < b && 1 <= m <= 12
    ensures var (p, q) := (MonthOf(a, y, m), MonthOf(b, y, m)); p.0 < q.0 || (p.0 == q.0 && p.1 < q.1)
    decreases 12 - m
  {
    if m < 12 && a >= MonthLength(y, m) { MonthOrder(a - MonthLength(y, m), b - MonthLength(y, m), y, m + 1); }
  }

  /** The days of the months from `m` to the end of the year. */
  function DaysFrom(y: nat, m: nat): nat
    requires 1 <= m <= 13
    decreases 13 - m
  {
    if m == 13 then 0 else MonthLength(y, m) + DaysFrom(y, m + 1)
  }

  lemma MonthsFillTheYear(y: nat)
    ensures DaysFrom(y, 1) == YearLength(y)
  {
    assert DaysFrom(y, 10) == 92;
    assert DaysFrom(y, 7) == 184;
    assert DaysFrom(y, 4) == 275;
  }

  lemma {:induction false} DayFits(day: nat, y: nat, m: nat)
    requires 1 <= m <= 12 && day < DaysFrom(y, m)
    ensures MonthOf(day, y, m).1 < 31
    decreases 12 - m
  {
    if m < 12 && day >= MonthLength(y, m) { DayFits(day - MonthLength(y, m), y, m + 1); }
  }

  lemma DateOrder(a: nat, b: nat)
    requires a < b < 3_652_059
    ensures Below(Date(a), Date(b))
  {
    hide Below, YearOf, MonthOf, Digits, Power;
    FourDigits(b);
    Widths();
    YearOrder(a, b, 1);
    var (y, d) := YearOf(a, 1);
    var (z, e) := YearOf(b, 1);
    MonthsFillTheYear(y);
    MonthsFillTheYear(z);
    DayFits(d, y, 1);
    DayFits(e, z, 1);
    var (m, k) := MonthOf(d, y, 1);
    var (n, l) := MonthOf(e, z, 1);
    var x, w := "-" + (Digits(m, 2) + ("-" + Digits(k + 1, 2))), "-" + (Digits(n, 2) + ("-" + Digits(l + 1, 2)));
    if y < z {
      DigitsOrder(y, z, 4);
    } else {
      MonthOrder(d, e, y, 1);
      PairOrder("-", m, k + 1, n, l + 1);
      SamePrefix("-", Digits(m, 2) + ("-" + Digits(k + 1, 2)), Digits(n, 2) + ("-" + Digits(l + 1, 2)));
    }
    BelowPair(Digits(y, 4), x, Digits(z, 4), w);
  }

  /** Two two-digit numbers with a separator between them compare as pairs. */
  lemma PairOrder(mid: string, a: nat, b: nat, c: nat, d: nat)
    requires a < 100 && b < 100 && c < 100 && d < 100 && (a < c || (a == c && b < d))
    ensures Below(Digits(a, 2) + (mid + Digits(b, 2)), Digits(c, 2) + (mid + Digits(d, 2)))
  {
    hide Below, Digits, Power;
    Widths();
    if a < c {
      DigitsOrder(a, c, 2);
    } else {
      DigitsOrder(b, d, 2);
      SamePrefix(mid, Digits(b, 2), Digits(d, 2));
    }
    BelowPair(Digits(a, 2), mid + Digits(b, 2), Digits(c, 2), mid + Digits(d, 2));
  }

  lemma ClockOrder(a: nat, b: nat)
    requires a < b < 86_400
    ensures Below(Clock(a), Clock(b))
  {
    hide Below, Digits, Power;
    Widths();
    var x, y := Digits(a / 60 % 60, 2) + (":" + Digits(a % 60, 2)), Digits(b / 60 % 60, 2) + (":" + Digits(b % 60, 2));
    if a / 3600 < b / 3600 {
      DigitsOrder(a / 3600, b / 3600, 2);
    } else {
      assert a / 3600 == b / 3600 == a / 60 / 60 == b / 60 / 60;
      PairOrder(":", a / 60 % 60, a % 60, b / 60 % 60, b % 60);
      SamePrefix(":", x, y);
    }
    BelowPair(Digits(a / 3600, 2), ":" + x, Digits(b / 3600, 2), ":" + y);
  }

  lemma HeadOrder(a: nat, b: nat)
    requires a < b < 315_537_897_600
    ensures Below(Head(a), Head(b))
  {
    hide Below, Date, Clock, YearOf;
    var d, e := a / 86_400, b / 86_400;
    ClockLength(a % 86_400);
    ClockLength(b % 86_400);
    if d < e {
      DateOrder(d, e);
    } else {
      ClockOrder(a % 86_400, b % 86_400);
      SamePrefix("T", Clock(a % 86_400), Clock(b % 86_400));
    }
    BelowPair(Date(d), "T" + Clock(a % 86_400), Date(e), "T" + Clock(b % 86_400));
  }

  lemma ClockLength(second: nat)
    ensures |Clock(second)| == 8
  {}

  // ------------------------------------------------------------------ fractions

  lemma {:induction false} ValueOfDigits(n: nat, width: nat)
    requires n < Power(width)
    ensures Value(Digits(n, width)) == n
  {
    if width > 0 {
      ValueOfDigits(n / 10, width - 1);
      assert Digits(n, width)[..width - 1] == Digits(n / 10, width - 1);
    }
  }

  lemma {:induction false} DigitsOfValue(s: string)
    requires AllDigits(s)
    ensures Value(s) < Power(|s|) && Digits(Value(s), |s|) == s
  {
    if s != "" {
      var n := |s| - 1;
      DigitsOfValue(s[..n]);
      assert Value(s) / 10 == Value(s[..n]) && Value(s) % 10 == s[n] as int - 48;
      assert s == s[..n] + [s[n]];
    }
  }

  lemma ValueOrder(s: string, t: string)
    requires AllDigits(s) && AllDigits(t) && |s| == |t|
    ensures Value(s) < Value(t) ==> Below(s, t)
    ensures Value(s) == Value(t) ==> s == t
  {
    DigitsOfValue(s);
    DigitsOfValue(t);
    if Value(s) < Value(t) { DigitsOrder(Value(s), Value(t), |s|); }
  }

  lemma {:induction false} ValueSplit(s: string, k: nat)
    requires AllDigits(s) && k <= |s|
    ensures Value(s) == Value(s[..k]) * Power(|s| - k) + Value(s[k..])
  {
    if k == |s| {
      assert s[..k] == s;
    } else {
      var n := |s| - 1;
      ValueSplit(s[..n], k);
      assert s[..n][..k] == s[..k] && s[..n][k..] == s[k..][..n - k];
      assert Value(s) == 10 * Value(s[..n]) + (s[n] as int - 48);
      assert Value(s[k..]) == 10 * Value(s[k..][..n - k]) + (s[n] as int - 48);
      assert Power(|s| - k) == 10 * Power(n - k);
      hide Value, Power;
      Regroup(Value(s[..k]), Power(n - k), Value(s[k..][..n - k]), s[n] as int - 48);
    }
  }

  lemma Regroup(v: nat, p: nat, w: nat, c: int)
    ensures 10 * (v * p + w) + c == v * (10 * p) + (10 * w + c)
  {}

  lemma MulLeq(a: nat, b: nat, p: nat)
    requires a <= b
    ensures a * p <= b * p
  {
    assert (b - a) * p >= 0;
  }

  lemma NextUnit(v: nat, w: nat, p: nat)
    requires v < w
    ensures v * p + p <= w * p
  {
    MulLeq(v + 1, w, p);
  }

  lemma LessByUnit(n: nat, v: nat, p: nat)
    requires p > 0
    ensures n < v * p <==> n / p < v
  {
    var q := n / p;
    assert n == q * p + n % p;
    if q < v { MulLeq(q + 1, v, p); } else { MulLeq(v, q, p); }
  }

  lemma Quotient(n: nat, q: nat, p: nat, r: nat)
    requires n == q * p + r && r < p
    ensures n / p == q
  {
    LessByUnit(n, q, p);
    LessByUnit(n, q + 1, p);
  }

  lemma UnitPower(n: nat)
    requires n <= 6
    ensures Unit(n) == Power(6 - n) && Power(n) * Unit(n) == 1_000_000
  {
    assert Power(0) == 1 && Power(1) == 10 && Power(2) == 100 && Power(3) == 1000;
    assert Power(4) == 10_000 && Power(5) == 100_000 && Power(6) == 1_000_000;
  }

  /** A fraction lies in whole units of its last digit. */
  lemma ShortFraction(fraction: string)
    requires AllDigits(fraction) && |fraction| < 6
    ensures var p := Unit(|fraction|);
      Micro(fraction) == Value(fraction) * p && Micro(fraction) + p <= 1_000_000 &&
          Micro(fraction) / p == Value(fraction)
  {
    hide Power, Unit, Value, AllDigits, Digits;
    var v, p, w := Value(fraction), Unit(|fraction|), Power(|fraction|);
    DigitsOfValue(fraction);
    UnitPower(|fraction|);
    NextUnit(v, w, p);
    Quotient(v * p, v, p, 0);
  }

  lemma MicroBound(fraction: string)
    requires AllDigits(fraction)
    ensures Micro(fraction) < 1_000_000
  {
    hide Power, Unit;
    Widths();
    if |fraction| >= 6 {
      DigitsOfValue(fraction[..6]);
    } else {
      ShortFraction(fraction);
    }
  }

  /** Six digits against a shorter fraction: the leading ones are compared. */
  lemma LeadingDigits(micro: nat, fraction: string)
    requires micro < 1_000_000 && AllDigits(fraction) && |fraction| < 6
    ensures var d, k := Digits(micro, 6), |fraction|;
      && AllDigits(d[..k]) && Value(d[..k]) == micro / Unit(|fraction|)
  {
    hide Power, Unit, Value, Digits, Micro;
    Widths();
    var d, k := Digits(micro, 6), |fraction|;
    UnitPower(k);
    ValueOfDigits(micro, 6);
    ValueSplit(d, k);
    DigitsOfValue(d[k..]);
    Quotient(micro, Value(d[..k]), Unit(k), Value(d[k..]));
  }

  // ------------------------------------------------------------------ the comparison

  /** Marked `Z` with fewer than six digits of a fraction: it sorts after everything in its last digit's unit. */
  predicate ShortZulu(r: Reading) {
    r.zone.Zulu? && |r.fraction| < 6
  }

  /** With an offset, and one to five digits: it sorts before an equal time that has six. */
  predicate ShortOffset(r: Reading) {
    r.zone.Offset? && 0 < |r.fraction| < 6
  }

  /** Which fractions of one second count as not after that of the stamp. */
  predicate FractionPasses(micro: nat, r: Reading)
    requires AllDigits(r.fraction)
  {
    if ShortZulu(r) then micro / Unit(|r.fraction|) <= Micro(r.fraction) / Unit(|r.fraction|)
    else if ShortOffset(r) then micro < Micro(r.fraction) || micro == 0
    else micro <= Micro(r.fraction)
  }

  /** Which starts count as not after the stamp. The zone's offset is not looked at. */
  predicate Passes(start: nat, r: Reading)
    requires AllDigits(r.fraction)
  {
    Seconds(start) < r.second || (Seconds(start) == r.second && FractionPasses(Micros(start), r))
  }

  lemma UtcIsLeast(z: Zone)
    requires z.Offset? ==> z.minutes < 1440
    ensures TextLeq(ZoneText(UTC), ZoneText(z))
  {
    if z.Offset? && !z.west {
      var x, y := Digits(0, 2) + (":" + Digits(0, 2)), Digits(z.minutes / 60, 2) + (":" + Digits(z.minutes % 60, 2));
      if z.minutes > 0 {
        hide Digits;
        PairOrder(":", 0, 0, z.minutes / 60, z.minutes % 60);
      }
      LeqTotal(x, x);
      SamePrefix("+", x, y);
    }
  }

  lemma FirstOfZone(z: Zone)
    ensures ZoneText(z) != "" && (ZoneText(z)[0] == 'Z' <==> z.Zulu?)
    ensures z.Offset? ==> ZoneText(z)[0] == '+' || ZoneText(z)[0] == '-'
  {}

  lemma FirstDecides(x: string, y: string)
    requires x != "" && y != "" && x[0] != y[0]
    ensures TextLeq(x, y) <==> x[0] < y[0]
  {}

  /** Six digits against a fraction of at least six. */
  lemma LongTail(micro: nat, r: Reading)
    requires micro < 1_000_000 && IsReading(r) && |r.fraction| >= 6
    ensures TextLeq(Digits(micro, 6) + ZoneText(UTC), r.fraction + ZoneText(r.zone)) <==> micro <= Micro(r.fraction)
  {
    hide TextLeq, ZoneText, Digits, Below, Power, YearOf;
    var d, f, rest := Digits(micro, 6), r.fraction[..6], r.fraction[6..];
    var y := rest + ZoneText(r.zone);
    assert r.fraction + ZoneText(r.zone) == f + y;
    Widths();
    ValueOfDigits(micro, 6);
    ValueOrder(d, f);
    ValueOrder(f, d);
    if micro < Micro(r.fraction) {
      BelowDecides(d, f, ZoneText(UTC), y);
    } else if Micro(r.fraction) < micro {
      BelowDecides(f, d, y, ZoneText(UTC));
    } else {
      SamePrefix(d, ZoneText(UTC), y);
      if rest == "" {
        assert y == ZoneText(r.zone);
        UtcIsLeast(r.zone);
      } else {
        PlusFirst();
        FirstDecides(ZoneText(UTC), y);
      }
    }
  }

  lemma PlusFirst()
    ensures ZoneText(UTC) != "" && ZoneText(UTC)[0] == '+'
  {}

  /** Six digits against a shorter fraction. */
  lemma ShortTail(micro: nat, r: Reading)
    requires micro < 1_000_000 && IsReading(r) && 0 < |r.fraction| < 6
    ensures var q := micro / Unit(|r.fraction|);
      TextLeq(Digits(micro, 6) + ZoneText(UTC), r.fraction + ZoneText(r.zone)) <==>
        q < Value(r.fraction) || (q == Value(r.fraction) && r.zone.Zulu?)
  {
    hide TextLeq, ZoneText, Digits, Below, Power, YearOf, Unit;
    var d, k := Digits(micro, 6), |r.fraction|;
    var s, t := d[..k], d[k..];
    LeadingDigits(micro, r.fraction);
    assert d + ZoneText(UTC) == s + (t + ZoneText(UTC));
    ValueOrder(s, r.fraction);
    ValueOrder(r.fraction, s);
    var x, y := t + ZoneText(UTC), ZoneText(r.zone);
    if Value(s) < Value(r.fraction) {
      BelowDecides(s, r.fraction, x, y);
    } else if Value(r.fraction) < Value(s) {
      BelowDecides(r.fraction, s, y, x);
    } else {
      SamePrefix(s, x, y);
      FirstOfZone(r.zone);
      assert x[0] == d[k];
      FirstDecides(x, y);
    }
  }

  /** A start in whole seconds. */
  lemma WholeTail(r: Reading)
    requires IsReading(r)
    ensures TextLeq(ZoneText(UTC), Dotted(r.fraction) + ZoneText(r.zone)) && FractionPasses(0, r)
  {
    hide TextLeq, ZoneText, YearOf, Value, Digits;
    if |r.fraction| < 6 { ShortFraction(r.fraction); }
    if r.fraction == "" {
      assert Dotted(r.fraction) + ZoneText(r.zone) == ZoneText(r.zone);
      UtcIsLeast(r.zone);
    } else {
      PlusFirst();
      FirstDecides(ZoneText(UTC), Dotted(r.fraction) + ZoneText(r.zone));
    }
  }

  /** A start with a fraction against a stamp without one. */
  lemma BareTail(micro: nat, r: Reading)
    requires 0 < micro < 1_000_000 && IsReading(r) && r.fraction == ""
    ensures TextLeq("." + Digits(micro, 6) + ZoneText(UTC), ZoneText(r.zone)) <==> FractionPasses(micro, r)
  {
    hide TextLeq, ZoneText, YearOf, Value, Digits;
    NoFraction(micro);
    FirstOfZone(r.zone);
    FirstDecides("." + Digits(micro, 6) + ZoneText(UTC), ZoneText(r.zone));
  }

  /** A start with a fraction against a stamp with one. */
  lemma DottedTail(micro: nat, r: Reading)
    requires micro < 1_000_000 && IsReading(r) && r.fraction != "" && micro > 0
    ensures TextLeq("." + Digits(micro, 6) + ZoneText(UTC), "." + r.fraction + ZoneText(r.zone)) <==>
      FractionPasses(micro, r)
  {
    hide TextLeq, ZoneText, YearOf, Value, Digits, Unit, Micro;
    var x, y := Digits(micro, 6) + ZoneText(UTC), r.fraction + ZoneText(r.zone);
    assert "." + Digits(micro, 6) + ZoneText(UTC) == "." + x && "." + r.fraction + ZoneText(r.zone) == "." + y;
    SamePrefix(".", x, y);
    if |r.fraction| >= 6 {
      LongTail(micro, r);
    } else {
      ShortTail(micro, r);
      ShortFraction(r.fraction);
      UnitOrder(micro, r.fraction);
    }
  }

  /** Within one second: fraction and zone decide. */
  lemma TailOrder(micro: nat, r: Reading)
    requires micro < 1_000_000 && IsReading(r)
    ensures TextLeq(Dotted(SixDigits(micro)) + ZoneText(UTC), Dotted(r.fraction) + ZoneText(r.zone)) <==>
      FractionPasses(micro, r)
  {
    hide TextLeq, ZoneText, YearOf, Digits, FractionPasses;
    SixOrNone(micro);
    if micro == 0 {
      assert Dotted(SixDigits(micro)) + ZoneText(UTC) == ZoneText(UTC);
      WholeTail(r);
    } else if r.fraction == "" {
      assert Dotted(r.fraction) + ZoneText(r.zone) == ZoneText(r.zone);
      BareTail(micro, r);
    } else {
      DottedTail(micro, r);
    }
  }

  lemma SixOrNone(micro: nat)
    ensures Dotted(SixDigits(micro)) == if micro == 0 then "" else "." + Digits(micro, 6)
  {}

  lemma NoFraction(micro: nat)
    requires micro < 1_000_000
    ensures Unit(0) == 1_000_000 && micro / Unit(0) == 0 && Micro("") == 0
  {}

  lemma UnitOrder(micro: nat, fraction: string)
    requires AllDigits(fraction) && |fraction| < 6
    ensures micro < Micro(fraction) <==> micro / Unit(|fraction|) < Value(fraction)
  {
    hide Unit;
    ShortFraction(fraction);
    LessByUnit(micro, Value(fraction), Unit(|fraction|));
  }

  /** What comparing the text of a start with a stamp decides, whatever its fraction and zone. */
  lemma StampAgainstStart(start: Instant, r: Reading)
    requires IsReading(r)
    ensures TextLeq(Iso(start), Stamp(r)) <==> Passes(start, r)
  {
    hide Head, TextLeq, Dotted, ZoneText, FractionPasses, SixDigits;
    var s := Seconds(start);
    var x, y := Dotted(SixDigits(Micros(start))) + ZoneText(UTC), Dotted(r.fraction) + ZoneText(r.zone);
    if s < r.second {
      HeadOrder(s, r.second);
      BelowDecides(Head(s), Head(r.second), x, y);
    } else if r.second < s {
      HeadOrder(r.second, s);
      BelowDecides(Head(r.second), Head(s), y, x);
    } else {
      SamePrefix(Head(s), x, y);
      TailOrder(Micros(start), r);
    }
  }

  /** Stamps in the writer's own shape, with and without microseconds, sort as their times do. */
  lemma IsoOrder(a: Instant, b: Instant)
    ensures TextLeq(Iso(a), Iso(b)) <==> a <= b
  {
    hide TextLeq, Stamp, Power;
    var r := Reading(Seconds(b), SixDigits(Micros(b)), UTC);
    Widths();
    ValueOfDigits(Micros(b), 6);
    assert Digits(Micros(b), 6)[..6] == Digits(Micros(b), 6);
    assert Micro(r.fraction) == Micros(b);
    StampAgainstStart(a, r);
  }

  // ------------------------------------------------------------------ any text at all

  /** The text counts as not before exactly the starts up to a time. */
  ghost predicate ComparesAs(text: string, time: int) {
    forall start: Instant :: TextLeq(Iso(start), text) <==> start <= time
  }

  /** No start later than the time counts as not after the text. */
  ghost predicate NeverOlder(text: string, time: int) {
    forall start: Instant :: TextLeq(Iso(start), text) ==> start <= time
  }

  /** Whatever the text says, the starts it passes for are all those up to some point. */
  lemma EarlierPasses(a: Instant, b: Instant, text: string)
    requires a <= b && TextLeq(Iso(b), text)
    ensures TextLeq(Iso(a), text)
  {
    hide TextLeq, Iso;
    IsoOrder(a, b);
    LeqTransitive(Iso(a), Iso(b), text);
  }

  /**
   For any text and any time it is meant to stand for: it compares as that time, against every
   start, if and only if it does so against the time itself and the microsecond after it.
   */
  lemma AnyTextExactly(text: string, time: Instant)
    requires InRange(time + 1)
    ensures NeverOlder(text, time) <==> !TextLeq(Iso(time + 1), text)
    ensures ComparesAs(text, time) <==> TextLeq(Iso(time), text) && !TextLeq(Iso(time + 1), text)
  {
    hide TextLeq, Iso;
    var later: Instant := time + 1;
    forall start: Instant | TextLeq(Iso(start), text) && start > time ensures TextLeq(Iso(later), text) {
      EarlierPasses(later, start, text);
    }
    forall start: Instant | TextLeq(Iso(time), text) && start <= time ensures TextLeq(Iso(start), text) {
      EarlierPasses(start, time, text);
    }
  }

  // ------------------------------------------------------------------ exactly which stamps

  predicate ZeroOffset(z: Zone) {
    z.Offset? ==> z.minutes == 0
  }

  predicate ZeroOrWest(z: Zone) {
    z.Offset? ==> z.west || z.minutes == 0
  }

  /** The first microsecond past the unit of a short `Z` stamp's last digit. */
  lemma LateInUnit(r: Reading) returns (late: Instant)
    requires IsReading(r) && ShortZulu(r)
    ensures late == ClockOf(r) + 1 && Passes(late, r)
  {
    hide Power;
    ShortFraction(r.fraction);
    assert Unit(|r.fraction|) >= 10;
    hide Unit;
    var m, p := Micro(r.fraction), Unit(|r.fraction|);
    Quotient(m, Value(r.fraction), p, 0);
    Quotient(m + 1, Value(r.fraction), p, 1);
    ReadingIsInstant(r, m + 1);
    late := ClockOf(r) + 1;
  }

  /** Every start within the unit of a short `Z` stamp's last digit passes, later or not. */
  lemma UnitPasses(r: Reading, start: Instant)
    requires IsReading(r) && ShortZulu(r)
    requires ClockOf(r) <= start < ClockOf(r) + Unit(|r.fraction|)
    ensures Passes(start, r)
  {
    hide Power, Unit, Micro, Value, YearOf;
    ShortFraction(r.fraction);
    var m, p := Micro(r.fraction), Unit(|r.fraction|);
    SameSecond(r.second, m, start, p);
    Quotient(Micros(start), Value(r.fraction), p, start - ClockOf(r));
  }

  lemma SameSecond(second: nat, micro: nat, start: nat, p: nat)
    requires micro + p <= 1_000_000 && second * 1_000_000 + micro <= start < second * 1_000_000 + micro + p
    ensures Seconds(start) == second && Micros(start) == start - second * 1_000_000
  {}

  lemma ReadingIsInstant(r: Reading, micro: nat)
    requires IsReading(r) && micro < 1_000_000
    ensures var t := r.second * 1_000_000 + micro; InRange(t) && Seconds(t) == r.second && Micros(t) == micro
  {}

  /** With a numeric zone, or six digits: never past the clock reading, and short only at it. */
  lemma PassesByClock(start: Instant, r: Reading)
    requires IsReading(r) && !ShortZulu(r)
    ensures Passes(start, r) <==>
      start < ClockOf(r) || (start == ClockOf(r) && (ShortOffset(r) ==> Micro(r.fraction) == 0))
  {
    hide Power, Micro, YearOf;
    MicroBound(r.fraction);
    if ShortOffset(r) && Micro(r.fraction) > 0 {
      assert Micros(start) == 0 ==> Micros(start) < Micro(r.fraction);
    }
  }

  /**
   Exactly which stamps compare as the times they stand for, against every start: those with a
   zero offset that have six digits of a fraction or more, or a numeric zone and no digits but
   zeros. One never passes for a later start if and only if its offset is zero or west and it is
   not marked `Z` with fewer than six digits.
   */
  lemma ComparesExactly(r: Reading)
    requires IsReading(r) && InRange(TimeOf(r))
    ensures NeverOlder(Stamp(r), TimeOf(r)) <==> ZeroOrWest(r.zone) && !ShortZulu(r)
    ensures ComparesAs(Stamp(r), TimeOf(r)) <==>
      ZeroOffset(r.zone) && !ShortZulu(r) && (ShortOffset(r) ==> Micro(r.fraction) == 0)
  {
    hide Iso, Stamp, TextLeq, Passes, Micro, YearOf;
    forall start: Instant ensures TextLeq(Iso(start), Stamp(r)) <==> Passes(start, r) { StampAgainstStart(start, r); }
    if ShortZulu(r) {
      var late := LateInUnit(r);
      assert TextLeq(Iso(late), Stamp(r)) && !(late <= TimeOf(r));
    } else {
      forall start: Instant
        ensures Passes(start, r) <==>
          start < ClockOf(r) || (start == ClockOf(r) && (ShortOffset(r) ==> Micro(r.fraction) == 0))
      {
        PassesByClock(start, r);
      }
      OffsetWitness(r);
    }
  }

  /** A start that tells a stamp with an offset, or with a short fraction, from its time. */
  lemma OffsetWitness(r: Reading)
    requires IsReading(r) && InRange(TimeOf(r)) && !ShortZulu(r)
    ensures !ZeroOrWest(r.zone) ==> exists start: Instant :: TextLeq(Iso(start), Stamp(r)) && start > TimeOf(r)
    ensures !(ZeroOffset(r.zone) && (ShortOffset(r) ==> Micro(r.fraction) == 0)) ==>
      exists start: Instant :: !(TextLeq(Iso(start), Stamp(r)) <==> start <= TimeOf(r))
  {
    hide Iso, Stamp, TextLeq, Passes, Micro, YearOf;
    if !ZeroOrWest(r.zone) {
      ClockIsInstant(r);
      var early: Instant := ClockOf(r) - 1;
      StampAgainstStart(early, r);
      PassesByClock(early, r);
      assert TextLeq(Iso(early), Stamp(r)) && early > TimeOf(r);
    } else if !ZeroOffset(r.zone) || (ShortOffset(r) && Micro(r.fraction) > 0) {
      var same: Instant := TimeOf(r);
      StampAgainstStart(same, r);
      PassesByClock(same, r);
      assert !TextLeq(Iso(same), Stamp(r)) && same <= TimeOf(r);
    }
  }

  lemma ClockIsInstant(r: Reading)
    requires IsReading(r) && ClockOf(r) > 0
    ensures InRange(ClockOf(r)) && InRange(ClockOf(r) - 1)
  {
    hide Micro;
    MicroBound(r.fraction);
  }

  /** Any text that begins after the digits, such as the `None` of a null, sorts after every time. */
  lemma LateText(start: Instant, text: string)
    requires text != "" && text[0] > '9'
    ensures TextLeq(Iso(start), text)
  {
    assert Iso(start)[0] == Digits(YearOf(Seconds(start) / 86_400, 1).0, 4)[0];
  }

  /** A missing time, the empty text, sorts before every time, and so does a text that begins before the digits. */
  lemma EarlyText(start: Instant, text: string)
    requires text == "" || text[0] < '0'
    ensures !TextLeq(Iso(start), text)
  {
    assert Iso(start)[0] == Digits(YearOf(Seconds(start) / 86_400, 1).0, 4)[0];
  }
}
