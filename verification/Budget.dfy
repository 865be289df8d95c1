/** The laboratory's run ledger, lab/budget.py: a sliding-window limiter on runs and tokens. */
module Budget {
  import opened Common

  const HOUR := 3600
  const DAY := 86400

  datatype Run = Run(startedAt: int, tokens: Option<nat>, status: string)

  datatype Ledger = Ledger(runs: seq<Run>, perHour: int, perDay: int, tokensPerDay: int, pauseUntil: Option<int>)

  predicate Running(r: Run) {
    r.status == "running"
  }

  predicate Unsettled(r: Run) {
    r.tokens.None? || Running(r)
  }

  function Tokens(r: Run): nat {
    if r.tokens.Some? then r.tokens.value else 0
  }

  /** How many runs started at `from` or later. */
  function CountFrom(runs: seq<Run>, from: int): nat {
    if runs == [] then 0
    else CountFrom(runs[..|runs| - 1], from) + if runs[|runs| - 1].startedAt >= from then 1 else 0
  }

  function TokensFrom(runs: seq<Run>, from: int): nat {
    if runs == [] then 0
    else TokensFrom(runs[..|runs| - 1], from) + if runs[|runs| - 1].startedAt >= from then Tokens(runs[|runs| - 1])
        else 0
  }

  predicate UnknownFrom(runs: seq<Run>, from: int) {
    exists i :: 0 <= i < |runs| && runs[i].startedAt >= from && Unsettled(runs[i])
  }

  /** `paused`: a pause whose time has come is cleared. */
  function Awake(l: Ledger, now: int): Ledger {
    if l.pauseUntil.Some? && now >= l.pauseUntil.value then l.(pauseUntil := None) else l
  }

  predicate Admits(l: Ledger, now: int) {
    && l.pauseUntil.None?
    && CountFrom(l.runs, now - HOUR) < l.perHour
    && CountFrom(l.runs, now - DAY) < l.perDay
    && !UnknownFrom(l.runs, now - DAY)
    && TokensFrom(l.runs, now - DAY) < l.tokensPerDay
  }

  function Reserve(l: Ledger, now: int): (Ledger, bool) {
    var a := Awake(l, now);
    if Admits(a, now) then (a.(runs := a.runs + [Run(now, Some(0), "running")]), true) else (a, false)
  }

  /** The last of the first `n` runs still running; |runs| when there is none. */
  function LastRunning(runs: seq<Run>, n: nat): (k: nat)
    requires n <= |runs|
    ensures k < n || k == |runs|
    ensures k < |runs| ==> Running(runs[k]) && forall i :: k < i < n ==> !Running(runs[i])
    ensures k == |runs| ==> forall i :: 0 <= i < n ==> !Running(runs[i])
  {
    if n == 0 then |runs| else if Running(runs[n - 1]) then n - 1 else LastRunning(runs, n - 1)
  }

  /** `record_run`: the reservation is settled in place. */
  function Record(l: Ledger, tokens: Option<nat>, status: string): Ledger {
    var k := LastRunning(l.runs, |l.runs|);
    if k == |l.runs| then l else l.(runs := l.runs[k := l.runs[k].(tokens := tokens, status := status)])
  }

  function Pause(l: Ledger, seconds: int, now: int): Ledger {
    l.(pauseUntil := Some(now + if seconds < 1 then 1 else seconds))
  }

  datatype Event = Reserving(now: int) | Recording(tokens: Option<nat>, status: string) | Pausing(seconds: int,
      now: int)

  function Step(l: Ledger, e: Event): Ledger {
    match e
    case Reserving(now) => Reserve(l, now).0
    case Recording(tokens, status) => Record(l, tokens, status)
    case Pausing(seconds, now) => Pause(l, seconds, now)
  }

  /** Reservations are stamped in order. */
  predicate Monotone(l: Ledger, e: Event) {
    e.Reserving? && l.runs != [] ==> e.now >= l.runs[|l.runs| - 1].startedAt
  }

  // ------------------------------------------------------------------ the invariant

  ghost predicate Ordered(runs: seq<Run>) {
    forall i, j :: 0 <= i < j < |runs| ==> runs[i].startedAt <= runs[j].startedAt
  }

  ghost predicate SettledSince(runs: seq<Run>, from: int) {
    forall i :: 0 <= i < |runs| && runs[i].startedAt >= from ==> !Unsettled(runs[i])
  }

  /** The runs before one that starts at `s` leave room for it. */
  ghost predicate RoomFor(l: Ledger, runs: seq<Run>, s: int) {
    && CountFrom(runs, s - HOUR) < l.perHour
    && CountFrom(runs, s - DAY) < l.perDay
    && SettledSince(runs, s - DAY)
    && TokensFrom(runs, s - DAY) < l.tokensPerDay
  }

  /** What was checked when run `k` was admitted still holds of the runs before it. */
  ghost predicate Admitted(l: Ledger, k: nat)
    requires k < |l.runs|
  {
    RoomFor(l, l.runs[..k], l.runs[k].startedAt)
  }

  ghost predicate Inv(l: Ledger) {
    Ordered(l.runs) && forall k :: 0 <= k < |l.runs| ==> Admitted(l, k)
  }

  lemma SameLimits(l: Ledger, t: Ledger, runs: seq<Run>, s: int)
    requires l.perHour == t.perHour && l.perDay == t.perDay && l.tokensPerDay == t.tokensPerDay && RoomFor(l, runs, s)
    ensures RoomFor(t, runs, s)
  {}

  lemma AdmitsMeansRoom(l: Ledger, now: int)
    requires Admits(l, now)
    ensures RoomFor(l, l.runs, now)
  {
    hide CountFrom, TokensFrom;
  }

  lemma ReserveInv(l: Ledger, now: int)
    requires Inv(l) && Monotone(l, Reserving(now))
    ensures Inv(Reserve(l, now).0)
  {
    hide RoomFor, Admits;
    var (t, ok) := Reserve(l, now);
    var n := |l.runs|;
    forall k | 0 <= k < |t.runs| ensures Admitted(t, k) {
      assert t.runs[..k] == l.runs[..k];
      if k < n {
        assert Admitted(l, k);
        SameLimits(l, t, l.runs[..k], l.runs[k].startedAt);
      } else {
        AdmitsMeansRoom(Awake(l, now), now);
        assert l.runs[..k] == l.runs;
        SameLimits(Awake(l, now), t, l.runs, now);
      }
    }
  }

  /** Settling a run changes no count, and no token sum that was ever relied on. */
  lemma {:induction false} SettleCounts(a: seq<Run>, b: seq<Run>, from: int)
    requires |a| == |b| && forall i :: 0 <= i < |a| ==> a[i].startedAt == b[i].startedAt
    ensures CountFrom(a, from) == CountFrom(b, from)
    ensures (forall i :: 0 <= i < |a| && a[i].startedAt >= from ==> a[i] == b[i]) ==>
      TokensFrom(a, from) == TokensFrom(b, from)
  {
    if a != [] { SettleCounts(a[..|a| - 1], b[..|b| - 1], from); }
  }

  /** Settling run `j` keeps the room found for a later run: `j` was not in its window, or it was settled. */
  lemma RoomKept(l: Ledger, runs: seq<Run>, s: int, j: nat, tokens: Option<nat>, status: string)
    requires RoomFor(l, runs, s) && j < |runs| && Running(runs[j])
    ensures RoomFor(l, runs[j := runs[j].(tokens := tokens, status := status)], s)
  {
    hide CountFrom, TokensFrom;
    var b := runs[j := runs[j].(tokens := tokens, status := status)];
    assert Unsettled(runs[j]);
    SettleCounts(runs, b, s - HOUR);
    SettleCounts(runs, b, s - DAY);
  }

  lemma RecordInv(l: Ledger, tokens: Option<nat>, status: string)
    requires Inv(l)
    ensures Inv(Record(l, tokens, status))
  {
    hide RoomFor;
    var t := Record(l, tokens, status);
    var j := LastRunning(l.runs, |l.runs|);
    if j < |l.runs| {
      forall k | 0 <= k < |t.runs| ensures Admitted(t, k) {
        assert Admitted(l, k);
        if j < k {
          RoomKept(l, l.runs[..k], l.runs[k].startedAt, j, tokens, status);
          assert t.runs[..k] == l.runs[..k][j := l.runs[..k][j].(tokens := tokens, status := status)];
        } else {
          assert t.runs[..k] == l.runs[..k];
        }
        SameLimits(l, t, t.runs[..k], t.runs[k].startedAt);
      }
    }
  }

  lemma StepInv(l: Ledger, e: Event)
    requires Inv(l) && Monotone(l, e)
    ensures Inv(Step(l, e))
  {
    match e
    case Reserving(now) => ReserveInv(l, now);
    case Recording(tokens, status) => RecordInv(l, tokens, status);
    case Pausing(seconds, now) =>
      var t := Step(l, e);
      forall k | 0 <= k < |t.runs| ensures Admitted(t, k) {
        assert Admitted(l, k);
        SameLimits(l, t, l.runs[..k], l.runs[k].startedAt);
      }
  }

  ghost predicate IsRun(tr: seq<Ledger>, es: seq<Event>) {
    && |tr| == |es| + 1 && tr[0].runs == []
    && forall k :: 0 <= k < |es| ==> Monotone(tr[k], es[k]) && tr[k + 1] == Step(tr[k], es[k])
  }

  lemma {:induction false} Reachable(tr: seq<Ledger>, es: seq<Event>, n: nat)
    requires IsRun(tr, es) && n < |tr|
    ensures Inv(tr[n]) && tr[n].perHour == tr[0].perHour && tr[n].perDay == tr[0].perDay &&
      tr[n].tokensPerDay == tr[0].tokensPerDay
  {
    if n > 0 {
      Reachable(tr, es, n - 1);
      StepInv(tr[n - 1], es[n - 1]);
    }
  }

  // ------------------------------------------------------------------ every window

  /** Runs, tokens and unsettled runs of the closed window from `from` to `to`. */
  function CountIn(runs: seq<Run>, from: int, to: int): nat {
    if runs == [] then 0
    else CountIn(runs[..|runs| - 1], from, to) + if from <= runs[|runs| - 1].startedAt <= to then 1 else 0
  }

  function TokensIn(runs: seq<Run>, from: int, to: int): nat {
    if runs == [] then 0
    else TokensIn(runs[..|runs| - 1], from, to)
         + if from <= runs[|runs| - 1].startedAt <= to then Tokens(runs[|runs| - 1]) else 0
  }

  predicate InWindow(r: Run, from: int, to: int) {
    from <= r.startedAt <= to
  }

  /** How many runs started no later than `to`: in an ordered ledger, a prefix. */
  function Upto(runs: seq<Run>, to: int): (k: nat)
    ensures k <= |runs|
    ensures k > 0 ==> runs[k - 1].startedAt <= to
    ensures forall i :: k <= i < |runs| ==> runs[i].startedAt > to
  {
    if runs == [] then 0
    else if runs[|runs| - 1].startedAt <= to then |runs| else Upto(runs[..|runs| - 1], to)
  }

  lemma WindowIsPrefix(runs: seq<Run>, from: int, to: int)
    requires Ordered(runs)
    ensures var k := Upto(runs, to);
      && CountIn(runs, from, to) == CountFrom(runs[..k], from)
      && TokensIn(runs, from, to) == TokensFrom(runs[..k], from)
  {
    CountOfPrefix(runs, from, to);
    TokensOfPrefix(runs, from, to);
  }

  /** How far the window reaches into one run more. */
  lemma UptoNext(runs: seq<Run>, to: int)
    requires Ordered(runs) && runs != []
    ensures var n, k := |runs| - 1, Upto(runs, to);
      if runs[n].startedAt <= to then k == |runs| && Upto(runs[..n], to) == n && runs[..k] == runs
      else k == Upto(runs[..n], to) && k <= n && runs[..n][..k] == runs[..k]
  {
    if runs[|runs| - 1].startedAt <= to { UptoAll(runs[..|runs| - 1], to); }
  }

  lemma {:induction false} CountOfPrefix(runs: seq<Run>, from: int, to: int)
    requires Ordered(runs)
    ensures CountIn(runs, from, to) == CountFrom(runs[..Upto(runs, to)], from)
  {
    if runs != [] {
      CountOfPrefix(runs[..|runs| - 1], from, to);
      UptoNext(runs, to);
      hide Upto;
      assert runs[..|runs| - 1][..|runs| - 1] == runs[..|runs| - 1];
    }
  }

  lemma {:induction false} TokensOfPrefix(runs: seq<Run>, from: int, to: int)
    requires Ordered(runs)
    ensures TokensIn(runs, from, to) == TokensFrom(runs[..Upto(runs, to)], from)
  {
    if runs != [] {
      TokensOfPrefix(runs[..|runs| - 1], from, to);
      UptoNext(runs, to);
      hide Upto;
      assert runs[..|runs| - 1][..|runs| - 1] == runs[..|runs| - 1];
    }
  }

  lemma {:induction false} UptoAll(runs: seq<Run>, to: int)
    requires forall i :: 0 <= i < |runs| ==> runs[i].startedAt <= to
    ensures Upto(runs, to) == |runs|
  {
    if runs != [] { assert runs[|runs| - 1].startedAt <= to; }
  }

  lemma {:induction false} FewerFromLater(runs: seq<Run>, from: int, later: int)
    requires from <= later
    ensures CountFrom(runs, later) <= CountFrom(runs, from) && TokensFrom(runs, later) <= TokensFrom(runs, from)
  {
    if runs != [] { FewerFromLater(runs[..|runs| - 1], from, later); }
  }

  /** The limits, on the window of the given length that ends at `to`. */
  ghost predicate RunsWithin(runs: seq<Run>, length: nat, to: int, most: int) {
    CountIn(runs, to - length, to) == 0 || CountIn(runs, to - length, to) <= most
  }

  /** Fewer tokens than the limit plus those of the window's last run. */
  ghost predicate TokensWithin(runs: seq<Run>, to: int, limit: int) {
    var k := Upto(runs, to);
    if k == 0 then TokensIn(runs, to - DAY, to) == 0 else TokensIn(runs, to - DAY, to) < limit + Tokens(runs[k - 1])
  }

  ghost predicate OneUnsettled(runs: seq<Run>, to: int) {
    forall i, j :: 0 <= i < j < |runs| && InWindow(runs[i], to - DAY, to) && InWindow(runs[j], to - DAY, to) ==>
      !(Unsettled(runs[i]) && Unsettled(runs[j]))
  }

  /** Counting one run more, the last. */
  lemma OneMore(runs: seq<Run>, k: nat, from: int)
    requires 0 < k <= |runs|
    ensures CountFrom(runs[..k], from) <= CountFrom(runs[..k - 1], from) + 1
    ensures TokensFrom(runs[..k], from) <= TokensFrom(runs[..k - 1], from) + Tokens(runs[k - 1])
  {
    assert runs[..k][..k - 1] == runs[..k - 1];
  }

  lemma CountBound(l: Ledger, length: nat, to: int)
    requires Inv(l) && (length == HOUR || length == DAY)
    ensures RunsWithin(l.runs, length, to, if length == HOUR then l.perHour else l.perDay)
  {
    hide TokensFrom, TokensIn;
    var runs, k := l.runs, Upto(l.runs, to);
    WindowIsPrefix(runs, to - length, to);
    if k > 0 {
      var s := runs[k - 1].startedAt;
      assert Admitted(l, k - 1);
      OneMore(runs, k, to - length);
      FewerFromLater(runs[..k - 1], s - length, to - length);
      hide CountFrom, CountIn, Upto, Inv;
    }
  }

  lemma TokenBound(l: Ledger, to: int)
    requires Inv(l)
    ensures TokensWithin(l.runs, to, l.tokensPerDay)
  {
    var runs, k := l.runs, Upto(l.runs, to);
    WindowIsPrefix(runs, to - DAY, to);
    if k > 0 {
      var s := runs[k - 1].startedAt;
      assert Admitted(l, k - 1);
      assert runs[..k][..k - 1] == runs[..k - 1];
      FewerFromLater(runs[..k - 1], s - DAY, to - DAY);
    }
  }

  lemma UnsettledBound(l: Ledger, to: int)
    requires Inv(l)
    ensures OneUnsettled(l.runs, to)
  {
    hide CountFrom, TokensFrom;
    var runs := l.runs;
    forall i, j | 0 <= i < j < |runs| && InWindow(runs[i], to - DAY, to) && InWindow(runs[j], to - DAY, to)
      ensures !Unsettled(runs[i])
    {
      assert Admitted(l, j);
      assert runs[..j][i] == runs[i];
    }
  }

  /**
   In every run of the ledger, every one-hour and every 24-hour window ending at any time holds
   at most the allowed runs, at most one unsettled run, and fewer tokens than the limit plus
   those of its last run.
   */
  lemma EveryWindowIsBounded(tr: seq<Ledger>, es: seq<Event>, n: nat, to: int)
    requires IsRun(tr, es) && n < |tr|
    ensures RunsWithin(tr[n].runs, HOUR, to, tr[0].perHour)
    ensures RunsWithin(tr[n].runs, DAY, to, tr[0].perDay)
    ensures TokensWithin(tr[n].runs, to, tr[0].tokensPerDay)
    ensures OneUnsettled(tr[n].runs, to)
  {
    hide RunsWithin, TokensWithin, OneUnsettled, Inv, Step;
    Reachable(tr, es, n);
    CountBound(tr[n], HOUR, to);
    CountBound(tr[n], DAY, to);
    TokenBound(tr[n], to);
    UnsettledBound(tr[n], to);
  }

  /** The bound is per window, not for ever: a run stuck for over a day no longer blocks the next. */
  lemma StuckRunStopsBlocking()
    ensures var l := Ledger([Run(0, Some(0), "running")], 4, 24, 400_000, None);
      Inv(l) && !Reserve(l, DAY).1 && Reserve(l, DAY + 1).1
  {
    var r := Run(0, Some(0), "running");
    var l := Ledger([r], 4, 24, 400_000, None);
    OneRun(r, 1);
    OneRun(r, DAY + 1 - HOUR);
    NoRuns(-DAY);
    NoRuns(-HOUR);
    assert l.runs[..0] == [];
    hide CountFrom, TokensFrom;
    assert Admitted(l, 0);
    assert l.runs[0] == r && Unsettled(r);
  }

  lemma NoRuns(from: int)
    ensures CountFrom([], from) == 0 && TokensFrom([], from) == 0
  {}

  lemma OneRun(r: Run, from: int)
    requires r.startedAt < from
    ensures CountFrom([r], from) == 0 && TokensFrom([r], from) == 0
  {
    assert [r][..0] == [];
  }

  /** The ledger is awake and its other limits leave room. */
  predicate RoomBesides(l: Ledger, now: int) {
    && l.pauseUntil.None?
    && CountFrom(l.runs, now - HOUR) < l.perHour
    && CountFrom(l.runs, now - DAY) < l.perDay
    && TokensFrom(l.runs, now - DAY) < l.tokensPerDay
  }

  /** Exactly which unsettled runs block a reservation that nothing else blocks: those started within the last day. */
  lemma UnsettledBlocksForADay(l: Ledger, now: int)
    ensures Reserve(l, now).1 <==>
      (RoomBesides(Awake(l, now), now) &&
       forall k :: 0 <= k < |l.runs| && Unsettled(l.runs[k]) ==> now > l.runs[k].startedAt + DAY)
  {
    hide CountFrom, TokensFrom;
    if Reserve(l, now).1 {
      AdmitsMeansRoom(Awake(l, now), now);
      assert SettledSince(l.runs, now - DAY);
    }
  }

  /** Run `j` is running, and no later one is. */
  predicate LastRun(runs: seq<Run>, j: int) {
    0 <= j < |runs| && runs[j].status == "running" && forall i :: j < i < |runs| ==> runs[i].status != "running"
  }

  predicate AnyRunning(runs: seq<Run>) {
    exists i :: 0 <= i < |runs| && runs[i].status == "running"
  }

  // ------------------------------------------------------------------ the ledger object

  class BudgetLedger {
    var runs: seq<Run>
    var pauseUntil: Option<int>
    const perHour: int
    const perDay: int
    const tokensPerDay: int

    function State(): Ledger
      reads this
    {
      Ledger(runs, perHour, perDay, tokensPerDay, pauseUntil)
    }

    constructor (perHour: int, perDay: int, tokensPerDay: int)
      ensures State() == Ledger([], perHour, perDay, tokensPerDay, None)
    {
      this.perHour, this.perDay, this.tokensPerDay := perHour, perDay, tokensPerDay;
      runs, pauseUntil := [], None;
    }

    /** `_within` and `usage`: count, known tokens and whether any usage is unknown. */
    method Usage(window: int, now: int) returns (count: nat, known: nat, unknown: bool)
      ensures count == CountFrom(runs, now - window)
      ensures known == TokensFrom(runs, now - window)
      ensures unknown == UnknownFrom(runs, now - window)
    {
      var threshold := now - window;
      count, known, unknown := 0, 0, false;
      var i := 0;
      while i < |runs|
        invariant i <= |runs|
        invariant count == CountFrom(runs[..i], threshold) && known == TokensFrom(runs[..i], threshold)
        invariant unknown <==> exists k :: 0 <= k < i && runs[k].startedAt >= threshold && Unsettled(runs[k])
      {
        assert runs[..i + 1][..i] == runs[..i];
        if runs[i].startedAt >= threshold {
          count := count + 1;
          known := known + Tokens(runs[i]);
          if Unsettled(runs[i]) { unknown := true; }
        }
        i := i + 1;
      }
      assert runs[..i] == runs;
    }

    method ReserveRun(now: int) returns (ok: bool)
      modifies this
      ensures (State(), ok) == Reserve(old(State()), now)
    {
      if pauseUntil.Some? {
        if now < pauseUntil.value { return false; }
        pauseUntil := None;
      }
      var hourly, _, _ := Usage(HOUR, now);
      var daily, known, unknown := Usage(DAY, now);
      if hourly >= perHour { return false; }
      if daily >= perDay { return false; }
      if unknown { return false; }
      if known >= tokensPerDay { return false; }
      runs := runs + [Run(now, Some(0), "running")];
      return true;
    }

    method RecordRun(tokens: Option<nat>, status: string)
      modifies this
      ensures State() == Step(old(State()), Recording(tokens, status))
      ensures forall j :: LastRun(old(runs), j) ==>
        runs == old(runs)[j := Run(old(runs)[j].startedAt, tokens, status)]
      ensures !AnyRunning(old(runs)) ==> runs == old(runs)
      ensures pauseUntil == old(pauseUntil)
    {
      var i := |runs|;
      while i > 0
        invariant 0 <= i <= |runs| && runs == old(runs) && pauseUntil == old(pauseUntil)
        invariant forall k :: i <= k < |runs| ==> !Running(runs[k])
      {
        i := i - 1;
        if Running(runs[i]) {
          assert LastRunning(runs, |runs|) == i;
          runs := runs[i := runs[i].(tokens := tokens, status := status)];
          return;
        }
      }
    }

    method PauseFor(seconds: int, now: int)
      modifies this
      ensures State() == Step(old(State()), Pausing(seconds, now))
    {
      pauseUntil := Some(now + if seconds < 1 then 1 else seconds);
    }
  }
}
