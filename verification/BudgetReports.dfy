/** What a settled run records, and how the tokens reported over a whole run of the ledger count. */
module BudgetReports {
  import opened Common
  import opened Budget

  // ------------------------------------------------------------------ one report

  /**
   A report settles the last running run and no other: it keeps its start and has exactly the
   tokens and the status reported. With no run running it changes nothing.
   */
  lemma RecordedExactly(l: Ledger, tokens: Option<nat>, status: string) returns (j: int)
    ensures var t := Step(l, Recording(tokens, status));
      if AnyRunning(l.runs) then
        && LastRun(l.runs, j) && |t.runs| == |l.runs|
        && t.runs[j] == Run(l.runs[j].startedAt, tokens, status)
        && (forall i :: 0 <= i < |l.runs| && i != j ==> t.runs[i] == l.runs[i])
        && t == l.(runs := t.runs)
      else t == l
  {
    j := LastRunning(l.runs, |l.runs|);
    if AnyRunning(l.runs) {
      var i :| 0 <= i < |l.runs| && l.runs[i].status == "running";
      assert Running(l.runs[i]);
    }
  }

  /**
   A reservation is granted exactly when no pause is on, fewer runs than allowed started within the
   last hour and the last day, none of the day is unsettled, and the day's tokens are below the
   limit. Granted, it adds one running run that starts now; either way a pause that is over ends.
   */
  lemma ReservedExactly(l: Ledger, now: int)
    ensures var (t, ok) := Reserve(l, now);
      && (ok <==>
            && (l.pauseUntil.Some? ==> now >= l.pauseUntil.value)
            && CountFrom(l.runs, now - 3600) < l.perHour && CountFrom(l.runs, now - 86400) < l.perDay
            && (forall i :: 0 <= i < |l.runs| && l.runs[i].startedAt >= now - 86400 ==>
                  l.runs[i].tokens.Some? && l.runs[i].status != "running")
            && TokensFrom(l.runs, now - 86400) < l.tokensPerDay)
      && t == l.(runs := if ok then l.runs + [Run(now, Some(0), "running")] else l.runs,
                 pauseUntil := if l.pauseUntil.Some? && now < l.pauseUntil.value then l.pauseUntil else None)
  {
    hide CountFrom, TokensFrom;
    if UnknownFrom(l.runs, now - DAY) {
      var i :| 0 <= i < |l.runs| && l.runs[i].startedAt >= now - DAY && Unsettled(l.runs[i]);
    }
  }

  /** After a pause of some seconds, taken as one if fewer, no reservation is granted before it is over. */
  lemma PauseHolds(l: Ledger, seconds: int, from: int, now: int)
    requires now < from + 1 || now < from + seconds
    ensures !Reserve(Step(l, Pausing(seconds, from)), now).1
    ensures Step(l, Pausing(seconds, from)).runs == l.runs
  {
    hide CountFrom, TokensFrom, UnknownFrom;
  }

  // ------------------------------------------------------------------ counting

  ghost function StartedFrom(runs: seq<Run>, from: int): set<nat> {
    set i: nat | i < |runs| && runs[i].startedAt >= from
  }

  /** The count of a window is the number of runs started in it. */
  lemma {:induction false} CountIsNumber(runs: seq<Run>, from: int)
    ensures CountFrom(runs, from) == |StartedFrom(runs, from)|
  {
    if runs == [] {
      assert StartedFrom(runs, from) == {};
    } else {
      var n := |runs| - 1;
      CountIsNumber(runs[..n], from);
      var few, all := StartedFrom(runs[..n], from), StartedFrom(runs, from);
      if runs[n].startedAt >= from { assert all == few + {n}; } else { assert all == few; }
    }
  }

  // ------------------------------------------------------------------ the tokens reported

  function Settled(r: Run, from: int): nat {
    if r.startedAt >= from && r.status != "running" && r.tokens.Some? then r.tokens.value else 0
  }

  /** The tokens of the runs started at `from` or later that are no longer running. */
  function SettledTokens(runs: seq<Run>, from: int): nat {
    if runs == [] then 0 else SettledTokens(runs[..|runs| - 1], from) + Settled(runs[|runs| - 1], from)
  }

  lemma {:induction false} SettledCount(runs: seq<Run>, from: int)
    ensures SettledTokens(runs, from) <= TokensFrom(runs, from)
  {
    if runs != [] { SettledCount(runs[..|runs| - 1], from); }
  }

  lemma {:induction false} SettleOne(a: seq<Run>, b: seq<Run>, j: nat, from: int)
    requires |a| == |b| && j < |a| && forall i :: 0 <= i < |a| && i != j ==> a[i] == b[i]
    ensures SettledTokens(b, from) - Settled(b[j], from) == SettledTokens(a, from) - Settled(a[j], from)
  {
    var n := |a| - 1;
    if j < n {
      SettleOne(a[..n], b[..n], j, from);
    } else {
      assert a[..n] == b[..n];
    }
  }

  /** What this call reports for a run that started at `from` or later, if it settles one. */
  ghost function Report(l: Ledger, e: Event, from: int): nat {
    if e.Recording? && e.tokens.Some? && e.status != "running"
       && exists j :: LastRun(l.runs, j) && l.runs[j].startedAt >= from
    then e.tokens.value else 0
  }

  ghost function Reported(tr: seq<Ledger>, es: seq<Event>, n: nat, from: int): nat
    requires n <= |es| <= |tr|
  {
    if n == 0 then 0 else Reported(tr, es, n - 1, from) + Report(tr[n - 1], es[n - 1], from)
  }

  lemma ReportCounts(l: Ledger, e: Event, from: int)
    ensures SettledTokens(Step(l, e).runs, from) == SettledTokens(l.runs, from) + Report(l, e, from)
  {
    match e
    case Reserving(now) => ReserveSettles(l, now, from);
    case Recording(tokens, status) => RecordSettles(l, tokens, status, from);
    case Pausing(seconds, now) =>
  }

  lemma ReserveSettles(l: Ledger, now: int, from: int)
    ensures SettledTokens(Step(l, Reserving(now)).runs, from) == SettledTokens(l.runs, from)
  {
    hide Admits;
    var r := Run(now, Some(0), "running");
    assert (l.runs + [r])[..|l.runs|] == l.runs;
  }

  lemma RecordSettles(l: Ledger, tokens: Option<nat>, status: string, from: int)
    ensures SettledTokens(Step(l, Recording(tokens, status)).runs, from)
      == SettledTokens(l.runs, from) + Report(l, Recording(tokens, status), from)
  {
    hide SettledTokens, Step;
    var e, t := Recording(tokens, status), Step(l, Recording(tokens, status));
    var j := RecordedExactly(l, tokens, status);
    if AnyRunning(l.runs) {
      SettleOne(l.runs, t.runs, j, from);
      forall k | LastRun(l.runs, k) ensures k == j {}
    } else {
      assert forall k :: !LastRun(l.runs, k);
    }
  }

  lemma {:induction false} AllReportsCount(tr: seq<Ledger>, es: seq<Event>, n: nat, from: int)
    requires IsRun(tr, es) && n < |tr|
    ensures SettledTokens(tr[n].runs, from) == Reported(tr, es, n, from)
  {
    hide Step, Report;
    if n > 0 {
      AllReportsCount(tr, es, n - 1, from);
      ReportCounts(tr[n - 1], es[n - 1], from);
    }
  }

  /**
   In every run of the ledger: once the tokens reported for runs started within the last day add up
   to the daily limit, no reservation is granted.
   */
  lemma ReportedTokensBlock(tr: seq<Ledger>, es: seq<Event>, n: nat, now: int)
    requires IsRun(tr, es) && n < |tr|
    requires Reported(tr, es, n, now - 86400) >= tr[n].tokensPerDay
    ensures !Reserve(tr[n], now).1
  {
    AllReportsCount(tr, es, n, now - 86400);
    SettledCount(tr[n].runs, now - 86400);
    ReservedExactly(tr[n], now);
    hide CountFrom, TokensFrom, Step;
  }
}
