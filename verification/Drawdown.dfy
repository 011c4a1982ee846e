/** Drawdowns of an equity curve (src/tqt/backtest/metrics.py). */
module Drawdown {
  import opened Wrappers
  import opened RealFacts

  // ---------------------------------------------------------------- the one-pass form

  /** equity.cummax(), at entry i. */
  function CumMax(e: seq<real>, i: nat): real
    requires i < |e|
  {
    if i == 0 then e[0] else Max(CumMax(e, i - 1), e[i])
  }

  /** No running peak is zero: every quotient of the figure is a number. */
  ghost predicate HasPeaks(e: seq<real>) {
    forall i :: 0 <= i < |e| ==> CumMax(e, i) != 0.0
  }

  /** equity / peak - 1, at entry i. */
  function DrawdownAt(e: seq<real>, i: nat): real
    requires i < |e| && HasPeaks(e)
  {
    e[i] / CumMax(e, i) - 1.0
  }

  /** A curve that starts above zero has peaks, whatever it falls to. */
  lemma FundedHasPeaks(e: seq<real>)
    requires |e| > 0 ==> e[0] > 0.0
    ensures HasPeaks(e)
  {
    forall i | 0 <= i < |e| ensures CumMax(e, i) != 0.0 { CumMaxIsMax(e, i); }
  }

  lemma {:induction false} CumMaxIsMax(e: seq<real>, i: nat)
    requires i < |e|
    ensures forall j :: 0 <= j <= i ==> e[j] <= CumMax(e, i)
    ensures exists j :: 0 <= j <= i && e[j] == CumMax(e, i)
  {
    if i == 0 {
      assert e[0] == CumMax(e, 0);
    } else {
      CumMaxIsMax(e, i - 1);
      assert CumMax(e, i) == e[i] || CumMax(e, i) == CumMax(e, i - 1);
    }
  }

  /** idxmin over the first n drawdowns: the first position of the least. */
  function ArgMin(e: seq<real>, n: nat): nat
    requires 0 < n <= |e| && HasPeaks(e)
    ensures ArgMin(e, n) < n
  {
    if n == 1 then 0
    else
      var k := ArgMin(e, n - 1);
      if DrawdownAt(e, n - 1) < DrawdownAt(e, k) then n - 1 else k
  }

  /** equity.loc[:t].idxmax(): the first position of the greatest mark up to t. */
  function ArgMax(e: seq<real>, t: nat): nat
    requires t < |e|
    ensures ArgMax(e, t) <= t && e[ArgMax(e, t)] == CumMax(e, t)
  {
    if t == 0 then 0
    else
      var k := ArgMax(e, t - 1);
      if e[t] > e[k] then t else k
  }

  function MaxDrawdown(e: seq<real>): real
    requires HasPeaks(e)
  {
    if |e| < 2 then 0.0 else DrawdownAt(e, ArgMin(e, |e|))
  }

  lemma {:induction false} ArgMinIsLeast(e: seq<real>, n: nat)
    requires 0 < n <= |e| && HasPeaks(e)
    ensures forall i :: 0 <= i < n ==> DrawdownAt(e, ArgMin(e, n)) <= DrawdownAt(e, i)
    ensures forall i :: 0 <= i < ArgMin(e, n) ==> DrawdownAt(e, ArgMin(e, n)) < DrawdownAt(e, i)
  {
    hide DrawdownAt;
    if n > 1 { ArgMinIsLeast(e, n - 1); }
  }

  lemma {:induction false} ArgMaxIsGreatest(e: seq<real>, t: nat)
    requires t < |e|
    ensures forall i :: 0 <= i <= t ==> e[i] <= e[ArgMax(e, t)]
    ensures forall i :: 0 <= i < ArgMax(e, t) ==> e[i] < e[ArgMax(e, t)]
  {
    if t > 0 { ArgMaxIsGreatest(e, t - 1); }
  }

  lemma RatioAntitone(x: real, a: real, b: real)
    requires x >= 0.0 && 0.0 < a <= b
    ensures x / b <= x / a
  {
    var p, q := x / a, x / b;
    assert p * a == x && q * b == x;
    DivMono(0.0, x, a);
    MulMono(p, a, b);
    if q > p { MulPositive(q - p, b); }
  }

  /**
   The one-pass figure is the worst loss over all pairs: from no earlier mark above zero to any later one that
   is not below it did the curve fall further, and the reported peak and trough are a pair that fell that far.
   */
  lemma MaxDrawdownIsWorstPair(e: seq<real>)
    requires |e| >= 2 && HasPeaks(e)
    ensures forall i, j :: 0 <= i <= j < |e| && e[i] > 0.0 && e[j] >= 0.0 ==> MaxDrawdown(e) <= e[j] / e[i] - 1.0
    ensures var trough := ArgMin(e, |e|); var peak := ArgMax(e, trough);
            peak <= trough && e[trough] / e[peak] - 1.0 == MaxDrawdown(e)
  {
    var trough := ArgMin(e, |e|);
    ArgMinIsLeast(e, |e|);
    ArgMaxIsGreatest(e, trough);
    forall i, j | 0 <= i <= j < |e| && e[i] > 0.0 && e[j] >= 0.0 ensures MaxDrawdown(e) <= e[j] / e[i] - 1.0 {
      CumMaxIsMax(e, j);
      RatioAntitone(e[j], e[i], CumMax(e, j));
      assert MaxDrawdown(e) <= DrawdownAt(e, j);
    }
  }

  // ---------------------------------------------------------------- time under water

  /** A maximal stretch of underwater days [from, until). */
  ghost predicate MaximalRun(under: seq<bool>, from: int, until: int) {
    && 0 <= from < until <= |under|
    && (forall i :: from <= i < until ==> under[i])
    && (from == 0 || !under[from - 1])
    && (until == |under| || !under[until])
  }

  /** A stretch is timed to the day it recovers, or to the last day if it never does. */
  function RunDays(days: seq<int>, from: int, until: int): int
    requires 0 <= from < |days| && 0 < until <= |days|
  {
    (if until < |days| then days[until] else days[|days| - 1]) - days[from]
  }

  ghost predicate BoundsRuns(days: seq<int>, under: seq<bool>, n: int, longest: int)
    requires |days| == |under|
  {
    forall a, b :: MaximalRun(under, a, b) && b < n ==> RunDays(days, a, b) <= longest
  }

  ghost predicate AttainedOrNone(days: seq<int>, under: seq<bool>, n: int, longest: int)
    requires |days| == |under|
  {
    longest == 0 || exists a, b :: MaximalRun(under, a, b) && b < n && RunDays(days, a, b) == longest
  }

  /** What is open before day n: no run, or the one that began at `from`. */
  ghost predicate OpenRun(under: seq<bool>, from: int, n: int)
    requires 0 <= n <= |under|
  {
    if from == -1 then n == 0 || !under[n - 1]
    else 0 <= from < n && (forall j :: from <= j < n ==> under[j]) && (from == 0 || !under[from - 1])
  }

  /** A day after which no run is open ends the only run it can end. */
  lemma RunsEndingAt(days: seq<int>, under: seq<bool>, from: int, n: nat, longest: int, now: int)
    requires |days| == |under| && n <= |under| && OpenRun(under, from, n)
    requires BoundsRuns(days, under, n, longest) && AttainedOrNone(days, under, n, longest)
    requires now == if from != -1 && (n == |under| || !under[n]) then Later(longest, RunDays(days, from, n)) else longest
    ensures BoundsRuns(days, under, n + 1, now) && AttainedOrNone(days, under, n + 1, now)
  {
    forall a, b | MaximalRun(under, a, b) && b < n + 1 ensures RunDays(days, a, b) <= now {
      if b == n {
        assert under[n - 1] && (a > 0 ==> !under[a - 1]) && (from > 0 ==> !under[from - 1]);
      }
    }
    if now == longest {
      if longest != 0 {
        var a, b :| MaximalRun(under, a, b) && b < n && RunDays(days, a, b) == longest;
        assert b < n + 1;
      }
    } else {
      assert MaximalRun(under, from, n) && n < n + 1;
    }
  }

  function Later(a: int, b: int): int {
    if b > a then b else a
  }

  lemma NoRunsYet(days: seq<int>, under: seq<bool>)
    requires |days| == |under|
    ensures BoundsRuns(days, under, 0, 0) && AttainedOrNone(days, under, 0, 0) && OpenRun(under, -1, 0)
  {
  }

  /** The underwater loop of drawdown_details: one open run at a time. */
  method LongestUnderwater(days: seq<int>, under: seq<bool>) returns (longest: int)
    requires |days| == |under|
    requires forall i, j :: 0 <= i < j < |days| ==> days[i] < days[j]
    ensures BoundsRuns(days, under, |days| + 1, longest)
    ensures AttainedOrNone(days, under, |days| + 1, longest)
    ensures longest >= 0
  {
    hide BoundsRuns, AttainedOrNone;
    longest := 0;
    var runStart := -1;
    NoRunsYet(days, under);
    for i := 0 to |days|
      invariant longest >= 0 && OpenRun(under, runStart, i)
      invariant BoundsRuns(days, under, i, longest)
      invariant AttainedOrNone(days, under, i, longest)
    {
      ghost var from, before := runStart, longest;
      if under[i] && runStart == -1 {
        runStart := i;
      } else if !under[i] && runStart != -1 {
        longest := Later(longest, days[i] - days[runStart]);
        runStart := -1;
      }
      RunsEndingAt(days, under, from, i, before, longest);
    }
    ghost var before := longest;
    if runStart != -1 {
      longest := Later(longest, days[|days| - 1] - days[runStart]);
    }
    RunsEndingAt(days, under, runStart, |days|, before, longest);
  }

  /** No stretch is longer than the curve: it starts on one of its days and is timed to a later one. */
  lemma LongestFitsTheCurve(days: seq<int>, under: seq<bool>, longest: int)
    requires |days| == |under| > 0 && forall i, j :: 0 <= i < j < |days| ==> days[i] < days[j]
    requires AttainedOrNone(days, under, |days| + 1, longest)
    ensures 0 <= longest <= days[|days| - 1] - days[0]
    ensures longest > 0 ==> exists a, b :: 0 <= a < b < |days| && under[a] && longest == days[b] - days[a]
  {
    if longest != 0 {
      var a, b :| MaximalRun(under, a, b) && b < |days| + 1 && RunDays(days, a, b) == longest;
      var to := if b < |days| then b else |days| - 1;
      assert longest == days[to] - days[a];
    }
  }

  /** Below the greatest mark so far by more than one part in a million million. */
  ghost predicate IsUnder(e: seq<real>, i: nat)
    requires i < |e|
  {
    exists j :: 0 <= j <= i && e[j] != 0.0 && (forall k :: 0 <= k <= i ==> e[k] <= e[j]) && (1.0 - e[i] / e[j]) * 1000000000000.0 > 1.0
  }

  lemma IsUnderIff(e: seq<real>, i: nat)
    requires i < |e| && HasPeaks(e)
    ensures IsUnder(e, i) <==> DrawdownAt(e, i) < -0.000000000001
  {
    CumMaxIsMax(e, i);
    var peak :| 0 <= peak <= i && e[peak] == CumMax(e, i);
    assert CumMax(e, i) != 0.0;
    if IsUnder(e, i) {
      var j :| 0 <= j <= i && e[j] != 0.0 && (forall k :: 0 <= k <= i ==> e[k] <= e[j]) && (1.0 - e[i] / e[j]) * 1000000000000.0 > 1.0;
      assert e[j] == e[peak];
    }
  }

  lemma UnderwaterIs(e: seq<real>, i: nat)
    requires i < |e| && HasPeaks(e)
    ensures |Underwater(e)| == |e| && (Underwater(e)[i] <==> IsUnder(e, i))
  {
    IsUnderIff(e, i);
  }

  function Underwater(e: seq<real>): seq<bool>
    requires HasPeaks(e)
  {
    seq(|e|, i requires 0 <= i < |e| => DrawdownAt(e, i) < -0.000000000001)
  }

  /** A fully recovered mark, from the trough on. */
  ghost predicate FirstRecovery(e: seq<real>, trough: nat, level: real, at: int) {
    && trough <= at < |e| && e[at] >= level
    && forall i :: trough <= i < at ==> e[i] < level
  }

  /** What is reported of a drawdown, by position; `recovery` is -1 where the source reports none. */
  datatype Report = Report(peak: nat, trough: nat, recovery: int)

  ghost predicate ReportIs(e: seq<real>, r: Report)
    requires HasPeaks(e) && |e| >= 2
  {
    && r.peak <= r.trough < |e| && e[r.peak] != 0.0 && e[r.trough] / e[r.peak] - 1.0 == MaxDrawdown(e)
    && (forall i :: 0 <= i < r.trough ==> MaxDrawdown(e) < DrawdownAt(e, i))
    && (forall i :: 0 <= i < r.peak ==> e[i] < e[r.peak])
    && (if r.recovery != -1 then FirstRecovery(e, r.trough, e[r.peak], r.recovery)
        else forall i :: r.trough <= i < |e| ==> e[i] < e[r.peak])
  }

  lemma ReportHolds(e: seq<real>, recovery: int)
    requires HasPeaks(e) && |e| >= 2
    requires var trough := ArgMin(e, |e|); var level := e[ArgMax(e, trough)];
             if recovery != -1 then FirstRecovery(e, trough, level, recovery) else forall i :: trough <= i < |e| ==> e[i] < level
    ensures ReportIs(e, Report(ArgMax(e, ArgMin(e, |e|)), ArgMin(e, |e|), recovery))
  {
    hide DrawdownAt, FirstRecovery, ArgMin, ArgMax;
    var trough := ArgMin(e, |e|);
    MaxDrawdownIsWorstPair(e);
    ArgMinIsLeast(e, |e|);
    ArgMaxIsGreatest(e, trough);
  }

  /** drawdown_details; a curve of fewer than two points has nothing to report. */
  method Details(e: seq<real>, days: seq<int>) returns (maxDrawdown: real, report: Option<Report>, longest: int)
    requires |e| == |days| && HasPeaks(e)
    requires forall i, j :: 0 <= i < j < |days| ==> days[i] < days[j]
    ensures maxDrawdown == MaxDrawdown(e)
    ensures report.Some? <==> |e| >= 2
    ensures report.Some? ==> ReportIs(e, report.value)
    ensures |e| < 2 ==> longest == 0
    ensures |e| >= 2 ==> exists under: seq<bool> ::
              && |under| == |e| && (forall i :: 0 <= i < |e| ==> (under[i] <==> IsUnder(e, i)))
              && BoundsRuns(days, under, |days| + 1, longest) && AttainedOrNone(days, under, |days| + 1, longest)
  {
    if |e| < 2 {
      return 0.0, None, 0;
    }
    hide DrawdownAt, CumMax, ArgMin, ArgMax, HasPeaks, MaxDrawdown, Underwater, BoundsRuns, AttainedOrNone, ReportIs;
    var trough := ArgMin(e, |e|);
    var peak := ArgMax(e, trough);
    maxDrawdown := MaxDrawdown(e);
    longest := LongestUnderwater(days, Underwater(e));
    forall i | 0 <= i < |e| ensures Underwater(e)[i] <==> IsUnder(e, i) { UnderwaterIs(e, i); }
    var recovery: int := trough;
    while recovery < |e| && e[recovery] < e[peak]
      invariant trough <= recovery <= |e|
      invariant forall i :: trough <= i < recovery ==> e[i] < e[peak]
    {
      recovery := recovery + 1;
    }
    if recovery == |e| {
      recovery := -1;
    }
    ReportHolds(e, recovery);
    report := Some(Report(peak, trough, recovery));
  }
}
