/** Walk-forward agrees with one full run, window by window. */
module WalkForwardTheorems {
  import opened RealFacts
  import opened Calendar
  import opened Engine
  import opened Backtest
  import opened BacktestTheorems
  import opened WalkForward

  // ---------------------------------------------------------------- the windows

  lemma {:induction false} UpToIs(bars: seq<Bar>, t: int)
    requires SortedBars(bars)
    ensures forall i :: 0 <= i < |bars| ==> (i < UpTo(bars, t) <==> bars[i].date.Ordinal() <= t)
  {
    hide RawDate.Ordinal;
    if |bars| > 0 && bars[|bars| - 1].date.Ordinal() > t {
      UpToIs(bars[..|bars| - 1], t);
    }
  }

  lemma UpToMono(bars: seq<Bar>, t: int, u: int)
    requires SortedBars(bars) && t <= u
    ensures UpTo(bars, t) <= UpTo(bars, u)
  {
    UpToIs(bars, t);
    UpToIs(bars, u);
    if UpTo(bars, u) < |bars| {
      assert bars[UpTo(bars, u)].date.Ordinal() > u;
    }
  }

  ghost predicate Consecutive(bars: seq<Bar>, ws: seq<Window>)
    requires |bars| > 0
  {
    && (forall i :: 0 <= i < |ws| ==> ws[i].cut < ws[i].testEnd <= LastDay(bars) && UpTo(bars, ws[i].testEnd) >= MIN_HISTORY)
    && (forall i :: 0 <= i < |ws| - 1 ==> ws[i].testEnd == ws[i + 1].cut)
  }

  /**
   The test windows are consecutive and so disjoint, and they run from the first cut to the last bar,
   unless the very first window is short of history: then there are none at all.
   */
  lemma {:induction false} WindowsTile(bars: seq<Bar>, cut: int, testDays: int)
    requires |bars| > 0 && SortedBars(bars) && testDays >= 1
    ensures var ws := Windows(bars, cut, testDays);
            && Consecutive(bars, ws)
            && (|ws| > 0 ==> ws[0].cut == cut && ws[|ws| - 1].testEnd == LastDay(bars))
            && (|ws| == 0 <==> cut >= LastDay(bars) || UpTo(bars, if cut + testDays < LastDay(bars) then cut + testDays else LastDay(bars)) < 60)
            && (forall i :: 0 <= i < |ws| ==> ws[i].testEnd - ws[i].cut <= testDays)
            && (forall i :: 0 <= i < |ws| - 1 ==> ws[i].testEnd - ws[i].cut == testDays)
    decreases LastDay(bars) - cut
  {
    hide UpTo;
    var w := WindowAt(bars, cut, testDays);
    if cut < LastDay(bars) && UpTo(bars, w.testEnd) >= MIN_HISTORY {
      WindowsTile(bars, w.testEnd, testDays);
      if w.testEnd < LastDay(bars) {
        UpToMono(bars, w.testEnd, WindowAt(bars, w.testEnd, testDays).testEnd);
      }
    }
  }

  // ---------------------------------------------------------------- termination

  /** Following the windows to the last one, the loop then stops. */
  lemma {:induction false} StopsAfterWindows(bars: seq<Bar>, cut: int, testDays: int)
    requires |bars| > 0 && Ends(bars, cut, testDays)
    ensures AfterTurns(bars, testDays, FoldLoop(cut, false), |Windows(bars, cut, testDays)| + 1).stopped
    decreases if testDays > 0 then LastDay(bars) - cut else cut
  {
    hide UpTo;
    var w := WindowAt(bars, cut, testDays);
    if cut < LastDay(bars) && UpTo(bars, w.testEnd) >= MIN_HISTORY {
      HistoryNeedsTime(bars, w.testEnd);
      StopsAfterWindows(bars, w.testEnd, testDays);
    }
  }

  /** A window of no days with a history behind it leaves the loop where it was. */
  lemma {:induction false} StandsStill(bars: seq<Bar>, cut: int, k: nat)
    requires |bars| > 0 && !Ends(bars, cut, 0)
    ensures AfterTurns(bars, 0, FoldLoop(cut, false), k) == FoldLoop(cut, false)
  {
    hide UpTo;
    if k > 0 { StandsStill(bars, cut, k - 1); }
  }

  /**
   When the fold loop ends, for every length of a test window: unless the window has no days at all and the
   first one is neither past the last bar nor short of history. Windows of negative length walk backwards until
   the history runs short.
   */
  lemma FoldLoopEndsIff(bars: seq<Bar>, cut: int, testDays: int)
    requires |bars| > 0
    ensures (exists k: nat :: AfterTurns(bars, testDays, FoldLoop(cut, false), k).stopped)
       <==> testDays != 0 || cut >= LastDay(bars) || UpTo(bars, cut) < 60
  {
    hide UpTo, AfterTurns;
    if Ends(bars, cut, testDays) {
      StopsAfterWindows(bars, cut, testDays);
    } else {
      forall k: nat ensures !AfterTurns(bars, testDays, FoldLoop(cut, false), k).stopped { StandsStill(bars, cut, k); }
    }
  }

  /** A window that does not reach past its own cut holds no mark to score. */
  lemma NothingAfterTheCut(cfg: Config, strat: Strategy, bars: seq<Bar>, w: Window)
    requires w.testEnd <= w.cut
    ensures TestEquity(cfg, strat, bars, w) == []
  {
    hide UpTo, After;
    var hi := UpTo(bars, w.testEnd);
    HistoryNeedsTime(bars, w.testEnd);
    MarksPerBar(cfg, strat, bars[..hi], hi);
  }

  lemma {:induction false} BackwardWindows(bars: seq<Bar>, cut: int, testDays: int)
    requires |bars| > 0 && testDays < 0
    ensures forall w :: w in Windows(bars, cut, testDays) ==> w.testEnd < w.cut
    decreases cut
  {
    hide UpTo;
    var w := WindowAt(bars, cut, testDays);
    if cut < LastDay(bars) && UpTo(bars, w.testEnd) >= MIN_HISTORY {
      HistoryNeedsTime(bars, w.testEnd);
      BackwardWindows(bars, w.testEnd, testDays);
    }
  }

  lemma {:induction false} NothingScored(cfg: Config, strat: Strategy, bars: seq<Bar>, ws: seq<Window>)
    requires forall w :: w in ws ==> w.testEnd <= w.cut
    ensures ScoredFolds(cfg, strat, bars, ws) == [] && Stitched(cfg, strat, bars, ws) == []
  {
    hide TestEquity;
    if |ws| > 0 {
      var n := |ws| - 1;
      assert ws[n] in ws;
      NothingScored(cfg, strat, bars, ws[..n]);
      NothingAfterTheCut(cfg, strat, bars, ws[n]);
    }
  }

  // ---------------------------------------------------------------- scored equity is the full run's

  lemma {:induction false} MarksAfterIs(marks: Marks, t: int, lo: nat)
    requires lo <= |marks|
    requires forall i :: 0 <= i < |marks| ==> (i < lo <==> marks[i].0.Ordinal() <= t)
    ensures MarksAfter(marks, t) == marks[lo..]
  {
    hide RawDate.Ordinal, RawDate.Valid;
    if |marks| > 0 && lo < |marks| {
      MarksAfterIs(marks[..|marks| - 1], t, lo);
      assert marks[lo..] == marks[..|marks| - 1][lo..] + [marks[|marks| - 1]];
    }
  }

  /** Every fold's scored equity is a stretch of the in-sample run's own marks. */
  lemma FoldIsFullRun(cfg: Config, strat: Strategy, bars: seq<Bar>, w: Window)
    requires SortedBars(bars) && w.cut <= w.testEnd && UpTo(bars, w.testEnd) > 0
    ensures UpTo(bars, w.cut) <= UpTo(bars, w.testEnd) <= |RunOf(cfg, strat, bars).equity|
    ensures TestEquity(cfg, strat, bars, w) == RunOf(cfg, strat, bars).equity[UpTo(bars, w.cut)..UpTo(bars, w.testEnd)]
  {
    hide After, UpTo;
    var hi, lo := UpTo(bars, w.testEnd), UpTo(bars, w.cut);
    var run := RunOf(cfg, strat, bars[..hi]);
    UpToMono(bars, w.cut, w.testEnd);
    UpToIs(bars, w.cut);
    NoLookahead(cfg, strat, bars, hi);
    MarksPerBar(cfg, strat, bars[..hi], hi);
    assert bars[..hi][..|bars[..hi]|] == bars[..hi];
    MarksAfterIs(run.equity, w.cut, lo);
    assert run.equity[lo..] == RunOf(cfg, strat, bars).equity[lo..hi];
  }

  // ---------------------------------------------------------------- what is stitched

  /** Going from one mark to the next is a change of c; only from nothing to nothing is it none. */
  ghost predicate Changes(before: real, after: real, c: Change) {
    match c
    case Num(r) => before != 0.0 && after == before + before * r
    case Infinite(up) => before == 0.0 && if up then after > 0.0 else after < 0.0
    case NaN => before == 0.0 && after == 0.0
  }

  lemma PctChangeIs(before: real, after: real, c: Change)
    ensures c == PctChange(before, after) <==> Changes(before, after, c)
  {
    if before != 0.0 {
      assert before * (after / before) == after;
      if c.Num? && Changes(before, after, c) {
        assert before * (c.r - (after / before - 1.0)) == 0.0;
      }
    }
  }

  /** Entry (d, c) is the change of mark i of a series. */
  ghost predicate ChangeAt(marks: Marks, i: int, d: Date, c: Change) {
    0 < i < |marks| && d == marks[i].0 && Changes(marks[i - 1].1, marks[i].1, c) && c != NaN
  }

  lemma {:induction false} ReturnsAre(marks: Marks, d: Date, c: Change)
    ensures (d, c) in Returns(marks) <==> exists i :: ChangeAt(marks, i, d, c)
  {
    hide PctChange, RawDate.Valid, Changes;
    if |marks| >= 2 {
      var n := |marks| - 1;
      PctChangeIs(marks[n - 1].1, marks[n].1, c);
      ReturnsAre(marks[..n], d, c);
      if i :| ChangeAt(marks[..n], i, d, c) { assert ChangeAt(marks, i, d, c); }
      if ChangeAt(marks, n, d, c) { assert (d, c) in Returns(marks); }
      if i :| ChangeAt(marks, i, d, c) {
        if i < n { assert ChangeAt(marks[..n], i, d, c); }
      }
    }
  }

  /** Bars i-1 and i both lie inside a window that is scored because it holds more than five bars. */
  ghost predicate InsideScored(bars: seq<Bar>, w: Window, i: int) {
    && UpTo(bars, w.testEnd) - UpTo(bars, w.cut) > 5
    && UpTo(bars, w.cut) < i < UpTo(bars, w.testEnd)
  }

  lemma SegmentIs(cfg: Config, strat: Strategy, bars: seq<Bar>, w: Window, d: Date, c: Change)
    requires SortedBars(bars) && w.cut <= w.testEnd && UpTo(bars, w.testEnd) > 0
    ensures (d, c) in Segment(cfg, strat, bars, w) <==>
            exists i :: InsideScored(bars, w, i) && ChangeAt(RunOf(cfg, strat, bars).equity, i, d, c)
  {
    hide RunOf, UpTo, Segment, ChangeAt, InsideScored;
    if (d, c) in Segment(cfg, strat, bars, w) {
      var i := ScoredChange(cfg, strat, bars, w, d, c);
    }
    forall i | InsideScored(bars, w, i) && ChangeAt(RunOf(cfg, strat, bars).equity, i, d, c)
      ensures (d, c) in Segment(cfg, strat, bars, w)
    {
      ChangeIsScored(cfg, strat, bars, w, i, d, c);
    }
  }

  lemma ScoredChange(cfg: Config, strat: Strategy, bars: seq<Bar>, w: Window, d: Date, c: Change) returns (i: int)
    requires SortedBars(bars) && w.cut <= w.testEnd && UpTo(bars, w.testEnd) > 0
    requires (d, c) in Segment(cfg, strat, bars, w)
    ensures InsideScored(bars, w, i) && ChangeAt(RunOf(cfg, strat, bars).equity, i, d, c)
  {
    hide RunOf, UpTo, Returns, TestEquity, PctChange;
    var test, lo, hi := TestEquity(cfg, strat, bars, w), UpTo(bars, w.cut), UpTo(bars, w.testEnd);
    FoldIsFullRun(cfg, strat, bars, w);
    ReturnsAre(test, d, c);
    var j :| ChangeAt(test, j, d, c);
    ChangesShift(RunOf(cfg, strat, bars).equity, lo, hi, j, d, c);
    i := lo + j;
  }

  lemma ChangeIsScored(cfg: Config, strat: Strategy, bars: seq<Bar>, w: Window, i: int, d: Date, c: Change)
    requires SortedBars(bars) && w.cut <= w.testEnd && UpTo(bars, w.testEnd) > 0
    requires InsideScored(bars, w, i) && ChangeAt(RunOf(cfg, strat, bars).equity, i, d, c)
    ensures (d, c) in Segment(cfg, strat, bars, w)
  {
    hide RunOf, UpTo, Returns, TestEquity, ChangeAt;
    var test, lo, hi := TestEquity(cfg, strat, bars, w), UpTo(bars, w.cut), UpTo(bars, w.testEnd);
    FoldIsFullRun(cfg, strat, bars, w);
    ReturnsAre(test, d, c);
    var j := i - lo;
    assert lo + j == i;
    ChangesShift(RunOf(cfg, strat, bars).equity, lo, hi, j, d, c);
  }

  /** The changes of a stretch of marks are the whole series' changes inside it. */
  lemma {:induction false} ChangesShift(full: Marks, lo: nat, hi: nat, j: int, d: Date, c: Change)
    requires lo <= hi <= |full|
    ensures ChangeAt(full[lo..hi], j, d, c) <==> 0 < j && lo + j < hi && ChangeAt(full, lo + j, d, c)
  {
    hide PctChange, Changes;
  }

  /**
   Walk-forward agrees with one full run. A dated change is stitched exactly when it is the full run's
   own change between two neighbouring bars that lie inside the same scored window. So every stitched
   return is the in-sample return of that date, and the first bar of each window has none.
   */
  lemma {:induction false} StitchedIsFullRun(cfg: Config, strat: Strategy, bars: seq<Bar>, ws: seq<Window>, d: Date, c: Change)
    requires SortedBars(bars)
    requires forall w :: w in ws ==> w.cut <= w.testEnd && UpTo(bars, w.testEnd) > 0
    ensures (d, c) in Stitched(cfg, strat, bars, ws) <==>
            exists w, i :: w in ws && InsideScored(bars, w, i) && ChangeAt(RunOf(cfg, strat, bars).equity, i, d, c)
  {
    hide RunOf, UpTo, InsideScored, ChangeAt, Segment;
    if |ws| > 0 {
      var n := |ws| - 1;
      assert ws == ws[..n] + [ws[n]];
      StitchedIsFullRun(cfg, strat, bars, ws[..n], d, c);
      SegmentIs(cfg, strat, bars, ws[n], d, c);
    }
  }

  // ---------------------------------------------------------------- sorting and deduplication change nothing

  ghost predicate AscendingDates(cs: Changes) {
    forall i, j :: 0 <= i < j < |cs| ==> cs[i].0.Ordinal() < cs[j].0.Ordinal()
  }

  ghost predicate DatedWithin(cs: Changes, after: int, upTo: int) {
    forall i :: 0 <= i < |cs| ==> after < cs[i].0.Ordinal() <= upTo
  }

  lemma {:induction false} ReturnsAscend(marks: Marks, after: int, upTo: int)
    requires forall i, j :: 0 <= i < j < |marks| ==> marks[i].0.Ordinal() < marks[j].0.Ordinal()
    requires forall i :: 0 <= i < |marks| ==> after < marks[i].0.Ordinal() <= upTo
    ensures AscendingDates(Returns(marks)) && DatedWithin(Returns(marks), after, upTo)
    ensures |marks| > 0 ==> DatedWithin(Returns(marks), after, marks[|marks| - 1].0.Ordinal())
  {
    hide PctChange, RawDate.Ordinal, RawDate.Valid;
    if |marks| >= 2 {
      var n := |marks| - 1;
      ReturnsAscend(marks[..n], after, upTo);
    }
  }

  lemma SegmentAscends(cfg: Config, strat: Strategy, bars: seq<Bar>, w: Window)
    requires SortedBars(bars) && w.cut <= w.testEnd && UpTo(bars, w.testEnd) > 0
    ensures AscendingDates(Segment(cfg, strat, bars, w)) && DatedWithin(Segment(cfg, strat, bars, w), w.cut, w.testEnd)
  {
    hide Returns, AscendingDates, DatedWithin, TestEquity, UpTo;
    TestDates(cfg, strat, bars, w);
    var marks := TestEquity(cfg, strat, bars, w);
    ReturnsAscend(marks, w.cut, w.testEnd);
    NoChanges(w.cut, w.testEnd);
  }

  lemma NoChanges(after: int, upTo: int)
    ensures AscendingDates([]) && DatedWithin([], after, upTo)
  {
  }

  /** The scored marks are those of the bars inside the window, in date order. */
  lemma TestDates(cfg: Config, strat: Strategy, bars: seq<Bar>, w: Window)
    requires SortedBars(bars) && w.cut <= w.testEnd && UpTo(bars, w.testEnd) > 0
    ensures var marks := TestEquity(cfg, strat, bars, w);
            && (forall i, j :: 0 <= i < j < |marks| ==> marks[i].0.Ordinal() < marks[j].0.Ordinal())
            && (forall i :: 0 <= i < |marks| ==> w.cut < marks[i].0.Ordinal() <= w.testEnd)
  {
    hide After, UpTo, TestEquity, RawDate.Ordinal;
    FoldIsFullRun(cfg, strat, bars, w);
    MarksPerBar(cfg, strat, bars, |bars|);
    UpToIs(bars, w.cut);
    UpToIs(bars, w.testEnd);
    var marks, lo := TestEquity(cfg, strat, bars, w), UpTo(bars, w.cut);
    forall i | 0 <= i < |marks| ensures marks[i].0 == bars[lo + i].date {
      assert marks[i] == RunOf(cfg, strat, bars).equity[lo + i];
    }
  }

  /** The concatenated segments are already in date order with no date twice. */
  lemma {:induction false} StitchedAscends(cfg: Config, strat: Strategy, bars: seq<Bar>, ws: seq<Window>)
    requires |bars| > 0 && SortedBars(bars) && Consecutive(bars, ws)
    ensures AscendingDates(Stitched(cfg, strat, bars, ws))
    ensures |ws| > 0 ==> DatedWithin(Stitched(cfg, strat, bars, ws), ws[0].cut, ws[|ws| - 1].testEnd)
  {
    hide Segment, UpTo;
    if |ws| > 0 {
      var n := |ws| - 1;
      StitchedAscends(cfg, strat, bars, ws[..n]);
      SegmentAscends(cfg, strat, bars, ws[n]);
      if n > 0 { assert ws[n - 1].testEnd == ws[n].cut; FirstCutIsEarliest(bars, ws, n); }
    }
  }

  lemma {:induction false} FirstCutIsEarliest(bars: seq<Bar>, ws: seq<Window>, n: nat)
    requires |bars| > 0 && Consecutive(bars, ws) && n < |ws|
    ensures ws[0].cut <= ws[n].cut
  {
    hide UpTo;
    if n > 0 { FirstCutIsEarliest(bars, ws, n - 1); }
  }

  // ---------------------------------------------------------------- compounding

  /** v * (1 + r) */
  function Grown(v: real, c: Change): real {
    match c
    case Num(r) => v * (1.0 + r)
    case _ => v
  }

  /** v * (1 + r).cumprod(), at its last entry. */
  function Compound(v: real, cs: Changes): real {
    if |cs| == 0 then v else Grown(Compound(v, cs[..|cs| - 1]), cs[|cs| - 1].1)
  }

  /** v, grown in proportion from a to b. */
  function Rescaled(v: real, a: real, b: real): real
    requires a != 0.0
  {
    v * (b / a)
  }

  ghost predicate Positive(marks: Marks) {
    forall i :: 0 <= i < |marks| ==> marks[i].1 > 0.0
  }

  lemma {:induction false} CompoundOfAppend(v: real, a: Changes, b: Changes)
    ensures Compound(v, a + b) == Compound(Compound(v, a), b)
  {
    if |b| == 0 {
      assert a + b == a;
    } else {
      assert (a + b)[..|a + b| - 1] == a + b[..|b| - 1];
      CompoundOfAppend(v, a, b[..|b| - 1]);
    }
  }

  lemma Chain(v: real, a: real, b: real, c: real)
    requires a > 0.0 && b > 0.0
    ensures Grown(Rescaled(v, a, b), PctChange(b, c)) == Rescaled(v, a, c)
  {
    var p, q, r := b / a, c / b, c / a;
    assert p * a == b && q * b == c && r * a == c;
    assert (p * q) * a == r * a;
    assert p * q == r;
    assert v * p * q == v * (p * q);
  }

  lemma Unscaled(v: real, a: real)
    requires a > 0.0
    ensures Rescaled(v, a, a) == v
  {
    assert a / a == 1.0;
  }

  /** Compounding a segment's returns leaves only its last mark over its first. */
  lemma {:induction false} ReturnsTelescope(v: real, marks: Marks)
    requires |marks| > 0 && Positive(marks)
    ensures Compound(v, Returns(marks)) == Rescaled(v, marks[0].1, marks[|marks| - 1].1)
  {
    hide PctChange, Grown, Rescaled;
    var n := |marks| - 1;
    if n == 0 {
      Unscaled(v, marks[0].1);
    } else {
      var rest := Returns(marks[..n]);
      ReturnsTelescope(v, marks[..n]);
      var c := PctChange(marks[n - 1].1, marks[n].1);
      PctIsNumber(marks[n - 1].1, marks[n].1);
      assert Returns(marks) == rest + [(marks[n].0, c)];
      assert (rest + [(marks[n].0, c)])[..|rest|] == rest;
      Chain(v, marks[0].1, marks[n - 1].1, marks[n].1);
    }
  }

  lemma PctIsNumber(a: real, b: real)
    requires a > 0.0
    ensures PctChange(a, b) != NaN
  {
  }

  /** The growth over the scored windows only, each from its first mark to its last. */
  function WindowGrowth(v: real, full: Marks, bars: seq<Bar>, cfg: Config, strat: Strategy, ws: seq<Window>): real {
    if |ws| == 0 then v
    else
      var w := ws[|ws| - 1];
      var before := WindowGrowth(v, full, bars, cfg, strat, ws[..|ws| - 1]);
      var lo, hi := UpTo(bars, w.cut), UpTo(bars, w.testEnd);
      if Scored(TestEquity(cfg, strat, bars, w)) && lo < hi <= |full| && full[lo].1 != 0.0
      then Rescaled(before, full[lo].1, full[hi - 1].1) else before
  }

  /**
   The out-of-sample curve compounds exactly the full run's growth inside each scored window; what the
   full run earned from one window's last bar to the next window's first bar is not in it.
   */
  lemma {:induction false} StitchedCompounds(cfg: Config, strat: Strategy, bars: seq<Bar>, ws: seq<Window>, v: real)
    requires SortedBars(bars) && Positive(RunOf(cfg, strat, bars).equity)
    requires forall w :: w in ws ==> w.cut <= w.testEnd && UpTo(bars, w.testEnd) > 0
    ensures Compound(v, Stitched(cfg, strat, bars, ws))
         == WindowGrowth(v, RunOf(cfg, strat, bars).equity, bars, cfg, strat, ws)
  {
    hide RunOf, UpTo, TestEquity, Returns, Compound, Rescaled;
    if |ws| == 0 {
      NothingCompounds(v);
    } else {
      var n := |ws| - 1;
      assert ws == ws[..n] + [ws[n]];
      StitchedCompounds(cfg, strat, bars, ws[..n], v);
      FoldIsFullRun(cfg, strat, bars, ws[n]);
      CompoundOfAppend(v, Stitched(cfg, strat, bars, ws[..n]), Segment(cfg, strat, bars, ws[n]));
      var test := TestEquity(cfg, strat, bars, ws[n]);
      if Scored(test) {
        ReturnsTelescope(Compound(v, Stitched(cfg, strat, bars, ws[..n])), test);
      } else {
        NothingCompounds(Compound(v, Stitched(cfg, strat, bars, ws[..n])));
      }
    }
  }

  lemma NothingCompounds(v: real)
    ensures Compound(v, []) == v
  {
  }

  // ---------------------------------------------------------------- what walk_forward returns

  lemma {:induction false} UnscoredIsEmpty(cfg: Config, strat: Strategy, bars: seq<Bar>, ws: seq<Window>)
    requires ScoredFolds(cfg, strat, bars, ws) == []
    ensures Stitched(cfg, strat, bars, ws) == []
  {
    hide TestEquity;
    if |ws| > 0 { UnscoredIsEmpty(cfg, strat, bars, ws[..|ws| - 1]); }
  }

  /** The windows of a forward run are those the results above are about. */
  lemma ForwardWindows(bars: seq<Bar>, trainDays: int, testDays: int)
    requires |bars| > 0 && SortedBars(bars) && testDays >= 1
    ensures var ws := AllWindows(bars, trainDays, testDays);
            && Consecutive(bars, ws)
            && (forall w :: w in ws ==> w.cut <= w.testEnd && UpTo(bars, w.testEnd) > 0)
            && (|ws| > 0 ==> ws[0].cut == FirstDay(bars) + trainDays && ws[|ws| - 1].testEnd == LastDay(bars))
  {
    hide UpTo;
    WindowsTile(bars, FirstDay(bars) + trainDays, testDays);
  }

  /**
   What walk_forward returns, for every length of a test window with which it ends: no date twice and in date
   order, and exactly the in-sample changes inside the windows it scored; nothing for windows that walk backwards.
   */
  lemma OutOfSampleIsInSample(cfg: Config, strat: Strategy, bars: seq<Bar>, trainDays: int, testDays: int, d: Date, c: Change)
    requires |bars| > 0 && SortedBars(bars) && Ends(bars, FirstDay(bars) + trainDays, testDays)
    ensures var ws := AllWindows(bars, trainDays, testDays); var r := Stitched(cfg, strat, bars, ws);
            && AscendingDates(r)
            && (ScoredFolds(cfg, strat, bars, ws) == [] ==> r == [])
            && (testDays < 0 ==> ScoredFolds(cfg, strat, bars, ws) == [])
            && ((d, c) in r <==>
                  exists w, i :: w in ws && InsideScored(bars, w, i) && ChangeAt(RunOf(cfg, strat, bars).equity, i, d, c))
  {
    hide UpTo, Stitched, ScoredFolds, ChangeAt, RunOf, TestEquity, AscendingDates;
    var ws := AllWindows(bars, trainDays, testDays);
    if testDays >= 1 {
      ForwardWindows(bars, trainDays, testDays);
      StitchedAscends(cfg, strat, bars, ws);
      StitchedIsFullRun(cfg, strat, bars, ws, d, c);
    } else {
      if testDays < 0 { BackwardWindows(bars, FirstDay(bars) + trainDays, testDays); }
      NothingScored(cfg, strat, bars, ws);
      NoChanges(0, 0);
      forall w, i | w in ws ensures !InsideScored(bars, w, i) { NothingInside(bars, w, i); }
    }
    if ScoredFolds(cfg, strat, bars, ws) == [] { UnscoredIsEmpty(cfg, strat, bars, ws); }
  }

  lemma NothingInside(bars: seq<Bar>, w: Window, i: int)
    requires SortedBars(bars) && w.testEnd <= w.cut
    ensures !InsideScored(bars, w, i)
  {
    UpToMono(bars, w.testEnd, w.cut);
  }

  // ---------------------------------------------------------------- what stitching loses

  /** marks[j] / marks[i], or 1 where there is no such pair. */
  function Ratio(marks: Marks, i: int, j: int): real {
    if 0 <= i < |marks| && 0 <= j < |marks| && marks[i].1 != 0.0 then marks[j].1 / marks[i].1 else 1.0
  }

  /** The in-sample growth that no window carries: into the first bar of a scored window, and all of an unscored one. */
  function Lost(cfg: Config, strat: Strategy, bars: seq<Bar>, ws: seq<Window>): real {
    if |ws| == 0 then 1.0
    else
      var w, full := ws[|ws| - 1], RunOf(cfg, strat, bars).equity;
      var lo, hi := UpTo(bars, w.cut), UpTo(bars, w.testEnd);
      Lost(cfg, strat, bars, ws[..|ws| - 1]) * Ratio(full, lo - 1, if Scored(TestEquity(cfg, strat, bars, w)) then lo else hi - 1)
  }

  lemma {:induction false} RatiosChain(marks: Marks, i: int, j: int, k: int)
    requires Positive(marks) && 0 <= i < |marks| && 0 <= j < |marks| && 0 <= k < |marks|
    ensures Ratio(marks, i, j) * Ratio(marks, j, k) == Ratio(marks, i, k)
    ensures Ratio(marks, i, j) > 0.0
  {
    var a, b, c := marks[i].1, marks[j].1, marks[k].1;
    QuotientsChain(a, b, c);
  }

  lemma QuotientsChain(a: real, b: real, c: real)
    requires a > 0.0 && b > 0.0 && c > 0.0
    ensures (b / a) * (c / b) == c / a && b / a > 0.0
  {
    var p, q, r := b / a, c / b, c / a;
    assert p * a == b && q * b == c && r * a == c;
    assert (p * q) * a == r * a;
    if p <= 0.0 { NotPositive(p, a); }
  }

  lemma NotPositive(p: real, a: real)
    requires p <= 0.0 && a > 0.0
    ensures p * a <= 0.0
  {
  }

  lemma {:induction false} RescaledIs(v: real, marks: Marks, i: int, j: int)
    requires Positive(marks) && 0 <= i < |marks| && 0 <= j < |marks|
    ensures Rescaled(v, marks[i].1, marks[j].1) == v * Ratio(marks, i, j)
  {
  }

  /** One more window: what it keeps and what it loses multiply to its growth. */
  lemma Regroup(v: real, kept: real, lost: real, growth: real, more: real, jump: real, nowKept: real, nowLost: real, step: real, total: real)
    requires kept * lost == v * growth && nowKept == kept * more && nowLost == lost * jump
    requires jump * more == step && growth * step == total
    ensures nowKept * nowLost == v * total
  {
    assert (kept * more) * (lost * jump) == (kept * lost) * (jump * more);
    assert (v * growth) * step == v * (growth * step);
  }

  /** Kept and lost growth together are the in-sample growth from the bar before the first window on. */
  lemma {:induction false} KeptTimesLost(cfg: Config, strat: Strategy, bars: seq<Bar>, ws: seq<Window>, v: real)
    requires |bars| > 0 && SortedBars(bars) && Positive(RunOf(cfg, strat, bars).equity)
    requires Consecutive(bars, ws) && |ws| > 0 && UpTo(bars, ws[0].cut) >= 1
    ensures var full := RunOf(cfg, strat, bars).equity;
            var last := UpTo(bars, ws[|ws| - 1].testEnd) - 1;
            && 0 <= last < |full| && UpTo(bars, ws[0].cut) - 1 <= last
            && WindowGrowth(v, full, bars, cfg, strat, ws) * Lost(cfg, strat, bars, ws)
               == v * Ratio(full, UpTo(bars, ws[0].cut) - 1, last)
  {
    hide RunOf, UpTo, TestEquity, Ratio, WindowGrowth, Lost, Positive, SortedBars, Consecutive;
    var n := |ws| - 1;
    LastOfConsecutive(bars, ws);
    FoldIsFullRun(cfg, strat, bars, ws[n]);
    if n == 0 {
      assert ws[..0] == [];
      NoGrowth(cfg, strat, bars, v, RunOf(cfg, strat, bars).equity);
      RatioToItself(RunOf(cfg, strat, bars).equity, UpTo(bars, ws[0].cut) - 1);
    } else {
      KeptTimesLost(cfg, strat, bars, ws[..n], v);
    }
    OneMoreWindowCompounds(cfg, strat, bars, ws, v, UpTo(bars, ws[0].cut) - 1);
  }

  lemma LastOfConsecutive(bars: seq<Bar>, ws: seq<Window>)
    requires |bars| > 0 && Consecutive(bars, ws) && |ws| > 0
    ensures var n := |ws| - 1;
            && ws[n].cut < ws[n].testEnd && UpTo(bars, ws[n].testEnd) > 0
            && Consecutive(bars, ws[..n])
            && (n > 0 ==> ws[..n][0] == ws[0] && ws[..n][n - 1].testEnd == ws[n].cut)
  {
    hide UpTo;
  }

  lemma OneMoreWindowCompounds(cfg: Config, strat: Strategy, bars: seq<Bar>, ws: seq<Window>, v: real, first: int)
    requires Positive(RunOf(cfg, strat, bars).equity) && |ws| > 0
    requires var w := ws[|ws| - 1]; FoldMarks(cfg, strat, bars, w) && 0 <= first <= UpTo(bars, w.cut) - 1
    requires var full := RunOf(cfg, strat, bars).equity; var before := ws[..|ws| - 1];
             WindowGrowth(v, full, bars, cfg, strat, before) * Lost(cfg, strat, bars, before)
             == v * Ratio(full, first, UpTo(bars, ws[|ws| - 1].cut) - 1)
    ensures var full := RunOf(cfg, strat, bars).equity;
            WindowGrowth(v, full, bars, cfg, strat, ws) * Lost(cfg, strat, bars, ws)
            == v * Ratio(full, first, UpTo(bars, ws[|ws| - 1].testEnd) - 1)
  {
    hide RunOf, UpTo, TestEquity, Ratio, WindowGrowth, Lost, Kept, Jump, Positive;
    var n := |ws| - 1;
    var w, full := ws[n], RunOf(cfg, strat, bars).equity;
    var mid, last := UpTo(bars, w.cut) - 1, UpTo(bars, w.testEnd) - 1;
    OneMoreKept(cfg, strat, bars, ws, v);
    LostIs(cfg, strat, bars, ws);
    JumpTimesKept(cfg, strat, bars, w);
    RatiosChain(full, first, mid, last);
    Regroup(v, WindowGrowth(v, full, bars, cfg, strat, ws[..n]), Lost(cfg, strat, bars, ws[..n]), Ratio(full, first, mid),
            Kept(cfg, strat, bars, w), Jump(cfg, strat, bars, w),
            WindowGrowth(v, full, bars, cfg, strat, ws), Lost(cfg, strat, bars, ws), Ratio(full, mid, last), Ratio(full, first, last));
  }

  /** The growth a window keeps, and the growth into it that it loses. */
  function Kept(cfg: Config, strat: Strategy, bars: seq<Bar>, w: Window): real {
    if Scored(TestEquity(cfg, strat, bars, w))
    then Ratio(RunOf(cfg, strat, bars).equity, UpTo(bars, w.cut), UpTo(bars, w.testEnd) - 1) else 1.0
  }

  function Jump(cfg: Config, strat: Strategy, bars: seq<Bar>, w: Window): real {
    Ratio(RunOf(cfg, strat, bars).equity, UpTo(bars, w.cut) - 1,
          if Scored(TestEquity(cfg, strat, bars, w)) then UpTo(bars, w.cut) else UpTo(bars, w.testEnd) - 1)
  }

  lemma {:induction false} NoGrowth(cfg: Config, strat: Strategy, bars: seq<Bar>, v: real, full: Marks)
    ensures WindowGrowth(v, full, bars, cfg, strat, []) == v && Lost(cfg, strat, bars, []) == 1.0
  {
  }

  lemma {:induction false} RatioToItself(marks: Marks, i: int)
    ensures Ratio(marks, i, i) == 1.0
  {
    if 0 <= i < |marks| && marks[i].1 != 0.0 { QuotientOfItself(marks[i].1); }
  }

  lemma QuotientOfItself(a: real)
    requires a != 0.0
    ensures a / a == 1.0
  {
  }

  lemma LostIs(cfg: Config, strat: Strategy, bars: seq<Bar>, ws: seq<Window>)
    requires |ws| > 0
    ensures Lost(cfg, strat, bars, ws) == Lost(cfg, strat, bars, ws[..|ws| - 1]) * Jump(cfg, strat, bars, ws[|ws| - 1])
  {
    hide RunOf, UpTo, TestEquity, Ratio;
  }

  lemma OneMoreKept(cfg: Config, strat: Strategy, bars: seq<Bar>, ws: seq<Window>, v: real)
    requires Positive(RunOf(cfg, strat, bars).equity) && |ws| > 0
    requires var w := ws[|ws| - 1]; FoldMarks(cfg, strat, bars, w)
    ensures var full := RunOf(cfg, strat, bars).equity; var n := |ws| - 1;
            WindowGrowth(v, full, bars, cfg, strat, ws) == WindowGrowth(v, full, bars, cfg, strat, ws[..n]) * Kept(cfg, strat, bars, ws[n])
  {
    hide RunOf, UpTo, TestEquity, Ratio, Rescaled;
    var n := |ws| - 1;
    var w, full := ws[n], RunOf(cfg, strat, bars).equity;
    if Scored(TestEquity(cfg, strat, bars, w)) {
      RescaledIs(WindowGrowth(v, full, bars, cfg, strat, ws[..n]), full, UpTo(bars, w.cut), UpTo(bars, w.testEnd) - 1);
    }
  }

  /** A fold's marks are a stretch of the full run's, as many as the window has bars. */
  ghost predicate FoldMarks(cfg: Config, strat: Strategy, bars: seq<Bar>, w: Window) {
    && UpTo(bars, w.cut) <= UpTo(bars, w.testEnd) <= |RunOf(cfg, strat, bars).equity|
    && |TestEquity(cfg, strat, bars, w)| == UpTo(bars, w.testEnd) - UpTo(bars, w.cut)
  }

  lemma JumpTimesKept(cfg: Config, strat: Strategy, bars: seq<Bar>, w: Window)
    requires Positive(RunOf(cfg, strat, bars).equity) && UpTo(bars, w.cut) >= 1 && FoldMarks(cfg, strat, bars, w)
    ensures Jump(cfg, strat, bars, w) * Kept(cfg, strat, bars, w)
         == Ratio(RunOf(cfg, strat, bars).equity, UpTo(bars, w.cut) - 1, UpTo(bars, w.testEnd) - 1)
  {
    hide RunOf, UpTo, TestEquity, Ratio;
    var lo, hi := UpTo(bars, w.cut), UpTo(bars, w.testEnd);
    if Scored(TestEquity(cfg, strat, bars, w)) {
      RatiosChain(RunOf(cfg, strat, bars).equity, lo - 1, lo, hi - 1);
    }
  }

  lemma GrowthIff(v: real, kept: real, lost: real, growth: real)
    requires v > 0.0 && growth > 0.0 && kept * lost == v * growth
    ensures kept == v * growth <==> lost == 1.0
  {
    MulPositive(v, growth);
    if kept == v * growth && lost != 1.0 { OneFactor(kept, lost); }
  }

  lemma OneFactor(kept: real, lost: real)
    requires kept > 0.0 && kept * lost == kept
    ensures lost == 1.0
  {
    assert kept * (lost - 1.0) == 0.0;
  }

  /**
   The out-of-sample curve compounds to the in-sample growth since the bar before the first window exactly when
   the in-sample growth that no window carries is nil: the returns into each window's first bar cancel out.
   */
  lemma CurveIsInSampleIff(cfg: Config, strat: Strategy, bars: seq<Bar>, trainDays: int, testDays: int, v: real)
    requires |bars| > 0 && SortedBars(bars) && Positive(RunOf(cfg, strat, bars).equity)
    requires trainDays >= 0 && testDays >= 1 && v > 0.0 && |AllWindows(bars, trainDays, testDays)| > 0
    ensures var ws := AllWindows(bars, trainDays, testDays); var full := RunOf(cfg, strat, bars).equity;
            var first := UpTo(bars, FirstDay(bars) + trainDays) - 1;
            Compound(v, Stitched(cfg, strat, bars, ws)) == v * Ratio(full, first, |bars| - 1) <==> Lost(cfg, strat, bars, ws) == 1.0
  {
    hide RunOf, UpTo, TestEquity, Ratio, WindowGrowth, Lost, Stitched, Compound, AllWindows, Positive, SortedBars, Consecutive, RawDate.Ordinal;
    var ws := AllWindows(bars, trainDays, testDays);
    var full := RunOf(cfg, strat, bars).equity;
    ForwardWindows(bars, trainDays, testDays);
    UpToIs(bars, FirstDay(bars) + trainDays);
    UpToIs(bars, LastDay(bars));
    StitchedCompounds(cfg, strat, bars, ws, v);
    KeptTimesLost(cfg, strat, bars, ws, v);
    var first := UpTo(bars, FirstDay(bars) + trainDays) - 1;
    RatiosChain(full, first, |bars| - 1, |bars| - 1);
    GrowthIff(v, WindowGrowth(v, full, bars, cfg, strat, ws), Lost(cfg, strat, bars, ws), Ratio(full, first, |bars| - 1));
  }
}
