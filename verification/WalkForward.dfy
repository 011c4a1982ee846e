/**
 Walk-forward validation (src/tqt/backtest/validate.py, `walk_forward`). Years become whole days before
 the loop starts; the strategy factory returns a fresh, deterministic strategy for every fold.
 */
module WalkForward {
  import opened Wrappers
  import opened Calendar
  import opened Engine
  import opened Backtest

  const MIN_HISTORY := 60
  const MIN_SCORED := 5

  /** What pandas' pct_change puts in a cell. */
  datatype Change = Num(r: real) | Infinite(up: bool) | NaN

  function PctChange(before: real, after: real): Change {
    if before != 0.0 then Num(after / before - 1.0)
    else if after == 0.0 then NaN else Infinite(after > 0.0)
  }

  type Marks = seq<(Date, real)>
  type Changes = seq<(Date, Change)>

  /** series.pct_change().dropna(): the first mark has no predecessor and is always dropped. */
  function Returns(marks: Marks): Changes {
    if |marks| < 2 then []
    else
      var n := |marks| - 1;
      var c := PctChange(marks[n - 1].1, marks[n].1);
      Returns(marks[..n]) + if c == NaN then [] else [(marks[n].0, c)]
  }

  /** How many bars are dated at or before day t: frame.loc[:t] on a sorted frame. */
  function UpTo(bars: seq<Bar>, t: int): (n: nat)
    ensures n <= |bars|
  {
    if |bars| == 0 then 0
    else if bars[|bars| - 1].date.Ordinal() <= t then |bars|
    else UpTo(bars[..|bars| - 1], t)
  }

  function FirstDay(bars: seq<Bar>): int
    requires |bars| > 0
  {
    bars[0].date.Ordinal()
  }

  function LastDay(bars: seq<Bar>): int
    requires |bars| > 0
  {
    bars[|bars| - 1].date.Ordinal()
  }

  /** A test window: the days after `cut`, up to and including `testEnd`. */
  datatype Window = Window(cut: int, testEnd: int)

  function WindowAt(bars: seq<Bar>, cut: int, testDays: int): Window
    requires |bars| > 0
  {
    Window(cut, if cut + testDays < LastDay(bars) then cut + testDays else LastDay(bars))
  }

  /** Where the fold loop stands: its cut, and whether it has left the loop. */
  datatype FoldLoop = FoldLoop(cut: int, stopped: bool)

  /** The guard and the break of one turn, then the move of the cut. */
  function Turn(bars: seq<Bar>, testDays: int, l: FoldLoop): FoldLoop
    requires |bars| > 0
  {
    var w := WindowAt(bars, l.cut, testDays);
    if l.stopped || l.cut >= LastDay(bars) || UpTo(bars, w.testEnd) < MIN_HISTORY then FoldLoop(l.cut, true)
    else FoldLoop(w.testEnd, false)
  }

  function AfterTurns(bars: seq<Bar>, testDays: int, l: FoldLoop, k: nat): FoldLoop
    requires |bars| > 0
    decreases k
  {
    if k == 0 then l else AfterTurns(bars, testDays, Turn(bars, testDays, l), k - 1)
  }

  /** What the loop needs to end: windows that last some days, forwards or backwards, or no first window at all. */
  predicate Ends(bars: seq<Bar>, cut: int, testDays: int)
    requires |bars| > 0
  {
    testDays != 0 || cut >= LastDay(bars) || UpTo(bars, cut) < MIN_HISTORY
  }

  lemma DaysAreNotNegative(d: Date)
    ensures d.Ordinal() >= 0
  {
    YearsApart(1, d.year);
    assert YearStart(1) == 0;
  }

  /** Only a day of the calendar has history behind it. */
  lemma {:induction false} HistoryNeedsTime(bars: seq<Bar>, t: int)
    ensures UpTo(bars, t) > 0 ==> t >= 0 && bars[UpTo(bars, t) - 1].date.Ordinal() <= t
  {
    if |bars| > 0 {
      if bars[|bars| - 1].date.Ordinal() <= t {
        DaysAreNotNegative(bars[|bars| - 1].date);
      } else {
        HistoryNeedsTime(bars[..|bars| - 1], t);
      }
    }
  }

  /** The windows the loop visits from a given cut on. */
  function Windows(bars: seq<Bar>, cut: int, testDays: int): seq<Window>
    requires |bars| > 0 && Ends(bars, cut, testDays)
    decreases if testDays > 0 then LastDay(bars) - cut else cut
  {
    var w := WindowAt(bars, cut, testDays);
    if cut >= LastDay(bars) || UpTo(bars, w.testEnd) < MIN_HISTORY then []
    else
      HistoryNeedsTime(bars, w.testEnd);
      [w] + Windows(bars, w.testEnd, testDays)
  }

  function MarksAfter(marks: Marks, t: int): Marks {
    if |marks| == 0 || marks[|marks| - 1].0.Ordinal() <= t then []
    else MarksAfter(marks[..|marks| - 1], t) + [marks[|marks| - 1]]
  }

  /** The scored equity of one window: the run on the bars up to testEnd, after the cut. */
  function TestEquity(cfg: Config, strat: Strategy, bars: seq<Bar>, w: Window): Marks {
    MarksAfter(RunOf(cfg, strat, bars[..UpTo(bars, w.testEnd)]).equity, w.cut)
  }

  predicate Scored(marks: Marks) {
    |marks| > MIN_SCORED
  }

  function Segment(cfg: Config, strat: Strategy, bars: seq<Bar>, w: Window): Changes {
    if Scored(TestEquity(cfg, strat, bars, w)) then Returns(TestEquity(cfg, strat, bars, w)) else []
  }

  /** pd.concat of the scored segments, in window order. */
  function Stitched(cfg: Config, strat: Strategy, bars: seq<Bar>, ws: seq<Window>): Changes {
    if |ws| == 0 then []
    else Stitched(cfg, strat, bars, ws[..|ws| - 1]) + Segment(cfg, strat, bars, ws[|ws| - 1])
  }

  /** The windows that were scored, in order. */
  function ScoredFolds(cfg: Config, strat: Strategy, bars: seq<Bar>, ws: seq<Window>): seq<Window> {
    if |ws| == 0 then []
    else
      var w := ws[|ws| - 1];
      ScoredFolds(cfg, strat, bars, ws[..|ws| - 1]) + if Scored(TestEquity(cfg, strat, bars, w)) then [w] else []
  }

  /** One fold: run on the history up to the window's end and score what lies after the cut. */
  method ScoreFold(cfg: Config, strat: Strategy, bars: seq<Bar>, w: Window) returns (segment: Changes, scored: bool)
    ensures segment == Segment(cfg, strat, bars, w)
    ensures scored == Scored(TestEquity(cfg, strat, bars, w))
  {
    hide RunOf, UpTo, MarksAfter, Returns;
    var _, _, _, _, equity, _ := Run(cfg, strat, bars[..UpTo(bars, w.testEnd)]);
    var testEq := MarksAfter(equity, w.cut);
    scored := Scored(testEq);
    segment := if scored then Returns(testEq) else [];
  }

  lemma NoWindows(cfg: Config, strat: Strategy, bars: seq<Bar>)
    ensures Stitched(cfg, strat, bars, []) == [] && ScoredFolds(cfg, strat, bars, []) == []
  {
  }

  lemma OneMoreWindow(cfg: Config, strat: Strategy, bars: seq<Bar>, ws: seq<Window>, w: Window)
    ensures Stitched(cfg, strat, bars, ws + [w]) == Stitched(cfg, strat, bars, ws) + Segment(cfg, strat, bars, w)
    ensures ScoredFolds(cfg, strat, bars, ws + [w])
         == ScoredFolds(cfg, strat, bars, ws) + if Scored(TestEquity(cfg, strat, bars, w)) then [w] else []
  {
    hide Segment, TestEquity, Scored;
    assert (ws + [w])[..|ws|] == ws;
  }

  /** Every window of a run, the first one after the training days. */
  function AllWindows(bars: seq<Bar>, trainDays: int, testDays: int): seq<Window>
    requires |bars| > 0 && Ends(bars, FirstDay(bars) + trainDays, testDays)
  {
    Windows(bars, FirstDay(bars) + trainDays, testDays)
  }

  /** The fold loop of walk_forward: `cut` moves window by window until it reaches the last bar or runs short of history. */
  method StitchFolds(cfg: Config, strat: Strategy, bars: seq<Bar>, trainDays: int, testDays: int)
    returns (stitched: Changes, folds: seq<Window>)
    requires |bars| > 0 && Ends(bars, FirstDay(bars) + trainDays, testDays)
    ensures stitched == Stitched(cfg, strat, bars, AllWindows(bars, trainDays, testDays))
    ensures folds == ScoredFolds(cfg, strat, bars, AllWindows(bars, trainDays, testDays))
  {
    hide Segment, TestEquity, Scored, UpTo, Stitched, ScoredFolds;
    stitched, folds := [], [];
    NoWindows(cfg, strat, bars);
    var end := LastDay(bars);
    var cut := FirstDay(bars) + trainDays;
    ghost var all := Windows(bars, cut, testDays);
    ghost var done: seq<Window> := [];
    while cut < end
      invariant Ends(bars, cut, testDays)
      invariant all == done + Windows(bars, cut, testDays)
      invariant stitched == Stitched(cfg, strat, bars, done)
      invariant folds == ScoredFolds(cfg, strat, bars, done)
      decreases if testDays > 0 then end - cut else cut
    {
      var w := WindowAt(bars, cut, testDays);
      if UpTo(bars, w.testEnd) < MIN_HISTORY {
        break;
      }
      HistoryNeedsTime(bars, w.testEnd);
      var segment, scored := ScoreFold(cfg, strat, bars, w);
      if scored {
        folds := folds + [w];
      }
      stitched := stitched + segment;
      OneMoreWindow(cfg, strat, bars, done, w);
      assert all == done + [w] + Windows(bars, w.testEnd, testDays);
      done := done + [w];
      cut := w.testEnd;
    }
    assert done == all;
  }

  /** walk_forward, up to its summaries: an error for no data and for a history without a scored window. */
  method WalkForward(cfg: Config, strat: Strategy, bars: seq<Bar>, trainDays: int, testDays: int)
    returns (r: Result<Changes, string>)
    requires |bars| > 0 ==> Ends(bars, FirstDay(bars) + trainDays, testDays)
    ensures |bars| == 0 ==> r == Err("no data")
    ensures |bars| > 0 ==>
              r == if |ScoredFolds(cfg, strat, bars, AllWindows(bars, trainDays, testDays))| == 0
                   then Err("history too short for the requested train/test split")
                   else Ok(Stitched(cfg, strat, bars, AllWindows(bars, trainDays, testDays)))
  {
    hide Stitched, ScoredFolds, AllWindows;
    if |bars| == 0 {
      return Err("no data");
    }
    var stitched, folds := StitchFolds(cfg, strat, bars, trainDays, testDays);
    if |folds| == 0 {
      return Err("history too short for the requested train/test split");
    }
    return Ok(stitched);
  }
}
