/** A walk-forward check that loses a doubling: the market doubles on the first bar of the second window. */
module WalkForwardExample {
  import opened Wrappers
  import opened RealFacts
  import opened OrderedDict
  import opened Costs
  import opened Calendar
  import opened Engine
  import opened RebalanceTheorems
  import opened Backtest
  import opened BacktestTheorems
  import opened WalkForward
  import opened WalkForwardTheorems

  const COUNT := 84

  /** Twenty-eight sessions in each of three months. */
  function DateOf(i: nat): Date
    requires i < COUNT
  {
    RawDate(2001, 1 + i / 28, 1 + i % 28)
  }

  function PriceOf(i: nat): real {
    if i < 70 then 1.0 else 2.0
  }

  function BarOf(i: nat): Bar
    requires i < COUNT
  {
    Bar(DateOf(i), map["X" := PriceOf(i)], map["X" := PriceOf(i)])
  }

  function Bars(): (bars: seq<Bar>)
    ensures |bars| == COUNT && forall i :: 0 <= i < COUNT ==> bars[i] == BarOf(i)
  {
    seq(COUNT, i requires 0 <= i < COUNT => BarOf(i))
  }

  const NO_COSTS := CostModel(0.0, 0.0, 0.0, 0.0, 0.0, 0.0, 0.0, false, 0.0, 0.0)

  const SETUP := Config(100000.0, KR, {}, None, 0.01, None, NO_COSTS)

  function AllInX(): Decision {
    Decision(Put(EMPTY, "X", 1.0), "")
  }

  /** Everything into X at the end of January, and never a word again. */
  function Decide28(closes: seq<Close>, d: Date): Result<Decision, string> {
    if |closes| == 28 then Ok(AllInX()) else Err("")
  }

  function Once(): Strategy {
    Strategy(Monthly, 0, Decide28)
  }

  // ---------------------------------------------------------------- the calendar

  lemma DayOf(i: nat)
    requires i < COUNT
    ensures DateOf(i).Ordinal() == YearStart(2001) + if i < 28 then i else i + 3
  {
    hide YearStart;
    assert !Leap(2001);
    assert i / 28 == if i < 28 then 0 else if i < 56 then 1 else 2;
    assert i % 28 == i - 28 * (i / 28);
  }

  lemma DayOfBar(i: nat)
    requires i < COUNT
    ensures Bars()[i].date.Ordinal() == YearStart(2001) + if i < 28 then i else i + 3
  {
    hide DateOf, RawDate.Ordinal, YearStart;
    DayOf(i);
  }

  lemma BarsAreSorted()
    ensures SortedBars(Bars())
  {
    hide BarOf, RawDate.Ordinal, YearStart;
    forall i, j | 0 <= i < j < COUNT ensures Bars()[i].date.Ordinal() < Bars()[j].date.Ordinal() {
      DayOfBar(i);
      DayOfBar(j);
    }
  }

  /** The bars up to a day of February or March. */
  lemma CountUpTo(offset: nat)
    requires 31 <= offset <= 86
    ensures UpTo(Bars(), YearStart(2001) + offset) == offset - 2
  {
    hide YearStart, UpTo, RawDate.Ordinal, BarOf, Bars;
    BarsAreSorted();
    var t, n := YearStart(2001) + offset, UpTo(Bars(), YearStart(2001) + offset);
    UpToIs(Bars(), t);
    DayOfBar(offset - 3);
    if offset - 2 < COUNT { DayOfBar(offset - 2); }
  }

  lemma TwoWindows()
    ensures FirstDay(Bars()) == YearStart(2001) && LastDay(Bars()) == YearStart(2001) + 86
    ensures var f := YearStart(2001); AllWindows(Bars(), 58, 14) == [Window(f + 58, f + 72), Window(f + 72, f + 86)]
  {
    hide YearStart, UpTo;
    DayOf(0);
    DayOf(83);
    CountUpTo(72);
    CountUpTo(86);
    var f := YearStart(2001);
    assert Windows(Bars(), f + 86, 14) == [];
    assert Windows(Bars(), f + 72, 14) == [Window(f + 72, f + 86)];
  }

  // ---------------------------------------------------------------- the run

  lemma DecisionsAre(i: nat)
    requires i < COUNT
    ensures DecisionAt(Once(), Bars(), i) == if i == 27 then Some(AllInX()) else None
  {
    hide PeriodEnds, Bars;
    assert |Closes(Bars()[..i + 1])| == i + 1;
    if i == 27 {
      BarsAreSorted();
      PeriodEndIsLocal(Monthly, Index(Bars()), 27);
    }
  }

  const HELD: Dict := RawDict(["X"], map["X" := 100000.0])

  lemma BookIsWorth(px: real)
    ensures Worth(HELD, map["X" := px]) == 100000.0 * px
    ensures Worth(EMPTY, map["X" := px]) == 0.0
  {
    assert WorthOver(HELD.keys[..0], HELD.vals, map["X" := px]) == 0.0;
  }

  /** A book that holds that much of X and nothing else. */
  lemma OnlyHolding(d: Dict)
    requires d.Get("X") == 100000.0 && forall s :: s in d.vals ==> s == "X"
    ensures d == HELD
  {
    assert "X" in d.vals;
    OnlyOne(d.keys, "X");
    assert d.vals == map["X" := 100000.0];
  }

  function Market28(date: Date): Market {
    Market(SETUP, map["X" := 1.0], 100000.0, date, "")
  }

  lemma WantsAll(date: Date)
    ensures Want(Market28(date), AllInX().targets, "X") == 100000.0
  {
    assert RawShares(100000.0, 1.0, 1.0) == 100000.0;
    assert Truncate(100000.0) == 100000;
  }

  lemma BuysAll(date: Date)
    ensures var d := Decide(Market28(date), "X", 100000.0, 0.0, 100000.0);
            d.Some? && d.value.side == Buy && d.value.quantity == 100000.0 && Outlay(d.value) == 100000.0
  {
    hide Outlay, FillOf, FillPrice, AffordableQuantity, TooSmall;
    var m := Market28(date);
    FreeFill(m, "X", Buy, 100000.0);
    assert !TooSmall(m, 1.0, 100000.0, 0.0) by { LargeOrder(date); }
    FillHas(m, "X", 100000.0);
  }

  lemma LargeOrder(date: Date)
    ensures !TooSmall(Market28(date), 1.0, 100000.0, 0.0)
  {
  }

  lemma FillHas(m: Market, s: Symbol, q: real)
    ensures FillOf(m, s, Buy, q, 1.0).side == Buy && FillOf(m, s, Buy, q, 1.0).quantity == q
  {
    hide CostModel.CostOf;
  }

  /** The decision of January buys 100,000 shares for all the cash. */
  lemma Purchase(date: Date)
    ensures var r := Rebalanced(Market28(date), 100000.0, EMPTY, AllInX().targets);
            r.cash == 0.0 && r.positions == HELD
  {
    hide Want, Decide, OrderByDelta, Desired, Outlay, KeepPositive, Put, RawDict.Get;
    var m, targets, st := Market28(date), AllInX().targets, Opening(100000.0, EMPTY);
    var desired := Desired(m, targets, EMPTY);
    var ordered := OrderByDelta(desired, EMPTY);
    PutGet(EMPTY, "X", 1.0);
    PlanFacts(m, EMPTY, targets);
    OnlyOne(ordered, "X");
    WantsAll(date);
    BuysAll(date);
    NothingYet("X");
    assert Orders(m, desired, st, ordered, 0) == st;
    var end := Orders(m, desired, st, ordered, 1);
    assert end == Step(m, desired, st, "X");
    PutGet(EMPTY, "X", 100000.0);
    OnlyHolding(KeepPositive(end.positions));
  }

  lemma NothingYet(s: Symbol)
    ensures EMPTY.Get(s) == 0.0 && s !in EMPTY.vals
  {
  }

  /** The run's variables after n bars. */
  ghost predicate Phase(n: nat, st: RunState) {
    && st.pending == (if n == 28 then Some(AllInX()) else None)
    && st.cash == (if n <= 28 then 100000.0 else 0.0)
    && st.positions == (if n <= 28 then EMPTY else HELD)
    && |st.equity| == n
    && forall i :: 0 <= i < n ==> st.equity[i].1 == 100000.0 * PriceOf(i)
  }

  lemma {:induction false} RunIs(n: nat)
    requires n <= COUNT
    ensures Phase(n, After(SETUP, Once(), Bars(), n))
  {
    hide Phase, BarStep, Bars;
    if n == 0 {
      assert Phase(0, StartOf(SETUP)) by { StartIs(); }
    } else {
      RunIs(n - 1);
      StepIs(n - 1, After(SETUP, Once(), Bars(), n - 1));
    }
  }

  lemma StartIs()
    ensures Phase(0, StartOf(SETUP))
  {
  }

  lemma StepIs(i: nat, st: RunState)
    requires i < COUNT && Phase(i, st)
    ensures Phase(i + 1, BarStep(SETUP, Once(), Bars(), i, st))
  {
    hide DecisionAt, Rebalanced, Worth, Bars, TradeCost.Plus, AllInX;
    DecisionsAre(i);
    BookIsWorth(PriceOf(i));
    if i == 28 { Purchase(DateOf(28)); NoReason(); }
  }

  lemma NoReason()
    ensures AllInX().reason == ""
  {
  }

  // ---------------------------------------------------------------- what is lost

  /**
   In sample the account doubles after the first cut; the out-of-sample curve ends where it began, because the
   doubling falls on the first bar of the second window.
   */
  lemma DoublingIsLost()
    ensures SortedBars(Bars()) && Positive(RunOf(SETUP, Once(), Bars()).equity)
    ensures var full := RunOf(SETUP, Once(), Bars()).equity; var ws := AllWindows(Bars(), 58, 14);
            && |full| == COUNT && |ws| == 2
            && Ratio(full, UpTo(Bars(), FirstDay(Bars()) + 58) - 1, COUNT - 1) == 2.0
            && Compound(100000.0, Stitched(SETUP, Once(), Bars(), ws)) == 100000.0
  {
    hide After, UpTo, Bars, TestEquity, YearStart, Stitched, Compound, AllWindows;
    var full := RunOf(SETUP, Once(), Bars()).equity;
    RunIs(COUNT);
    BarsAreSorted();
    TwoWindows();
    CountUpTo(58);
    CountUpTo(72);
    CountUpTo(86);
    StitchedCompounds(SETUP, Once(), Bars(), AllWindows(Bars(), 58, 14), 100000.0);
    FlatWindows(full);
  }

  lemma {:induction false} FlatWindows(full: Marks)
    requires |full| == COUNT && forall i :: 0 <= i < COUNT ==> full[i].1 == 100000.0 * PriceOf(i)
    ensures WindowGrowth(100000.0, full, Bars(), SETUP, Once(), AllWindows(Bars(), 58, 14)) == 100000.0
  {
    hide UpTo, Bars, TestEquity, YearStart, AllWindows, Rescaled;
    TwoWindows();
    CountUpTo(58);
    CountUpTo(72);
    CountUpTo(86);
    var f := YearStart(2001);
    var first, second := Window(f + 58, f + 72), Window(f + 72, f + 86);
    Unscaled(100000.0, 100000.0);
    Unscaled(100000.0, 200000.0);
    assert [first, second][..1] == [first] && [first][..0] == [];
    assert WindowGrowth(100000.0, full, Bars(), SETUP, Once(), []) == 100000.0;
    assert WindowGrowth(100000.0, full, Bars(), SETUP, Once(), [first]) == 100000.0;
  }
}
