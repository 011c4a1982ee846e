/** The main results about a whole backtest: no lookahead, the ledger replays, no leverage, whole shares. */
module BacktestTheorems {
  import opened Wrappers
  import opened RealFacts
  import opened OrderedDict
  import opened Sorting
  import opened Costs
  import opened Calendar
  import opened Engine
  import opened RebalanceLaws
  import opened RebalanceTheorems
  import opened Backtest

  ghost predicate SortedBars(bars: seq<Bar>) {
    forall i, j :: 0 <= i < j < |bars| ==> bars[i].date.Ordinal() < bars[j].date.Ordinal()
  }

  // ---------------------------------------------------------------- no lookahead

  lemma IndexOfPrefix(bars: seq<Bar>, k: nat)
    requires k <= |bars|
    ensures Index(bars[..k]) == Index(bars)[..k]
  {
  }

  /** A decision with a next bar inside the prefix is the same whether or not later bars exist. */
  lemma DecisionIsLocal(strat: Strategy, bars: seq<Bar>, k: nat, i: nat)
    requires SortedBars(bars) && i + 1 < k <= |bars|
    ensures DecisionAt(strat, bars[..k], i) == DecisionAt(strat, bars, i)
  {
    hide PeriodEnds, Period;
    IndexOfPrefix(bars, k);
    PeriodEndIsLocal(strat.cadence, Index(bars), i);
    PeriodEndIsLocal(strat.cadence, Index(bars[..k]), i);
    assert bars[..k][..i + 1] == bars[..i + 1];
  }

  lemma {:induction false} PrefixAgrees(cfg: Config, strat: Strategy, bars: seq<Bar>, k: nat, i: nat)
    requires SortedBars(bars) && i <= k <= |bars|
    ensures i < k ==> After(cfg, strat, bars[..k], i) == After(cfg, strat, bars, i)
    ensures After(cfg, strat, bars[..k], i).(pending := None) == After(cfg, strat, bars, i).(pending := None)
  {
    hide BarStep;
    if i > 0 {
      PrefixAgrees(cfg, strat, bars, k, i - 1);
      StepAgrees(cfg, strat, bars, k, i - 1, After(cfg, strat, bars, i - 1));
    }
  }

  lemma StepAgrees(cfg: Config, strat: Strategy, bars: seq<Bar>, k: nat, i: nat, st: RunState)
    requires SortedBars(bars) && i < k <= |bars|
    ensures i + 1 < k ==> BarStep(cfg, strat, bars[..k], i, st) == BarStep(cfg, strat, bars, i, st)
    ensures BarStep(cfg, strat, bars[..k], i, st).(pending := None) == BarStep(cfg, strat, bars, i, st).(pending := None)
  {
    hide Execute, MarkToMarket, DecisionAt;
    assert bars[..k][i] == bars[i];
    if i + 1 < k { DecisionIsLocal(strat, bars, k, i); }
  }

  lemma {:induction false} MarksPerBar(cfg: Config, strat: Strategy, bars: seq<Bar>, n: nat)
    requires n <= |bars|
    ensures |After(cfg, strat, bars, n).equity| == |After(cfg, strat, bars, n).turnover| == n
    ensures forall i :: 0 <= i < n ==> After(cfg, strat, bars, n).equity[i].0 == bars[i].date
  {
    hide BarStep;
    if n > 0 {
      MarksPerBar(cfg, strat, bars, n - 1);
      BarMarksOnce(cfg, strat, bars, n - 1, After(cfg, strat, bars, n - 1));
    }
  }

  lemma BarMarksOnce(cfg: Config, strat: Strategy, bars: seq<Bar>, i: nat, st: RunState)
    requires i < |bars|
    ensures var now := BarStep(cfg, strat, bars, i, st);
            && |now.equity| == |st.equity| + 1 && |now.turnover| == |st.turnover| + 1
            && now.equity[..|st.equity|] == st.equity && now.equity[|st.equity|].0 == bars[i].date
  {
    hide Rebalanced, Equity, DecisionAt, TradeCost.Plus;
  }

  lemma {:induction false} BatchIsDated(m: Market, desired: Dict, st: Ledger, ordered: seq<Symbol>, n: nat)
    requires n <= |ordered| && forall f :: f in st.fills ==> f.date == m.date
    ensures forall f :: f in Orders(m, desired, st, ordered, n).fills ==> f.date == m.date
  {
    hide CashAfter, HoldingAfter, FillPrice, TooSmall, Outlay, CostModel.CostOf, AffordableQuantity, RawDict.Valid, RawDict.Get, Put;
    if n > 0 { BatchIsDated(m, desired, st, ordered, n - 1); }
  }

  lemma RebalanceIsDated(m: Market, cash: real, positions: Dict, targets: Dict)
    ensures forall f :: f in Rebalanced(m, cash, positions, targets).fills ==> f.date == m.date
  {
    hide Desired, OrderByDelta;
    var desired := Desired(m, targets, positions);
    var ordered := OrderByDelta(desired, positions);
    BatchIsDated(m, desired, Opening(cash, positions), ordered, |ordered|);
  }

  lemma BarOnlyAppends(cfg: Config, strat: Strategy, bars: seq<Bar>, i: nat, st: RunState)
    requires i < |bars|
    ensures var now := BarStep(cfg, strat, bars, i, st);
            && st.equity <= now.equity && st.turnover <= now.turnover && st.fills <= now.fills
            && forall j :: |st.fills| <= j < |now.fills| ==> now.fills[j].date == bars[i].date
  {
    hide Rebalanced, Equity, DecisionAt, TradeCost.Plus;
    if st.pending.Some? {
      var d := st.pending.value;
      RebalanceIsDated(OpenMarket(cfg, bars[i], st, d.reason), st.cash, st.positions, d.targets);
    }
  }

  ghost predicate DatedFrom(bars: seq<Bar>, k: nat, n: nat, f: Fill) {
    exists i :: k <= i < n && i < |bars| && f.date == bars[i].date
  }

  /** Later bars only append: marks, and fills dated after the bars already seen. */
  lemma {:induction false} RunsOnlyAppend(cfg: Config, strat: Strategy, bars: seq<Bar>, k: nat, n: nat)
    requires k <= n <= |bars|
    ensures var early := After(cfg, strat, bars, k); var late := After(cfg, strat, bars, n);
            && early.equity <= late.equity && early.turnover <= late.turnover && early.fills <= late.fills
            && forall j :: |early.fills| <= j < |late.fills| ==> DatedFrom(bars, k, n, late.fills[j])
    decreases n
  {
    hide BarStep;
    if k < n {
      RunsOnlyAppend(cfg, strat, bars, k, n - 1);
      var early, before, late := After(cfg, strat, bars, k), After(cfg, strat, bars, n - 1), After(cfg, strat, bars, n);
      BarOnlyAppends(cfg, strat, bars, n - 1, before);
      forall j | |early.fills| <= j < |late.fills| ensures DatedFrom(bars, k, n, late.fills[j]) {
        if j < |before.fills| {
          var i :| k <= i < n - 1 && before.fills[j].date == bars[i].date;
        }
      }
    }
  }

  /**
   No lookahead. Running on the first k bars gives exactly the full run's first k equity and turnover
   marks and exactly its fills up to bar k-1: whatever the full run does beyond them is dated later.
   */
  lemma NoLookahead(cfg: Config, strat: Strategy, bars: seq<Bar>, k: nat)
    requires SortedBars(bars) && 0 < k <= |bars|
    ensures var short := RunOf(cfg, strat, bars[..k]); var full := RunOf(cfg, strat, bars);
            && |short.equity| == k && short.equity <= full.equity
            && |short.turnover| == k && short.turnover <= full.turnover
            && short.fills <= full.fills
            && (forall f :: f in full.fills[|short.fills|..] ==> f.date.Ordinal() > bars[k - 1].date.Ordinal())
            && (forall f :: f in short.fills ==> f.date.Ordinal() <= bars[k - 1].date.Ordinal())
  {
    hide After, RawDate.Ordinal;
    PrefixAgrees(cfg, strat, bars, k, k);
    MarksPerBar(cfg, strat, bars[..k], k);
    RunsOnlyAppend(cfg, strat, bars, k, |bars|);
    LaterFillsAreLater(cfg, strat, bars, k);
    EarlyFillsAreEarly(cfg, strat, bars, k);
  }

  lemma LaterFillsAreLater(cfg: Config, strat: Strategy, bars: seq<Bar>, k: nat)
    requires SortedBars(bars) && 0 < k <= |bars|
    ensures var early := After(cfg, strat, bars, k); var full := RunOf(cfg, strat, bars);
            |early.fills| <= |full.fills| &&
            forall f :: f in full.fills[|early.fills|..] ==> f.date.Ordinal() > bars[k - 1].date.Ordinal()
  {
    hide After, RawDate.Ordinal;
    RunsOnlyAppend(cfg, strat, bars, k, |bars|);
    var early, full := After(cfg, strat, bars, k), RunOf(cfg, strat, bars);
    forall f | f in full.fills[|early.fills|..] ensures f.date.Ordinal() > bars[k - 1].date.Ordinal() {
      var j :| |early.fills| <= j < |full.fills| && full.fills[j] == f;
      assert DatedFrom(bars, k, |bars|, full.fills[j]);
    }
  }

  lemma EarlyFillsAreEarly(cfg: Config, strat: Strategy, bars: seq<Bar>, k: nat)
    requires SortedBars(bars) && 0 < k <= |bars|
    ensures forall f :: f in After(cfg, strat, bars, k).fills ==> f.date.Ordinal() <= bars[k - 1].date.Ordinal()
  {
    hide BarStep, RawDate.Ordinal;
    assert After(cfg, strat, bars, 0).fills == [];
    hide After;
    RunsOnlyAppend(cfg, strat, bars, 0, k);
    var early := After(cfg, strat, bars, k);
    forall f | f in early.fills ensures f.date.Ordinal() <= bars[k - 1].date.Ordinal() {
      var j :| 0 <= j < |early.fills| && early.fills[j] == f;
      assert DatedFrom(bars, 0, k, early.fills[j]);
    }
  }

  // ---------------------------------------------------------------- the ledger replays

  lemma {:induction false} CashReplayOfAppend(cash: real, a: seq<Fill>, b: seq<Fill>)
    ensures CashReplay(cash, a + b) == CashReplay(CashReplay(cash, a), b)
  {
    hide CashAfter;
    if |b| == 0 {
      assert a + b == a;
    } else {
      var n := |b| - 1;
      assert (a + b)[..|a + b| - 1] == a + b[..n];
      CashReplayOfAppend(cash, a, b[..n]);
    }
  }

  lemma {:induction false} HoldingReplayOfAppend(have: real, a: seq<Fill>, b: seq<Fill>, s: Symbol)
    ensures HoldingReplay(have, a + b, s) == HoldingReplay(HoldingReplay(have, a, s), b, s)
  {
    hide HoldingAfter;
    if |b| == 0 {
      assert a + b == a;
    } else {
      var n := |b| - 1;
      assert (a + b)[..|a + b| - 1] == a + b[..n];
      HoldingReplayOfAppend(have, a, b[..n], s);
    }
  }

  lemma {:induction false} CostReplayOfAppend(cost: TradeCost, a: seq<Fill>, b: seq<Fill>)
    ensures CostReplay(cost, a + b) == CostReplay(cost, a).Plus(CostReplay(FREE, b))
  {
    if |b| == 0 {
      assert a + b == a;
    } else {
      var n := |b| - 1;
      assert (a + b)[..|a + b| - 1] == a + b[..n];
      CostReplayOfAppend(cost, a, b[..n]);
    }
  }

  /** The ledger agrees with its fills: cash, every holding, and the accumulated cost by component. */
  ghost predicate LedgerReplays(cfg: Config, st: RunState) {
    && st.cash == CashReplay(cfg.initialCash, st.fills)
    && st.totalCost == CostReplay(FREE, st.fills)
    && forall s :: st.positions.Get(s) == HoldingReplay(0.0, st.fills, s) && st.positions.Get(s) >= 0.0
  }

  lemma ExecuteReplays(cfg: Config, bar: Bar, st: RunState)
    requires cfg.Sound() && LedgerReplays(cfg, st)
    ensures LedgerReplays(cfg, Execute(cfg, bar, st).0)
  {
    hide Rebalanced, Equity, Config.Sound, CashReplay, HoldingReplay, CostReplay, TradeCost.Plus, SlippagePaid, Want, Between, SellsThenBuys;
    if st.pending.Some? {
      var d := st.pending.value;
      var m := OpenMarket(cfg, bar, st, d.reason);
      var r := Rebalanced(m, st.cash, st.positions, d.targets);
      RebalanceConserves(m, st.cash, st.positions, d.targets);
      NeverOvershoots(m, st.cash, st.positions, d.targets);
      CashReplayOfAppend(cfg.initialCash, st.fills, r.fills);
      CostReplayOfAppend(FREE, st.fills, r.fills);
      forall s ensures r.positions.Get(s) == HoldingReplay(0.0, st.fills + r.fills, s) {
        HoldingReplayOfAppend(0.0, st.fills, r.fills, s);
      }
    }
  }

  /** At every bar of every run, cash, holdings and total cost are the replay of the fills from the initial cash. */
  lemma {:induction false} RunReplays(cfg: Config, strat: Strategy, bars: seq<Bar>, n: nat)
    requires cfg.Sound() && n <= |bars|
    ensures LedgerReplays(cfg, After(cfg, strat, bars, n))
  {
    hide Execute, DecisionAt, Config.Sound, Equity;
    if n > 0 {
      RunReplays(cfg, strat, bars, n - 1);
      ExecuteReplays(cfg, bars[n - 1], After(cfg, strat, bars, n - 1));
    }
  }

  // ---------------------------------------------------------------- no leverage over a run

  /** Prices are not negative, and every sale that could be made at this open is covered. */
  ghost predicate FairOpen(cfg: Config, bar: Bar) {
    && (forall s :: s in bar.opens ==> bar.opens[s] >= 0.0)
    && SalesCovered(cfg, bar.opens)
  }

  lemma {:induction false} WorthOverIsNonNegative(ks: seq<Symbol>, vals: map<Symbol, real>, prices: Prices)
    requires forall k :: k in ks ==> k in vals && vals[k] >= 0.0
    requires forall s :: s in prices ==> prices[s] >= 0.0
    ensures WorthOver(ks, vals, prices) >= 0.0
  {
    if |ks| > 0 {
      var k := ks[|ks| - 1];
      WorthOverIsNonNegative(ks[..|ks| - 1], vals, prices);
      if k in prices { MulNonNegative(prices[k], vals[k]); }
    }
  }

  lemma WorthIsNonNegative(d: Dict, prices: Prices)
    requires NonNegative(d) && forall s :: s in prices ==> prices[s] >= 0.0
    ensures Worth(d, prices) >= 0.0
  {
    forall k | k in d.keys ensures d.vals[k] >= 0.0 { assert d.Get(k) >= 0.0; }
    WorthOverIsNonNegative(d.keys, d.vals, prices);
  }

  lemma SolventAppend(cash: real, a: seq<Fill>, cash1: real, book1: Dict, b: seq<Fill>)
    requires SolventThroughout(cash, EMPTY, a) && SolventThroughout(cash1, book1, b)
    requires cash1 == CashReplay(cash, a) && forall s :: book1.Get(s) == HoldingReplay(0.0, a, s)
    ensures SolventThroughout(cash, EMPTY, a + b)
  {
    hide CashReplay, HoldingReplay;
    forall j | 0 <= j <= |a + b| ensures SolventAfter(cash, EMPTY, (a + b)[..j]) {
      if j <= |a| {
        assert (a + b)[..j] == a[..j];
      } else {
        var c := b[..j - |a|];
        assert (a + b)[..j] == a + c;
        assert SolventAfter(cash1, book1, c);
        CashReplayOfAppend(cash, a, c);
        forall s ensures HoldingReplay(EMPTY.Get(s), a + c, s) >= 0.0 { HoldingReplayOfAppend(0.0, a, c, s); }
      }
    }
  }

  lemma ExecuteStaysSolvent(cfg: Config, bar: Bar, st: RunState)
    requires cfg.Sound() && FairOpen(cfg, bar) && LedgerReplays(cfg, st)
    requires SolventThroughout(cfg.initialCash, EMPTY, st.fills) && st.cash >= 0.0
    ensures var now := Execute(cfg, bar, st).0;
            SolventThroughout(cfg.initialCash, EMPTY, now.fills) && now.cash >= 0.0
  {
    hide Rebalanced, Config.Sound, CashReplay, HoldingReplay, CostReplay, TradeCost.Plus, Worth, SalesCovered, SolventThroughout;
    if st.pending.Some? {
      var d := st.pending.value;
      var m := OpenMarket(cfg, bar, st, d.reason);
      WorthIsNonNegative(st.positions, bar.opens);
      RebalanceStaysSolvent(m, st.cash, st.positions, d.targets);
      SolventAppend(cfg.initialCash, st.fills, st.cash, st.positions, Rebalanced(m, st.cash, st.positions, d.targets).fills);
    }
  }

  /**
   No leverage in any run: if every open is fair, replaying the fills from the initial cash never
   takes cash or a holding below zero after any fill, and neither is negative at any bar.
   */
  lemma {:induction false} RunStaysSolvent(cfg: Config, strat: Strategy, bars: seq<Bar>, n: nat)
    requires cfg.Sound() && cfg.initialCash >= 0.0 && n <= |bars|
    requires forall i :: 0 <= i < |bars| ==> FairOpen(cfg, bars[i])
    ensures var st := After(cfg, strat, bars, n);
            SolventThroughout(cfg.initialCash, EMPTY, st.fills) && st.cash >= 0.0 && NonNegative(st.positions)
  {
    hide Execute, DecisionAt, Config.Sound, Equity, SolventThroughout, FairOpen, CashReplay, HoldingReplay, CostReplay;
    RunReplays(cfg, strat, bars, n);
    if n == 0 {
      NothingIsSolvent(cfg.initialCash, EMPTY);
    } else {
      RunStaysSolvent(cfg, strat, bars, n - 1);
      RunReplays(cfg, strat, bars, n - 1);
      ExecuteStaysSolvent(cfg, bars[n - 1], After(cfg, strat, bars, n - 1));
    }
  }

  // ---------------------------------------------------------------- whole shares over a run

  /** Where shares are not divisible, no run ever holds or trades a fraction of one. */
  lemma {:induction false} RunStaysWhole(cfg: Config, strat: Strategy, bars: seq<Bar>, n: nat)
    requires cfg.Sound() && !cfg.Fractional() && n <= |bars|
    ensures WholeHoldings(After(cfg, strat, bars, n).positions)
    ensures forall f :: f in After(cfg, strat, bars, n).fills ==> IsWhole(f.quantity)
  {
    hide Rebalanced, DecisionAt, Config.Sound, Equity, IsWhole, TradeCost.Plus;
    WholeOfInt(0);
    if n > 0 {
      RunStaysWhole(cfg, strat, bars, n - 1);
      var st := After(cfg, strat, bars, n - 1);
      if st.pending.Some? {
        var d := st.pending.value;
        RebalanceStaysWhole(OpenMarket(cfg, bars[n - 1], st, d.reason), st.cash, st.positions, d.targets);
      }
    }
  }

  // ---------------------------------------------------------------- where solvency needs the cover

  const DEFAULT_COSTS := CostModel(0.00015, 0.001, 0.0015, 0.0, 0.0000278, 0.000166, 0.001, true, 10.0, 5.0)

  const US_DEFAULTS := Config(0.0, US, {}, None, 0.01, None, DEFAULT_COSTS)

  /** A holding of 50,000 shares at 0.0001 dollars: large enough to trade, too cheap to pay the fee. */
  const PENNY_MARKET := Market(US_DEFAULTS, map["X" := 0.0001], 5.0, RawDate(2024, 1, 1), "")

  /** With the shipped rates a liquidation can leave the account owing money. */
  lemma UncoveredSaleBorrows(book: Dict)
    requires book == RawDict(["X"], map["X" := 50000.0])
    ensures US_DEFAULTS.Sound() && !SaleCovered(US_DEFAULTS, "X", 0.0001)
    ensures Equity(0.0, book, PENNY_MARKET.prices) == PENNY_MARKET.equity
    ensures Rebalanced(PENNY_MARKET, 0.0, book, EMPTY).cash < 0.0
  {
    hide Decide, Desired, OrderByDelta, Want, Outlay, Proceeds, SaleCovered, KeepPositive;
    PennyIsUncovered();
    PennyEquity(book);
    var desired := Desired(PENNY_MARKET, EMPTY, book);
    var ordered := OrderByDelta(desired, book);
    PlanFacts(PENNY_MARKET, book, EMPTY);
    assert forall s :: s in ordered <==> s == "X";
    OnlyOne(ordered, "X");
    UntargetedIsUnwanted(PENNY_MARKET, EMPTY, "X");
    PennySale();
    var st := Opening(0.0, book);
    assert Orders(PENNY_MARKET, desired, st, ordered, 0) == st;
    assert Orders(PENNY_MARKET, desired, st, ordered, 1) == Step(PENNY_MARKET, desired, st, "X");
  }

  lemma OnlyOne(ss: seq<Symbol>, s: Symbol)
    requires Distinct(ss) && forall x :: x in ss <==> x == s
    ensures ss == [s]
  {
    assert s in ss;
    var last := |ss| - 1;
    assert ss[last] in ss && ss[0] in ss;
    assert ss[last] == ss[0] == s;
  }

  lemma PennyIsUncovered()
    ensures US_DEFAULTS.Sound() && !SaleCovered(US_DEFAULTS, "X", 0.0001)
  {
  }

  lemma PennyEquity(book: Dict)
    requires book == RawDict(["X"], map["X" := 50000.0])
    ensures Equity(0.0, book, PENNY_MARKET.prices) == PENNY_MARKET.equity
  {
    assert WorthOver(book.keys[..0], book.vals, PENNY_MARKET.prices) == 0.0;
  }

  lemma PennySale()
    ensures Decide(PENNY_MARKET, "X", 0.0, 50000.0, 0.0).Some?
    ensures var f := Decide(PENNY_MARKET, "X", 0.0, 50000.0, 0.0).value; f.side == Sell && Proceeds(f) < 0.0
  {
  }
}
