/** What a run records, told from its fills alone: the equity marks, the turnover, the decisions and the batches. */
module MarkTheorems {
  import opened Wrappers
  import opened OrderedDict
  import opened Costs
  import opened Calendar
  import opened Engine
  import opened RebalanceLaws
  import opened Backtest
  import opened BacktestTheorems
  import opened FillTheorems

  // ---------------------------------------------------------------- fills by date

  function FillsUpTo(fills: seq<Fill>, t: int): seq<Fill> {
    if |fills| == 0 then []
    else
      var f := fills[|fills| - 1];
      FillsUpTo(fills[..|fills| - 1], t) + if f.date.Ordinal() <= t then [f] else []
  }

  function FillsOn(fills: seq<Fill>, t: int): seq<Fill> {
    if |fills| == 0 then []
    else
      var f := fills[|fills| - 1];
      FillsOn(fills[..|fills| - 1], t) + if f.date.Ordinal() == t then [f] else []
  }

  /** Early fills dated up to t, then late ones dated after it. */
  lemma {:induction false} UpToSplits(early: seq<Fill>, late: seq<Fill>, t: int)
    requires (forall f :: f in early ==> f.date.Ordinal() <= t) && forall f :: f in late ==> f.date.Ordinal() > t
    ensures FillsUpTo(early + late, t) == early
  {
    hide RawDate.Ordinal;
    var all := early + late;
    if |late| > 0 {
      assert all[..|all| - 1] == early + late[..|late| - 1];
      UpToSplits(early, late[..|late| - 1], t);
    } else if |early| > 0 {
      assert all == early && all[..|all| - 1] == early[..|early| - 1] + [];
      UpToSplits(early[..|early| - 1], [], t);
      assert early == early[..|early| - 1] + [early[|early| - 1]];
    }
  }

  /** Fills dated before t, on t, and after t. */
  lemma {:induction false} OnSplits(before: seq<Fill>, on: seq<Fill>, after: seq<Fill>, t: int)
    requires (forall f :: f in before ==> f.date.Ordinal() < t) && (forall f :: f in after ==> f.date.Ordinal() > t)
    requires forall f :: f in on ==> f.date.Ordinal() == t
    ensures FillsOn(before + on + after, t) == on
  {
    hide RawDate.Ordinal;
    var all := before + on + after;
    if |after| > 0 {
      assert all[..|all| - 1] == before + on + after[..|after| - 1];
      OnSplits(before, on, after[..|after| - 1], t);
    } else if |on| > 0 {
      assert all[..|all| - 1] == before + on[..|on| - 1] + [];
      OnSplits(before, on[..|on| - 1], [], t);
      assert on == on[..|on| - 1] + [on[|on| - 1]];
    } else if |before| > 0 {
      assert all[..|all| - 1] == before[..|before| - 1] + [] + [];
      OnSplits(before[..|before| - 1], [], [], t);
    }
  }

  // ---------------------------------------------------------------- what the fills left is worth

  /** What the shares bought and not sold again are worth at these prices; a symbol without a price counts nothing. */
  function HeldValue(fills: seq<Fill>, prices: Prices): real {
    if |fills| == 0 then 0.0
    else
      var f := fills[|fills| - 1];
      var price := if f.symbol in prices then prices[f.symbol] else 0.0;
      HeldValue(fills[..|fills| - 1], prices) + (if f.side == Buy then f.quantity else -f.quantity) * price
  }

  lemma {:induction false} NothingHeldIsWorthNothing(ks: seq<Symbol>, vals: map<Symbol, real>, prices: Prices)
    requires forall k :: k in ks ==> k in vals && vals[k] == 0.0
    ensures WorthOver(ks, vals, prices) == 0.0
  {
    if |ks| > 0 {
      NothingHeldIsWorthNothing(ks[..|ks| - 1], vals, prices);
      NothingIsWorthNothing(prices, ks[|ks| - 1]);
    }
  }

  /** A book that the fills account for is worth what the fills left. */
  lemma {:induction false} BookIsHeldValue(book: Dict, fills: seq<Fill>, prices: Prices)
    requires forall s :: book.Get(s) == HoldingReplay(0.0, fills, s)
    ensures Worth(book, prices) == HeldValue(fills, prices)
    decreases |fills|
  {
    hide HoldingAfter, Put, Mark;
    if |fills| == 0 {
      forall k | k in book.keys ensures book.vals[k] == 0.0 { assert book.Get(k) == 0.0; }
      NothingHeldIsWorthNothing(book.keys, book.vals, prices);
    } else {
      var before, f := fills[..|fills| - 1], fills[|fills| - 1];
      var had := HoldingReplay(0.0, before, f.symbol);
      var earlier := Put(book, f.symbol, had);
      PutGet(book, f.symbol, had);
      BookIsHeldValue(earlier, before, prices);
      WorthOfPut(book, prices, f.symbol, had);
      OneFillsWorth(prices, f, had);
    }
  }

  lemma OneFillsWorth(prices: Prices, f: Fill, had: real)
    ensures Mark(prices, f.symbol, HoldingAfter(had, f)) - Mark(prices, f.symbol, had)
         == (if f.side == Buy then f.quantity else -f.quantity) * (if f.symbol in prices then prices[f.symbol] else 0.0)
  {
    if f.symbol in prices {
      var p := prices[f.symbol];
      assert p * (had + f.quantity) == p * had + f.quantity * p;
      assert p * (had - f.quantity) == p * had + (-f.quantity) * p;
    }
  }

  // ---------------------------------------------------------------- the marks

  /** The mark of one bar: the date, and what the account is worth at the bar's close. */
  lemma MarkOfBar(cfg: Config, strat: Strategy, bars: seq<Bar>, i: nat)
    requires cfg.Sound() && i < |bars|
    ensures var now := After(cfg, strat, bars, i + 1);
            && |now.equity| == i + 1
            && now.equity[i] == (bars[i].date, CashReplay(cfg.initialCash, now.fills) + HeldValue(now.fills, bars[i].closes))
  {
    hide Execute, DecisionAt, Config.Sound, CashReplay, HoldingReplay, CostReplay, HeldValue, Worth;
    MarksPerBar(cfg, strat, bars, i);
    RunReplays(cfg, strat, bars, i + 1);
    var now := After(cfg, strat, bars, i + 1);
    ExecuteKeepsMarks(cfg, bars[i], After(cfg, strat, bars, i));
    BookIsHeldValue(now.positions, now.fills, bars[i].closes);
  }

  lemma ExecuteKeepsMarks(cfg: Config, bar: Bar, st: RunState)
    ensures Execute(cfg, bar, st).0.equity == st.equity && Execute(cfg, bar, st).0.turnover == st.turnover
  {
    hide Rebalanced, TradeCost.Plus;
  }

  /** The fills of a whole run that are dated up to bar i are those made by then. */
  lemma FillsByBar(cfg: Config, strat: Strategy, bars: seq<Bar>, i: nat)
    requires SortedBars(bars) && i < |bars|
    ensures FillsUpTo(RunOf(cfg, strat, bars).fills, bars[i].date.Ordinal()) == After(cfg, strat, bars, i + 1).fills
  {
    hide After, RawDate.Ordinal;
    var early, full := After(cfg, strat, bars, i + 1).fills, RunOf(cfg, strat, bars).fills;
    RunsOnlyAppend(cfg, strat, bars, i + 1, |bars|);
    LaterFillsAreLater(cfg, strat, bars, i + 1);
    EarlyFillsAreEarly(cfg, strat, bars, i + 1);
    assert full == early + full[|early|..];
    UpToSplits(early, full[|early|..], bars[i].date.Ordinal());
  }

  /**
   Every equity mark of every run is what the fills dated up to its bar made of the initial cash, plus what the
   shares they left are worth at that bar's closes.
   */
  lemma MarksAreTrue(cfg: Config, strat: Strategy, bars: seq<Bar>, i: nat)
    requires cfg.Sound() && SortedBars(bars) && i < |bars|
    ensures var run := RunOf(cfg, strat, bars); var past := FillsUpTo(run.fills, bars[i].date.Ordinal());
            && |run.equity| == |bars| && run.equity[i].0 == bars[i].date
            && run.equity[i].1 == CashReplay(cfg.initialCash, past) + HeldValue(past, bars[i].closes)
  {
    hide After, Config.Sound, CashReplay, HeldValue;
    MarksPerBar(cfg, strat, bars, |bars|);
    MarkOfBar(cfg, strat, bars, i);
    RunsOnlyAppend(cfg, strat, bars, i + 1, |bars|);
    FillsByBar(cfg, strat, bars, i);
  }

  // ---------------------------------------------------------------- the decisions

  /** What a strategy may look at: so many dated closes, and nothing else. */
  ghost predicate IsHistory(cs: seq<Close>, bars: seq<Bar>, n: nat) {
    |cs| == n <= |bars| && forall j :: 0 <= j < n ==> cs[j].date == bars[j].date && cs[j].prices == bars[j].closes
  }

  /**
   When a decision is taken and on what: on the last session of a period that is past the warm-up and has a next
   bar, from the closes up to and including that session, and only a decision that names targets counts.
   */
  lemma DecisionIs(strat: Strategy, bars: seq<Bar>, i: nat, cs: seq<Close>)
    requires SortedBars(bars) && i < |bars| && IsHistory(cs, bars, i + 1)
    ensures var answer := strat.decide(cs, bars[i].date);
            var due := i + 1 < |bars| && i >= strat.warmup && Period(strat.cadence, bars[i].date) != Period(strat.cadence, bars[i + 1].date);
            DecisionAt(strat, bars, i) == if due && answer.Ok? && |answer.value.targets.keys| > 0 then Some(answer.value) else None
  {
    hide PeriodEnds, Period, RawDate.Ordinal;
    assert cs == Closes(bars[..i + 1]);
    if i + 1 < |bars| { PeriodEndIsLocal(strat.cadence, Index(bars), i); }
  }

  // ---------------------------------------------------------------- the batches

  /** What bar i trades, after the run's first i bars. */
  function BatchOf(cfg: Config, bar: Bar, st: RunState): seq<Fill> {
    match st.pending
    case None => []
    case Some(d) => Rebalanced(OpenMarket(cfg, bar, st, d.reason), st.cash, st.positions, d.targets).fills
  }

  lemma StepTrades(cfg: Config, strat: Strategy, bars: seq<Bar>, i: nat, st: RunState)
    requires cfg.Sound() && i < |bars|
    ensures var now := BarStep(cfg, strat, bars, i, st); var batch := BatchOf(cfg, bars[i], st);
            && now.fills == st.fills + batch
            && (forall f :: f in batch ==> f.date == bars[i].date)
            && now.pending == (match DecisionAt(strat, bars, i) case None => Execute(cfg, bars[i], st).0.pending case Some(d) => Some(d))
            && now.equity == st.equity + [now.equity[|st.equity|]]
            && now.turnover == st.turnover + [(bars[i].date, var mark := now.equity[|st.equity|].1; if mark > 0.0 then Notional(batch) / mark else 0.0)]
  {
    hide Rebalanced, Equity, DecisionAt, TradeCost.Plus, Notional, Config.Sound;
    if st.pending.Some? {
      var d := st.pending.value;
      var m := OpenMarket(cfg, bars[i], st, d.reason);
      RebalanceIsDated(m, st.cash, st.positions, d.targets);
      BatchFills(m, st.cash, st.positions, d.targets);
    } else {
      NothingTraded();
    }
  }

  lemma NothingTraded()
    ensures Notional([]) == 0.0
  {
  }

  /** The fills of a whole run dated on bar i are that bar's batch. */
  lemma FillsOfBar(cfg: Config, strat: Strategy, bars: seq<Bar>, i: nat)
    requires cfg.Sound() && SortedBars(bars) && i < |bars|
    ensures FillsOn(RunOf(cfg, strat, bars).fills, bars[i].date.Ordinal()) == BatchOf(cfg, bars[i], After(cfg, strat, bars, i))
  {
    hide BarStep, BatchOf, RawDate.Ordinal, Config.Sound;
    var st := After(cfg, strat, bars, i);
    var batch, t := BatchOf(cfg, bars[i], st), bars[i].date.Ordinal();
    StepTrades(cfg, strat, bars, i, st);
    assert After(cfg, strat, bars, i + 1).fills == st.fills + batch;
    hide After;
    var full := RunOf(cfg, strat, bars).fills;
    RunsOnlyAppend(cfg, strat, bars, i + 1, |bars|);
    LaterFillsAreLater(cfg, strat, bars, i + 1);
    if i > 0 { EarlyFillsAreEarly(cfg, strat, bars, i); } else { NoFillsAtFirst(cfg, strat, bars); }
    var later := full[|st.fills + batch|..];
    assert full == st.fills + batch + later;
    OnSplits(st.fills, batch, later, t);
  }

  lemma NoFillsAtFirst(cfg: Config, strat: Strategy, bars: seq<Bar>)
    ensures After(cfg, strat, bars, 0).fills == [] && After(cfg, strat, bars, 0).pending == None
  {
  }

  /** The turnover of every bar is what the bar's own fills traded over the bar's mark, or 0 where that is not positive. */
  lemma TurnoverIsTrue(cfg: Config, strat: Strategy, bars: seq<Bar>, i: nat)
    requires cfg.Sound() && SortedBars(bars) && i < |bars|
    ensures var run := RunOf(cfg, strat, bars); var mine := FillsOn(run.fills, bars[i].date.Ordinal());
            && |run.equity| == |run.turnover| == |bars| && run.turnover[i].0 == bars[i].date
            && run.turnover[i].1 == if run.equity[i].1 > 0.0 then Notional(mine) / run.equity[i].1 else 0.0
  {
    hide BarStep, BatchOf, RawDate.Ordinal, Config.Sound, Notional;
    MarksPerBar(cfg, strat, bars, i);
    MarksPerBar(cfg, strat, bars, |bars|);
    var st := After(cfg, strat, bars, i);
    StepTrades(cfg, strat, bars, i, st);
    assert After(cfg, strat, bars, i + 1) == BarStep(cfg, strat, bars, i, st);
    hide After;
    FillsOfBar(cfg, strat, bars, i);
    RunsOnlyAppend(cfg, strat, bars, i + 1, |bars|);
  }

  /** A decision waits for exactly one bar. */
  lemma PendingIs(cfg: Config, strat: Strategy, bars: seq<Bar>, i: nat)
    requires cfg.Sound() && i < |bars|
    ensures After(cfg, strat, bars, i).pending == if i == 0 then None else DecisionAt(strat, bars, i - 1)
  {
    hide DecisionAt, Config.Sound, Rebalanced, Equity, TradeCost.Plus;
  }

  /**
   What every bar trades: nothing unless the bar before it took a decision, and else that decision's targets, at
   this bar's opens, from the book that the fills so far left, on the equity of that book at the opens.
   */
  lemma BatchesAreTrue(cfg: Config, strat: Strategy, bars: seq<Bar>, i: nat, book: Dict)
    requires cfg.Sound() && SortedBars(bars) && i < |bars|
    requires book == After(cfg, strat, bars, i).positions
    ensures var fills := RunOf(cfg, strat, bars).fills;
            var mine := FillsOn(fills, bars[i].date.Ordinal());
            var past := if i == 0 then [] else FillsUpTo(fills, bars[i - 1].date.Ordinal());
            var cash := CashReplay(cfg.initialCash, past);
            && (forall s :: book.Get(s) == HoldingReplay(0.0, past, s))
            && mine == match (if i == 0 then None else DecisionAt(strat, bars, i - 1))
                       case None => []
                       case Some(d) =>
                         Rebalanced(Market(cfg, bars[i].opens, cash + HeldValue(past, bars[i].opens), bars[i].date, d.reason),
                                    cash, book, d.targets).fills
  {
    hide DecisionAt, Config.Sound, Rebalanced, After, RawDate.Ordinal, CashReplay, HoldingReplay, CostReplay, HeldValue, Worth;
    FillsOfBar(cfg, strat, bars, i);
    PendingIs(cfg, strat, bars, i);
    RunReplays(cfg, strat, bars, i);
    if i == 0 { NoFillsAtFirst(cfg, strat, bars); } else { FillsByBar(cfg, strat, bars, i - 1); }
    var st := After(cfg, strat, bars, i);
    BookIsHeldValue(st.positions, st.fills, bars[i].opens);
  }

  lemma {:induction false} InFillsOn(fills: seq<Fill>, f: Fill, t: int)
    requires f in fills && f.date.Ordinal() == t
    ensures f in FillsOn(fills, t)
  {
    hide RawDate.Ordinal;
    if fills[|fills| - 1] != f { InFillsOn(fills[..|fills| - 1], f, t); }
  }

  /** Every fill of every run executes the decision of the bar before, at the opens of its own bar, and pays its way. */
  lemma RunFillsPayTheirWay(cfg: Config, strat: Strategy, bars: seq<Bar>, f: Fill) returns (i: nat)
    requires cfg.Sound() && SortedBars(bars) && f in RunOf(cfg, strat, bars).fills
    ensures 0 < i < |bars| && f.date == bars[i].date && PaysItsWay(cfg, bars[i].opens, f)
    ensures DecisionAt(strat, bars, i - 1).Some? && DecisionAt(strat, bars, i - 1).value.reason == f.reason
  {
    hide DecisionAt, Config.Sound, Rebalanced, After, RawDate.Ordinal, CashReplay, HoldingReplay, HeldValue, PaysItsWay, RawDict.Get, FillsOn, FillsUpTo;
    var fills := RunOf(cfg, strat, bars).fills;
    RunsOnlyAppend(cfg, strat, bars, 0, |bars|);
    NoFillsAtFirst(cfg, strat, bars);
    var k :| 0 <= k < |fills| && fills[k] == f;
    assert DatedFrom(bars, 0, |bars|, fills[k]);
    i :| 0 <= i < |bars| && f.date == bars[i].date;
    InFillsOn(fills, f, bars[i].date.Ordinal());
    BatchesAreTrue(cfg, strat, bars, i, After(cfg, strat, bars, i).positions);
    var past := if i == 0 then [] else FillsUpTo(fills, bars[i - 1].date.Ordinal());
    var cash, d := CashReplay(cfg.initialCash, past), DecisionAt(strat, bars, i - 1).value;
    FillsPayTheirWay(Market(cfg, bars[i].opens, cash + HeldValue(past, bars[i].opens), bars[i].date, d.reason),
                     cash, After(cfg, strat, bars, i).positions, d.targets, f);
  }
}
