/**
 The bar-by-bar run of a backtest (src/tqt/backtest/engine.py, `Backtester.run`): yesterday's decision
 fills at today's open, the book is marked at today's close, and then a new decision may be taken.
 */
module Backtest {
  import opened Wrappers
  import opened OrderedDict
  import opened Costs
  import opened Calendar
  import opened Engine

  datatype Bar = Bar(date: Date, opens: Prices, closes: Prices)

  /** What a strategy may look at: dated closes. */
  datatype Close = Close(date: Date, prices: Prices)

  datatype Decision = Decision(targets: Dict, reason: string)

  /** A deterministic strategy: an error result stands for an exception. */
  datatype Strategy = Strategy(cadence: Cadence, warmup: nat, decide: (seq<Close>, Date) -> Result<Decision, string>)

  datatype RunState = RunState(
    cash: real, positions: Dict, fills: seq<Fill>, totalCost: TradeCost,
    equity: seq<(Date, real)>, turnover: seq<(Date, real)>, pending: Option<Decision>)

  function Index(bars: seq<Bar>): seq<Date> {
    seq(|bars|, i requires 0 <= i < |bars| => bars[i].date)
  }

  function Closes(bars: seq<Bar>): seq<Close> {
    seq(|bars|, i requires 0 <= i < |bars| => Close(bars[i].date, bars[i].closes))
  }

  function StartOf(cfg: Config): RunState {
    RunState(cfg.initialCash, EMPTY, [], FREE, [], [], None)
  }

  /** The market a decision is executed in: today's open, sized on equity at that open. */
  function OpenMarket(cfg: Config, bar: Bar, st: RunState, reason: string): Market {
    Market(cfg, bar.opens, Equity(st.cash, st.positions, bar.opens), bar.date, reason)
  }

  function Execute(cfg: Config, bar: Bar, st: RunState): (RunState, real) {
    match st.pending
    case None => (st, 0.0)
    case Some(d) =>
      var r := Rebalanced(OpenMarket(cfg, bar, st, d.reason), st.cash, st.positions, d.targets);
      (st.(cash := r.cash, positions := r.positions, fills := st.fills + r.fills,
           totalCost := st.totalCost.Plus(r.cost), pending := None), r.traded)
  }

  function MarkToMarket(bar: Bar, st: RunState, traded: real): RunState {
    var equity := Equity(st.cash, st.positions, bar.closes);
    st.(equity := st.equity + [(bar.date, equity)],
        turnover := st.turnover + [(bar.date, if equity > 0.0 then traded / equity else 0.0)])
  }

  /** The decision taken on the close of bar i, if any. The last bar takes none: its order could not be filled. */
  function DecisionAt(strat: Strategy, bars: seq<Bar>, i: nat): Option<Decision>
    requires i < |bars|
  {
    if i + 1 >= |bars| || i < strat.warmup || bars[i].date !in PeriodEnds(strat.cadence, Index(bars)) then None
    else
      match strat.decide(Closes(bars[..i + 1]), bars[i].date)
      case Err(_) => None
      case Ok(d) => if |d.targets.keys| > 0 then Some(d) else None
  }

  function BarStep(cfg: Config, strat: Strategy, bars: seq<Bar>, i: nat, st: RunState): RunState
    requires i < |bars|
  {
    var (executed, traded) := Execute(cfg, bars[i], st);
    var marked := MarkToMarket(bars[i], executed, traded);
    match DecisionAt(strat, bars, i)
    case None => marked
    case Some(d) => marked.(pending := Some(d))
  }

  /** The run's variables after the first n bars. */
  function After(cfg: Config, strat: Strategy, bars: seq<Bar>, n: nat): RunState
    requires n <= |bars|
  {
    if n == 0 then StartOf(cfg) else BarStep(cfg, strat, bars, n - 1, After(cfg, strat, bars, n - 1))
  }

  function RunOf(cfg: Config, strat: Strategy, bars: seq<Bar>): RunState {
    After(cfg, strat, bars, |bars|)
  }

  /** Backtester.run. */
  method Run(cfg: Config, strat: Strategy, bars: seq<Bar>)
    returns (cash: real, positions: Dict, fills: seq<Fill>, totalCost: TradeCost,
             equityRows: seq<(Date, real)>, turnoverRows: seq<(Date, real)>)
    ensures var r := RunOf(cfg, strat, bars);
            && cash == r.cash && positions == r.positions && fills == r.fills && totalCost == r.totalCost
            && equityRows == r.equity && turnoverRows == r.turnover
  {
    hide Rebalanced, Equity, PeriodEnds, TradeCost.Plus;
    cash, positions, fills, totalCost := cfg.initialCash, EMPTY, [], FREE;
    equityRows, turnoverRows := [], [];
    var pending: Option<Decision> := None;
    var rebalanceDates := PeriodEnds(strat.cadence, Index(bars));

    for i := 0 to |bars|
      invariant RunState(cash, positions, fills, totalCost, equityRows, turnoverRows, pending) == After(cfg, strat, bars, i)
    {
      var bar := bars[i];
      var traded := 0.0;
      if pending.Some? {
        var atOpen := EquityOf(cash, positions, bar.opens);
        var market := Market(cfg, bar.opens, atOpen, bar.date, pending.value.reason);
        var newCash, newPositions, batch, batchCost, batchTraded := Rebalance(market, cash, positions, pending.value.targets);
        cash, positions, traded := newCash, newPositions, batchTraded;
        fills := fills + batch;
        totalCost := totalCost.Plus(batchCost);
        pending := None;
      }

      var equity := EquityOf(cash, positions, bar.closes);
      equityRows := equityRows + [(bar.date, equity)];
      turnoverRows := turnoverRows + [(bar.date, if equity > 0.0 then traded / equity else 0.0)];

      if i + 1 >= |bars| || i < strat.warmup || bar.date !in rebalanceDates {
        continue;
      }
      var answer := strat.decide(Closes(bars[..i + 1]), bar.date);
      if answer.Ok? && |answer.value.targets.keys| > 0 {
        pending := Some(answer.value);
      }
    }
  }
}
