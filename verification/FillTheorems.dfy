/** What every fill of a backtest pays, in the configuration's own figures: slippage, commission, tax, fees and spread. */
module FillTheorems {
  import opened RealFacts
  import opened OrderedDict
  import opened Costs
  import opened Engine
  import opened RebalanceLaws
  import opened RebalanceTheorems
  import opened TrackingTheorems

  // ---------------------------------------------------------------- one fill

  /** A purchase is above, and a sale below, its reference by exactly so many basis points of it. */
  ghost predicate PaysSlippage(f: Fill, ref: real, bps: real) {
    (f.price - ref) * 10000.0 == (if f.side == Buy then bps else -bps) * ref
  }

  /** The slippage and the charges of the configuration's country, at the prices a fill refers to. */
  ghost predicate PaysItsWay(cfg: Config, prices: Prices, f: Fill) {
    && f.symbol in prices && f.quantity > 0.0 && f.price > 0.0
    && match cfg.country
       case KR =>
         && PaysSlippage(f, prices[f.symbol], cfg.costs.slippageBpsKr)
         && ChargesKr(cfg.costs, f.side, f.price * f.quantity, f.symbol in cfg.etfSymbols, false, f.cost)
       case US =>
         && PaysSlippage(f, prices[f.symbol], cfg.costs.slippageBpsUs)
         && ChargesUs(cfg.costs, f.side, f.price * f.quantity, f.quantity, false, f.cost)
  }

  /** A fill of this market, as it was decided. */
  ghost predicate FromMarket(m: Market, f: Fill) {
    && Tradable(m.prices, f.symbol) && f.quantity > 0.0
    && f == FillOf(m, f.symbol, f.side, f.quantity, FillPrice(m.cfg, f.side, m.prices[f.symbol]))
  }

  lemma FillPays(m: Market, f: Fill)
    requires m.cfg.Sound() && FromMarket(m, f)
    ensures f.date == m.date && f.reason == m.reason && PaysItsWay(m.cfg, m.prices, f)
  {
    hide FillPrice, CostModel.CostOn, Config.Sound;
    var ref, t, isEtf := m.prices[f.symbol], TermsOf(m.cfg), f.symbol in m.cfg.etfSymbols;
    FillPriceIs(m.cfg, f.side, ref);
    PriceIsPositive(m.cfg, f.side, ref);
    SlippedPays(f, t, ref);
    var n := f.price * f.quantity;
    MulPositive(f.price, f.quantity);
    CostOfIs(m.cfg.costs, f.side, m.cfg.country, f.price, f.quantity, n, isEtf);
    ChargesAre(m.cfg.costs, f.side, m.cfg.country, n, f.quantity, isEtf, false);
  }

  lemma SlippedPays(f: Fill, t: Terms, ref: real)
    requires f.price == Slipped(t, f.side, ref)
    ensures PaysSlippage(f, ref, t.bps)
  {
    assert ref * t.bps / 10000.0 * 10000.0 == ref * t.bps;
  }

  // ---------------------------------------------------------------- a whole batch

  /** What was traded, at the fills' own prices. */
  function Notional(fills: seq<Fill>): real {
    if |fills| == 0 then 0.0
    else Notional(fills[..|fills| - 1]) + fills[|fills| - 1].price * fills[|fills| - 1].quantity
  }

  /** What was traded, at the reference prices. */
  function Referred(prices: Prices, fills: seq<Fill>): real {
    if |fills| == 0 then 0.0
    else
      var f := fills[|fills| - 1];
      Referred(prices, fills[..|fills| - 1]) + if f.symbol in prices then prices[f.symbol] * f.quantity else 0.0
  }

  lemma NotionalOfAppend(fills: seq<Fill>, f: Fill)
    ensures Notional(fills + [f]) == Notional(fills) + f.price * f.quantity
  {
    assert (fills + [f])[..|fills|] == fills;
  }

  lemma {:induction false} OrdersFill(m: Market, desired: Dict, st: Ledger, ordered: seq<Symbol>, n: nat)
    requires m.cfg.Sound() && n <= |ordered| && st.traded == Notional(st.fills) && forall f :: f in st.fills ==> FromMarket(m, f)
    ensures var end := Orders(m, desired, st, ordered, n);
            end.traded == Notional(end.fills) && forall f :: f in end.fills ==> FromMarket(m, f)
  {
    hide Step, FromMarket, Notional, Config.Sound;
    if n > 0 {
      OrdersFill(m, desired, st, ordered, n - 1);
      StepFills(m, desired, Orders(m, desired, st, ordered, n - 1), ordered[n - 1]);
    }
  }

  lemma StepFills(m: Market, desired: Dict, st: Ledger, s: Symbol)
    requires m.cfg.Sound() && st.traded == Notional(st.fills) && forall f :: f in st.fills ==> FromMarket(m, f)
    ensures var end := Step(m, desired, st, s); end.traded == Notional(end.fills) && forall f :: f in end.fills ==> FromMarket(m, f)
  {
    hide Decide, FillOf, FillPrice, CashAfter, HoldingAfter, Put, RawDict.Get, RawDict.Valid, TradeCost.Plus, Notional, Config.Sound, TooSmall, Outlay;
    var d := Decide(m, s, desired.Get(s), st.positions.Get(s), st.cash);
    if d.Some? {
      DecideFacts(m, s, desired.Get(s), st.positions.Get(s), st.cash);
      NotionalOfAppend(st.fills, d.value);
    }
  }

  lemma BatchFills(m: Market, cash: real, positions: Dict, targets: Dict)
    requires m.cfg.Sound()
    ensures var r := Rebalanced(m, cash, positions, targets);
            r.traded == Notional(r.fills) && forall f :: f in r.fills ==> FromMarket(m, f)
  {
    hide Orders, Desired, OrderByDelta, FromMarket, Config.Sound, KeepPositive;
    var desired := Desired(m, targets, positions);
    var ordered := OrderByDelta(desired, positions);
    OrdersFill(m, desired, Opening(cash, positions), ordered, |ordered|);
  }

  /**
   Every fill of a rebalance trades a priced symbol at its reference moved against it by exactly the country's
   slippage, and pays exactly the country's charges on what it trades.
   */
  lemma FillsPayTheirWay(m: Market, cash: real, positions: Dict, targets: Dict, f: Fill)
    requires m.cfg.Sound() && f in Rebalanced(m, cash, positions, targets).fills
    ensures f.date == m.date && f.reason == m.reason && PaysItsWay(m.cfg, m.prices, f)
  {
    hide Rebalanced, FillOf, FillPrice, Config.Sound, PaysItsWay;
    BatchFills(m, cash, positions, targets);
    FillPays(m, f);
  }

  lemma SlippageOfOne(f: Fill, ref: real, bps: real)
    requires PaysSlippage(f, ref, bps) && bps >= 0.0 && ref > 0.0
    ensures Abs(f.price - ref) * f.quantity == bps / 10000.0 * (ref * f.quantity)
  {
    var gap := bps / 10000.0 * ref;
    MulNonNegative(bps / 10000.0, ref);
    assert Abs(f.price - ref) == gap;
    assert gap * f.quantity == bps / 10000.0 * (ref * f.quantity);
  }

  lemma {:induction false} SlippageIsRate(m: Market, fills: seq<Fill>)
    requires m.cfg.Sound() && forall f :: f in fills ==> FromMarket(m, f)
    ensures SlippagePaid(m.prices, fills) == TermsOf(m.cfg).bps / 10000.0 * Referred(m.prices, fills)
  {
    hide FromMarket, Config.Sound, SlippagePaid, Referred, TermsOf;
    if |fills| == 0 {
      NoneReferred(m.prices);
    } else {
      var f := fills[|fills| - 1];
      SlippageIsRate(m, fills[..|fills| - 1]);
      assert FromMarket(m, f);
      OneMoreSlippage(m, fills);
    }
  }

  lemma NoneReferred(prices: Prices)
    ensures SlippagePaid(prices, []) == 0.0 && Referred(prices, []) == 0.0
  {
  }

  lemma OneMoreSlippage(m: Market, fills: seq<Fill>)
    requires m.cfg.Sound() && |fills| > 0 && FromMarket(m, fills[|fills| - 1])
    requires var before := fills[..|fills| - 1];
             SlippagePaid(m.prices, before) == TermsOf(m.cfg).bps / 10000.0 * Referred(m.prices, before)
    ensures SlippagePaid(m.prices, fills) == TermsOf(m.cfg).bps / 10000.0 * Referred(m.prices, fills)
  {
    hide FillOf, FillPrice, Config.Sound, PaysSlippage, ChargesKr, ChargesUs, Abs;
    var before, f := fills[..|fills| - 1], fills[|fills| - 1];
    FillPays(m, f);
    BpsIsNonNegative(m.cfg);
    SlippageOfOne(f, m.prices[f.symbol], TermsOf(m.cfg).bps);
    SumOfParts(TermsOf(m.cfg).bps / 10000.0, Referred(m.prices, before), m.prices[f.symbol] * f.quantity);
  }

  lemma BpsIsNonNegative(cfg: Config)
    requires cfg.Sound()
    ensures TermsOf(cfg).bps >= 0.0
  {
  }

  lemma SumOfParts(rate: real, a: real, b: real)
    ensures rate * (a + b) == rate * a + rate * b
  {
  }

  /**
   What a rebalance costs: equity at the reference prices falls by the charges of its fills plus the country's
   slippage rate times the reference value traded. `traded` is the value of the fills at their own prices.
   */
  lemma EquityPaysForTrading(m: Market, cash: real, positions: Dict, targets: Dict)
    requires m.cfg.Sound() && NonNegative(positions)
    ensures var r := Rebalanced(m, cash, positions, targets);
            var bps := if m.cfg.country == KR then m.cfg.costs.slippageBpsKr else m.cfg.costs.slippageBpsUs;
            && Equity(r.cash, r.positions, m.prices)
               == Equity(cash, positions, m.prices) - r.cost.Total() - bps / 10000.0 * Referred(m.prices, r.fills)
            && r.traded == Notional(r.fills)
  {
    hide Rebalanced, Equity, Config.Sound, SlippagePaid, Referred, FromMarket, CashReplay, HoldingReplay, CostReplay;
    RebalanceConserves(m, cash, positions, targets);
    BatchFills(m, cash, positions, targets);
    SlippageIsRate(m, Rebalanced(m, cash, positions, targets).fills);
  }
}
