/** Exactly when a rebalance can never borrow, whatever the book it starts from and the targets it is given. */
module SolvencyTheorems {
  import opened RealFacts
  import opened Wrappers
  import opened OrderedDict
  import opened Costs
  import opened Calendar
  import opened Engine
  import opened RebalanceLaws
  import opened RebalanceTheorems
  import opened BacktestTheorems

  /** The market at an open: prices, and the equity of the book at those prices. */
  function OpenAt(cfg: Config, prices: Prices, date: Date, cash: real, positions: Dict): Market {
    Market(cfg, prices, Equity(cash, positions, prices), date, "")
  }

  function FillsAt(cfg: Config, prices: Prices, date: Date, cash: real, positions: Dict, targets: Dict): seq<Fill> {
    Rebalanced(OpenAt(cfg, prices, date, cash, positions), cash, positions, targets).fills
  }

  /** No book without debt is ever taken into debt, whatever the targets. */
  ghost predicate NeverBorrows(cfg: Config, prices: Prices, date: Date) {
    forall cash: real, positions: Dict, targets: Dict :: cash >= 0.0 && NonNegative(positions) ==>
      SolventThroughout(cash, positions, FillsAt(cfg, prices, date, cash, positions, targets))
  }

  /** A book of one holding. */
  function Holding(s: Symbol, q: real): Dict {
    RawDict([s], map[s := q])
  }

  lemma HoldingIs(s: Symbol, q: real, prices: Prices)
    requires s in prices && q > 0.0
    ensures NonNegative(Holding(s, q)) && Holding(s, q).Get(s) == q
    ensures Equity(0.0, Holding(s, q), prices) == prices[s] * q
  {
    assert WorthOver(Holding(s, q).keys[..0], Holding(s, q).vals, prices) == 0.0;
  }

  /** A whole book of one symbol is always large enough to trade, up to a band of 100%. */
  lemma SellsItAll(m: Market, s: Symbol, q: real)
    requires Tradable(m.prices, s) && q > 0.0 && m.equity == m.prices[s] * q
    requires m.prices[s] * q >= m.cfg.DustThreshold() && m.cfg.rebalanceBand <= 1.0
    ensures Decide(m, s, 0.0, q, 0.0) == Some(FillOf(m, s, Sell, q, FillPrice(m.cfg, Sell, m.prices[s])))
  {
    hide FillOf, FillPrice, Config.DustThreshold;
    MulPositive(m.prices[s], q);
    WholeOfItself(m.equity);
    assert Abs(0.0 - q) == q;
  }

  lemma WholeOfItself(x: real)
    requires x > 0.0
    ensures x / x == 1.0
  {
  }

  /** Liquidating that book leaves exactly the proceeds of the sale. */
  lemma Liquidation(m: Market, s: Symbol, q: real)
    requires Tradable(m.prices, s) && q > 0.0 && m.equity == m.prices[s] * q
    requires m.prices[s] * q >= m.cfg.DustThreshold() && m.cfg.rebalanceBand <= 1.0
    ensures Rebalanced(m, 0.0, Holding(s, q), EMPTY).cash == Proceeds(FillOf(m, s, Sell, q, FillPrice(m.cfg, Sell, m.prices[s])))
  {
    hide Decide, Desired, OrderByDelta, Want, Outlay, Proceeds, KeepPositive, FillPrice, CostModel.CostOf, Config.DustThreshold, Put;
    var book := Holding(s, q);
    var desired := Desired(m, EMPTY, book);
    var ordered := OrderByDelta(desired, book);
    PlanFacts(m, book, EMPTY);
    OnlyOne(ordered, s);
    UntargetedIsUnwanted(m, EMPTY, s);
    SellsItAll(m, s, q);
    var st := Opening(0.0, book);
    assert Orders(m, desired, st, ordered, 0) == st;
    assert Orders(m, desired, st, ordered, 1) == Step(m, desired, st, s);
  }

  /** A negative end is a negative point of the replay. */
  lemma EndsInDebt(m: Market, cash: real, positions: Dict, targets: Dict)
    requires m.cfg.Sound() && NonNegative(positions) && Rebalanced(m, cash, positions, targets).cash < 0.0
    ensures !SolventThroughout(cash, positions, Rebalanced(m, cash, positions, targets).fills)
  {
    hide Rebalanced, Config.Sound, Equity, SlippagePaid, CashReplay, HoldingReplay, CostReplay;
    RebalanceConserves(m, cash, positions, targets);
    var fills := Rebalanced(m, cash, positions, targets).fills;
    assert fills[..|fills|] == fills;
  }

  lemma UncoveredBookBorrows(cfg: Config, prices: Prices, date: Date, s: Symbol)
    requires cfg.Sound() && cfg.rebalanceBand <= 1.0 && Tradable(prices, s) && !SaleCovered(cfg, s, prices[s])
    ensures !NeverBorrows(cfg, prices, date)
  {
    hide Rebalanced, Config.Sound, Equity, SaleCovered, Proceeds, FillOf, FillPrice, Config.DustThreshold, SolventThroughout;
    var q := UncoveredSale(OpenAt(cfg, prices, date, 0.0, EMPTY), s, prices[s]);
    HoldingIs(s, q, prices);
    var m := OpenAt(cfg, prices, date, 0.0, Holding(s, q));
    SameSale(OpenAt(cfg, prices, date, 0.0, EMPTY), m, s, q, FillPrice(cfg, Sell, prices[s]));
    Liquidation(m, s, q);
    EndsInDebt(m, 0.0, Holding(s, q), EMPTY);
    assert !SolventThroughout(0.0, Holding(s, q), FillsAt(cfg, prices, date, 0.0, Holding(s, q), EMPTY));
  }

  /** What a sale brings in does not depend on the size of the account. */
  lemma SameSale(a: Market, b: Market, s: Symbol, q: real, px: real)
    requires a.cfg == b.cfg
    ensures Proceeds(FillOf(a, s, Sell, q, px)) == Proceeds(FillOf(b, s, Sell, q, px))
  {
    hide CostModel.CostOf;
  }

  /**
   Exactly when rebalancing at given prices can never borrow, for a band of at most 100%: when the sale of every
   tradable symbol is covered there. One uncovered symbol is enough for some book to end in debt.
   */
  lemma NeverBorrowsIff(cfg: Config, prices: Prices, date: Date)
    requires cfg.Sound() && cfg.rebalanceBand <= 1.0 && forall s :: s in prices ==> prices[s] >= 0.0
    ensures NeverBorrows(cfg, prices, date) <==> forall s :: Tradable(prices, s) ==> SaleCovered(cfg, s, prices[s])
  {
    hide Rebalanced, Config.Sound, Worth, SaleCovered, SolventThroughout;
    if SalesCovered(cfg, prices) {
      forall cash: real, positions: Dict, targets: Dict | cash >= 0.0 && NonNegative(positions)
        ensures SolventThroughout(cash, positions, FillsAt(cfg, prices, date, cash, positions, targets))
      {
        WorthIsNonNegative(positions, prices);
        RebalanceStaysSolvent(OpenAt(cfg, prices, date, cash, positions), cash, positions, targets);
      }
    } else {
      var s :| Tradable(prices, s) && !SaleCovered(cfg, s, prices[s]);
      UncoveredBookBorrows(cfg, prices, date, s);
    }
  }
}
