/** What one rebalance keeps, for every book, target and row of prices. */
module RebalanceLaws {
  import opened RealFacts
  import opened OrderedDict
  import opened Sorting
  import opened Costs
  import opened Engine

  // ---------------------------------------------------------------- arithmetic of one order

  /** Charging the two rates one on the other never undercuts charging them side by side. */
  lemma ScaledOutlayFits(px: real, c: real, f: real, cash: real, q: real)
    requires px > 0.0 && c >= 0.0 && f >= 0.0 && q >= 0.0
    requires q * (px * (1.0 + c) * (1.0 + f)) <= cash
    ensures px * q * (1.0 + c + f) <= cash
  {
    var each, sided := px * (1.0 + c) * (1.0 + f), px * (1.0 + c + f);
    assert each - sided == px * (c * f);
    MulNonNegative(c, f);
    MulNonNegative(px, c * f);
    MulMono(q, sided, each);
    assert px * q * (1.0 + c + f) == q * sided;
  }

  lemma OutlayIs(m: Market, s: Symbol, q: real, px: real)
    requires px > 0.0 && q >= 0.0
    ensures Outlay(FillOf(m, s, Buy, q, px))
         == px * q * (1.0 + m.cfg.costs.CommissionRate(m.cfg.country) + m.cfg.costs.FxRate(m.cfg.country))
  {
    hide CostModel.CostOn, CostModel.CommissionRate, CostModel.FxRate, TradeCost.Total;
    MulNonNegative(px, q);
    BuyOutlay(m.cfg.costs, m.cfg.country, px * q, q, s in m.cfg.etfSymbols);
  }

  /** The divisor of the scaled order: commission charged on the price, the spread on both. */
  lemma AffordablePriceIs(cfg: Config, px: real)
    requires cfg.costs.NonNegativeRates() && px > 0.0
    ensures AffordablePrice(cfg, px)
         == px * (1.0 + cfg.costs.CommissionRate(cfg.country)) * (1.0 + cfg.costs.FxRate(cfg.country))
    ensures AffordablePrice(cfg, px) > 0.0
  {
    hide CostModel.CommissionRate;
    CommissionIsNonNegative(cfg.costs, cfg.country);
    MulPositive(px, 1.0 + cfg.costs.CommissionRate(cfg.country));
    MulPositive(px * (1.0 + cfg.costs.CommissionRate(cfg.country)), 1.0 + cfg.costs.FxRate(cfg.country));
  }

  lemma CommissionIsNonNegative(costs: CostModel, c: Country)
    requires costs.NonNegativeRates()
    ensures costs.CommissionRate(c) >= 0.0 && costs.FxRate(c) >= 0.0
  {
  }

  /** The scaled-down quantity costs at most the cash there is, spread and commission included. */
  lemma AffordableFits(m: Market, s: Symbol, px: real, cash: real)
    requires m.cfg.costs.NonNegativeRates() && px > 0.0
    ensures var q := AffordableQuantity(m.cfg, px, cash);
            if cash < 0.0 then q <= 0.0 else q >= 0.0 && Outlay(FillOf(m, s, Buy, q, px)) <= cash
  {
    hide AffordablePrice, Outlay, FillOf, CostModel.CommissionRate, CostModel.FxRate, CostModel.NonNegativeRates;
    var c, f := m.cfg.costs.CommissionRate(m.cfg.country), m.cfg.costs.FxRate(m.cfg.country);
    CommissionIsNonNegative(m.cfg.costs, m.cfg.country);
    AffordablePriceIs(m.cfg, px);
    var perShare := AffordablePrice(m.cfg, px);
    var most := cash / perShare;
    QuotientTimes(cash, perShare);
    if cash >= 0.0 {
      var q := AffordableQuantity(m.cfg, px, cash);
      TruncateIsBelow(most);
      MulMono(perShare, q, most);
      ScaledOutlayFits(px, c, f, cash, q);
      OutlayIs(m, s, q, px);
    }
  }

  lemma PriceIsPositive(cfg: Config, side: Side, ref: real)
    requires cfg.Sound() && ref > 0.0
    ensures FillPrice(cfg, side, ref) > 0.0
  {
    hide CostModel.SlippageRate;
    assert cfg.costs.SlippageRate(cfg.country) >= 0.0 by { SlippageIsNonNegative(cfg); }
    MulPositive(ref, 1.0 + cfg.costs.SlippageRate(cfg.country));
    MulPositive(ref, 1.0 - cfg.costs.SlippageRate(cfg.country));
  }

  lemma SlippageIsNonNegative(cfg: Config)
    requires cfg.Sound()
    ensures cfg.costs.SlippageRate(cfg.country) >= 0.0
  {
  }

  /** A larger purchase at the same price costs more. */
  lemma OutlayGrows(m: Market, s: Symbol, px: real, q: real, r: real)
    requires m.cfg.costs.NonNegativeRates() && px > 0.0 && 0.0 <= q <= r
    ensures Outlay(FillOf(m, s, Buy, q, px)) <= Outlay(FillOf(m, s, Buy, r, px))
  {
    hide Outlay, FillOf, CostModel.CommissionRate, CostModel.FxRate;
    CommissionIsNonNegative(m.cfg.costs, m.cfg.country);
    var k := 1.0 + m.cfg.costs.CommissionRate(m.cfg.country) + m.cfg.costs.FxRate(m.cfg.country);
    OutlayIs(m, s, q, px);
    OutlayIs(m, s, r, px);
    MulMono(px, q, r);
    MulMono(k, px * q, px * r);
  }

  /** A purchase is paid for in full, and never exceeds what was wanted, scaled down or not. */
  lemma BuyFacts(m: Market, s: Symbol, qty: real, cash: real)
    requires m.cfg.Sound() && Tradable(m.prices, s) && qty > 0.0
    requires DecideBuy(m, s, qty, cash).Some?
    ensures var f := DecideBuy(m, s, qty, cash).value;
            && 0.0 < f.quantity <= qty && Outlay(f) <= cash
            && f == FillOf(m, s, Buy, f.quantity, FillPrice(m.cfg, Buy, m.prices[s]))
  {
    hide Outlay, FillPrice, AffordableQuantity, CostModel.CostOf, CostModel.NonNegativeRates, CostModel.SlippageRate;
    var px := FillPrice(m.cfg, Buy, m.prices[s]);
    PriceIsPositive(m.cfg, Buy, m.prices[s]);
    var q := AffordableQuantity(m.cfg, px, cash);
    AffordableFits(m, s, px, cash);
    if Outlay(FillOf(m, s, Buy, qty, px)) > cash && q > qty {
      OutlayGrows(m, s, px, qty, q);
    }
  }

  /** Everything later proofs need to know about a fill that was decided. */
  lemma DecideFacts(m: Market, s: Symbol, want: real, have: real, cash: real)
    requires m.cfg.Sound() && Decide(m, s, want, have, cash).Some?
    ensures Tradable(m.prices, s) && !TooSmall(m, m.prices[s], Abs(want - have), have)
    ensures var f := Decide(m, s, want, have, cash).value;
            && f == FillOf(m, s, f.side, f.quantity, FillPrice(m.cfg, f.side, m.prices[s]))
            && f.quantity > 0.0 && f.price > 0.0
            && if want > have then f.side == Buy && f.quantity <= want - have && Outlay(f) <= cash
               else f.side == Sell && f.quantity == Min(have - want, have) && want < have
  {
    hide Outlay, TooSmall, FillPrice, CostModel.CostOf, AffordableQuantity;
    if want > have { BuyFacts(m, s, want - have, cash); }
    PriceIsPositive(m.cfg, Buy, m.prices[s]);
    PriceIsPositive(m.cfg, Sell, m.prices[s]);
  }

  // ---------------------------------------------------------------- along the orders

  /** Orders touch the symbols they name and no other. */
  lemma {:induction false} OrdersTouch(m: Market, desired: Dict, st: Ledger, ordered: seq<Symbol>, n: nat, s: Symbol)
    requires n <= |ordered| && s !in ordered[..n]
    ensures Orders(m, desired, st, ordered, n).positions.Get(s) == st.positions.Get(s)
  {
    hide Decide, CashAfter, HoldingAfter;
    if n > 0 {
      assert s !in ordered[..n - 1] && s != ordered[n - 1] by {
        assert ordered[..n] == ordered[..n - 1] + [ordered[n - 1]];
      }
      OrdersTouch(m, desired, st, ordered, n - 1, s);
    }
  }

  ghost predicate Between(a: real, x: real, b: real) {
    a <= x <= b || b <= x <= a
  }

  /** A holding ends between where it was and where it was wanted, and is never oversold. */
  lemma {:induction false} OrdersApproach(m: Market, desired: Dict, st: Ledger, ordered: seq<Symbol>, n: nat, s: Symbol)
    requires m.cfg.Sound() && NonNegative(st.positions) && Distinct(ordered) && n <= |ordered|
    ensures var now := Orders(m, desired, st, ordered, n).positions.Get(s);
            && now >= 0.0
            && Between(st.positions.Get(s), now, desired.Get(s))
            && (!Tradable(m.prices, s) ==> now == st.positions.Get(s))
  {
    hide Decide, CashAfter, HoldingAfter, Tradable, Config.Sound, Between, Put, Step;
    assert st.positions.Get(s) >= 0.0;
    if s !in ordered[..n] {
      OrdersTouch(m, desired, st, ordered, n, s);
      InPlace(st.positions.Get(s), desired.Get(s));
    } else {
      var before := Orders(m, desired, st, ordered, n - 1);
      var x := ordered[n - 1];
      assert ordered[..n] == ordered[..n - 1] + [x];
      if s == x {
        assert s !in ordered[..n - 1];
        OrdersTouch(m, desired, st, ordered, n - 1, s);
        StepApproaches(m, desired, before, s);
      } else {
        OrdersApproach(m, desired, st, ordered, n - 1, s);
        StepLeavesOthers(m, desired, before, x, s);
      }
    }
  }

  lemma InPlace(a: real, b: real)
    ensures Between(a, a, b)
  {
  }

  lemma StepApproaches(m: Market, desired: Dict, st: Ledger, s: Symbol)
    requires m.cfg.Sound() && st.positions.Get(s) >= 0.0
    ensures var now := Step(m, desired, st, s).positions.Get(s);
            && now >= 0.0
            && Between(st.positions.Get(s), now, desired.Get(s))
            && (!Tradable(m.prices, s) ==> now == st.positions.Get(s))
  {
    hide Decide, CashAfter, FillOf, TooSmall, Outlay, Config.Sound;
    if Decide(m, s, desired.Get(s), st.positions.Get(s), st.cash).Some? {
      DecideFacts(m, s, desired.Get(s), st.positions.Get(s), st.cash);
    }
  }

  lemma StepLeavesOthers(m: Market, desired: Dict, st: Ledger, x: Symbol, s: Symbol)
    requires s != x
    ensures Step(m, desired, st, x).positions.Get(s) == st.positions.Get(s)
  {
    hide Decide;
  }

  // ---------------------------------------------------------------- replaying fills

  function CashReplay(cash: real, fills: seq<Fill>): real {
    if |fills| == 0 then cash
    else CashAfter(CashReplay(cash, fills[..|fills| - 1]), fills[|fills| - 1])
  }

  function HoldingReplay(have: real, fills: seq<Fill>, s: Symbol): real {
    if |fills| == 0 then have
    else
      var before := HoldingReplay(have, fills[..|fills| - 1], s);
      if fills[|fills| - 1].symbol == s then HoldingAfter(before, fills[|fills| - 1]) else before
  }

  function CostReplay(cost: TradeCost, fills: seq<Fill>): TradeCost {
    if |fills| == 0 then cost else CostReplay(cost, fills[..|fills| - 1]).Plus(fills[|fills| - 1].cost)
  }

  /** The state agrees with its fills. */
  ghost predicate Replays(cash: real, positions: Dict, st: Ledger) {
    && st.cash == CashReplay(cash, st.fills)
    && st.cost == CostReplay(FREE, st.fills)
    && forall s :: st.positions.Get(s) == HoldingReplay(positions.Get(s), st.fills, s)
  }

  lemma ApplyReplays(cash: real, positions: Dict, st: Ledger, f: Fill)
    requires Replays(cash, positions, st)
    ensures Replays(cash, positions, Apply(st, f))
  {
    hide CashAfter, HoldingAfter, TradeCost.Plus;
    assert (st.fills + [f])[..|st.fills|] == st.fills;
  }

  /** Cash, every holding and the batch cost are exactly what the recorded fills say. */
  lemma {:induction false} OrdersReplay(m: Market, desired: Dict, cash: real, positions: Dict, ordered: seq<Symbol>, n: nat)
    requires n <= |ordered|
    ensures Replays(cash, positions, Orders(m, desired, Opening(cash, positions), ordered, n))
  {
    hide Decide, Apply, Replays;
    if n == 0 {
      OpeningReplays(cash, positions);
    } else {
      OrdersReplay(m, desired, cash, positions, ordered, n - 1);
      var before := Orders(m, desired, Opening(cash, positions), ordered, n - 1);
      var x := ordered[n - 1];
      var d := Decide(m, x, desired.Get(x), before.positions.Get(x), before.cash);
      if d.Some? { ApplyReplays(cash, positions, before, d.value); }
    }
  }

  lemma OpeningReplays(cash: real, positions: Dict)
    ensures Replays(cash, positions, Opening(cash, positions))
  {
  }

  // ---------------------------------------------------------------- conservation

  /** What the fills paid over, or received under, the reference prices. */
  function SlippagePaid(prices: Prices, fills: seq<Fill>): real {
    if |fills| == 0 then 0.0
    else
      var f := fills[|fills| - 1];
      SlippagePaid(prices, fills[..|fills| - 1])
      + Abs(f.price - if f.symbol in prices then prices[f.symbol] else 0.0) * f.quantity
  }

  /** Equity at the given prices, plus everything charged and everything lost to slippage so far. */
  function Accounted(prices: Prices, st: Ledger): real {
    Equity(st.cash, st.positions, prices) + st.cost.Total() + SlippagePaid(prices, st.fills)
  }

  lemma TotalsAdd(c: TradeCost, d: TradeCost)
    ensures c.Plus(d).Total() == c.Total() + d.Total()
  {
  }

  lemma SlippageOfFill(cfg: Config, side: Side, ref: real)
    requires cfg.Sound() && ref > 0.0
    ensures Abs(FillPrice(cfg, side, ref) - ref)
         == if side == Buy then FillPrice(cfg, side, ref) - ref else ref - FillPrice(cfg, side, ref)
  {
    hide CostModel.SlippageRate;
    var slip := cfg.costs.SlippageRate(cfg.country);
    SlippageIsNonNegative(cfg);
    MulNonNegative(ref, slip);
    assert ref * (1.0 + slip) == ref + ref * slip && ref * (1.0 - slip) == ref - ref * slip;
  }

  /** One fill moves value between cash, holdings, cost and slippage, and creates none. */
  lemma FillConserves(m: Market, st: Ledger, f: Fill)
    requires m.cfg.Sound() && Tradable(m.prices, f.symbol)
    requires f.price == FillPrice(m.cfg, f.side, m.prices[f.symbol])
    ensures Accounted(m.prices, Apply(st, f)) == Accounted(m.prices, st)
  {
    hide FillPrice, TradeCost.Total, TradeCost.Plus, Config.Sound, Worth, Put, RawDict.Get;
    var ref, have := m.prices[f.symbol], st.positions.Get(f.symbol);
    var now := HoldingAfter(have, f);
    assert (st.fills + [f])[..|st.fills|] == st.fills;
    TotalsAdd(st.cost, f.cost);
    SlippageOfFill(m.cfg, f.side, ref);
    WorthOfPut(st.positions, m.prices, f.symbol, now);
    Difference(ref, have, now);
    if f.side == Buy { Difference(f.quantity, f.price, ref); } else { Difference(f.quantity, ref, f.price); }
  }

  lemma Difference(a: real, x: real, y: real)
    ensures a * y - a * x == a * (y - x)
  {
  }

  lemma {:induction false} OrdersConserve(m: Market, desired: Dict, st: Ledger, ordered: seq<Symbol>, n: nat)
    requires m.cfg.Sound() && n <= |ordered|
    ensures Accounted(m.prices, Orders(m, desired, st, ordered, n)) == Accounted(m.prices, st)
  {
    hide Decide, Apply, Accounted, FillPrice, CostModel.CostOf, Outlay, RawDict.Get, Config.Sound, TooSmall;
    if n > 0 {
      OrdersConserve(m, desired, st, ordered, n - 1);
      var before := Orders(m, desired, st, ordered, n - 1);
      var x := ordered[n - 1];
      var d := Decide(m, x, desired.Get(x), before.positions.Get(x), before.cash);
      if d.Some? {
        DecideFacts(m, x, desired.Get(x), before.positions.Get(x), before.cash);
        FillConserves(m, before, d.value);
      }
    }
  }

  // ---------------------------------------------------------------- solvency

  /** A sale at reference price ref that passes the dust check never costs more than it brings in. */
  ghost predicate SaleNeverLoses(m: Market, s: Symbol, ref: real) {
    forall q :: q > 0.0 && ref * q >= m.cfg.DustThreshold() ==> Proceeds(FillOf(m, s, Sell, q, FillPrice(m.cfg, Sell, ref))) >= 0.0
  }

  /** What one unit of reference value leaves after slippage and the proportional sell costs. */
  function NetRate(cfg: Config, s: Symbol): real {
    (1.0 - cfg.costs.SlippageRate(cfg.country)) * (1.0 - cfg.SellRate(s))
  }

  /** The check a caller can make: per share, the net proceeds cover the per-share fee, or the smallest
      sale the dust threshold lets through covers the fee's cap. */
  predicate SaleCovered(cfg: Config, s: Symbol, ref: real) {
    || ref * NetRate(cfg, s) >= cfg.costs.TafRate(cfg.country)
    || (NetRate(cfg, s) > 0.0 && cfg.DustThreshold() * NetRate(cfg, s) >= US_TAF_CAP)
  }

  lemma ProceedsAt(m: Market, s: Symbol, px: real, q: real)
    requires m.cfg.costs.NonNegativeRates() && px > 0.0 && q > 0.0
    ensures Proceeds(FillOf(m, s, Sell, q, px))
         == SaleNet(px * q, m.cfg.SellRate(s), q, m.cfg.costs.TafRate(m.cfg.country))
  {
    hide CostModel.CostOn, CostModel.SellRate, CostModel.TafRate, TradeCost.Total, CostModel.NonNegativeRates, CostModel.CostOf, SaleNet;
    MulPositive(px, q);
    var isEtf := s in m.cfg.etfSymbols;
    CostOfIs(m.cfg.costs, Sell, m.cfg.country, px, q, px * q, isEtf);
    SaleProceeds(m.cfg.costs, m.cfg.country, px * q, q, isEtf);
  }

  lemma CostOfIs(costs: CostModel, side: Side, c: Country, px: real, q: real, n: real, isEtf: bool)
    requires n == px * q && n >= 0.0
    ensures costs.CostOf(side, c, px, q, isEtf, false) == costs.CostOn(side, c, n, q, isEtf, false)
  {
    hide CostModel.CostOn;
  }

  lemma ProceedsAre(m: Market, s: Symbol, ref: real, q: real)
    requires m.cfg.Sound() && ref > 0.0 && q > 0.0
    ensures Proceeds(FillOf(m, s, Sell, q, FillPrice(m.cfg, Sell, ref)))
         == ref * q * NetRate(m.cfg, s) - Min(q * m.cfg.costs.TafRate(m.cfg.country), US_TAF_CAP)
  {
    hide Proceeds, FillOf, CostModel.SlippageRate, Config.SellRate, CostModel.TafRate;
    PriceIsPositive(m.cfg, Sell, ref);
    ProceedsAt(m, s, FillPrice(m.cfg, Sell, ref), q);
    Regroup(ref, 1.0 - m.cfg.costs.SlippageRate(m.cfg.country), q, 1.0 - m.cfg.SellRate(s));
  }

  lemma Regroup(a: real, b: real, c: real, d: real)
    ensures a * b * c * d == a * c * (b * d)
  {
  }

  lemma CoveredPerShare(p: real, g: real, q: real, taf: real)
    requires q > 0.0 && p * g >= taf
    ensures p * q * g >= Min(q * taf, US_TAF_CAP)
  {
    MulMono(q, taf, p * g);
    assert p * q * g == q * (p * g);
  }

  lemma CoveredByCap(n: real, g: real, fee: real, dust: real)
    requires n >= dust && g > 0.0 && dust * g >= US_TAF_CAP
    ensures n * g >= Min(fee, US_TAF_CAP)
  {
    MulMono(g, dust, n);
  }

  ghost predicate LosingSale(p: real, g: real, taf: real, dust: real, q: real) {
    q > 0.0 && p * q >= dust && p * q * g < Min(q * taf, US_TAF_CAP)
  }

  /** A quantity that loses money, when the net rate keeps nothing. */
  lemma LosesWithoutNet(p: real, g: real, taf: real, dust: real) returns (q: real)
    requires p > 0.0 && g <= 0.0 && p * g < taf
    ensures LosingSale(p, g, taf, dust, q)
  {
    QuotientTimes(dust, p);
    q := Max(dust / p, 1.0);
    MulMono(p, dust / p, q);
    MulPositive(q, taf - p * g);
    assert q * (taf - p * g) == q * taf - p * q * g;
    MulPositive(p, q);
    MulNonNegative(p * q, -g);
  }

  /** A quantity that loses money, when the per-share fee eats more than the net proceeds. */
  lemma LosesToTheFee(p: real, g: real, taf: real, dust: real) returns (q: real)
    requires p > 0.0 && g > 0.0 && p * g < taf && dust * g < US_TAF_CAP
    ensures LosingSale(p, g, taf, dust, q)
  {
    MulPositive(p, g);
    QuotientTimes(dust, p);
    QuotientTimes(US_TAF_CAP, taf);
    var k := US_TAF_CAP / taf;
    q := Max(dust / p, k);
    MulMono(taf, k, q);
    MulMono(p, dust / p, q);
    if dust / p <= k {
      MulPositive(k, taf - p * g);
      assert k * (taf - p * g) == k * taf - p * k * g;
    } else {
      assert p * q == dust;
    }
  }

  lemma LosesSomewhere(p: real, g: real, taf: real, dust: real) returns (q: real)
    requires p > 0.0 && p * g < taf && (g > 0.0 ==> dust * g < US_TAF_CAP)
    ensures LosingSale(p, g, taf, dust, q)
  {
    hide LosingSale;
    if g <= 0.0 {
      q := LosesWithoutNet(p, g, taf, dust);
    } else {
      q := LosesToTheFee(p, g, taf, dust);
    }
  }

  lemma CoveredSale(m: Market, s: Symbol, ref: real, q: real)
    requires m.cfg.Sound() && ref > 0.0 && q > 0.0 && ref * q >= m.cfg.DustThreshold() && SaleCovered(m.cfg, s, ref)
    ensures Proceeds(FillOf(m, s, Sell, q, FillPrice(m.cfg, Sell, ref))) >= 0.0
  {
    hide Proceeds, FillOf, FillPrice, NetRate, CostModel.TafRate, Config.Sound, Config.DustThreshold;
    var g, taf := NetRate(m.cfg, s), m.cfg.costs.TafRate(m.cfg.country);
    ProceedsAre(m, s, ref, q);
    if ref * g >= taf {
      CoveredPerShare(ref, g, q, taf);
    } else {
      CoveredByCap(ref * q, g, q * taf, m.cfg.DustThreshold());
    }
  }

  lemma UncoveredSale(m: Market, s: Symbol, ref: real) returns (q: real)
    requires m.cfg.Sound() && ref > 0.0 && !SaleCovered(m.cfg, s, ref)
    ensures q > 0.0 && ref * q >= m.cfg.DustThreshold()
    ensures Proceeds(FillOf(m, s, Sell, q, FillPrice(m.cfg, Sell, ref))) < 0.0
  {
    hide Proceeds, FillOf, FillPrice, NetRate, CostModel.TafRate, Config.Sound, Config.DustThreshold;
    q := LosesSomewhere(ref, NetRate(m.cfg, s), m.cfg.costs.TafRate(m.cfg.country), m.cfg.DustThreshold());
    ProceedsAre(m, s, ref, q);
  }

  /** Exactly when selling can never drain cash, whatever the quantity. */
  lemma SaleNeverLosesIff(m: Market, s: Symbol, ref: real)
    requires m.cfg.Sound() && ref > 0.0
    ensures SaleNeverLoses(m, s, ref) <==> SaleCovered(m.cfg, s, ref)
  {
    hide Proceeds, FillOf, FillPrice, SaleCovered, Config.Sound, Config.DustThreshold;
    if SaleCovered(m.cfg, s, ref) {
      forall q | q > 0.0 && ref * q >= m.cfg.DustThreshold()
        ensures Proceeds(FillOf(m, s, Sell, q, FillPrice(m.cfg, Sell, ref))) >= 0.0
      {
        CoveredSale(m, s, ref, q);
      }
    } else {
      var q := UncoveredSale(m, s, ref);
    }
  }
}
