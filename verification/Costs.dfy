/** Transaction costs of one fill (src/tqt/backtest/costs.py). */
module Costs {
  import opened RealFacts

  datatype Side = Buy | Sell

  datatype Country = KR | US

  /** Cost breakdown of a fill, in the instrument's own currency. */
  datatype TradeCost = TradeCost(commission: real, tax: real, regulatory: real, slippage: real, fx: real)
  {
    function Total(): real {
      commission + tax + regulatory + slippage + fx
    }

    function Plus(other: TradeCost): TradeCost {
      TradeCost(commission + other.commission, tax + other.tax, regulatory + other.regulatory,
                slippage + other.slippage, fx + other.fx)
    }
  }

  const FREE := TradeCost(0.0, 0.0, 0.0, 0.0, 0.0)

  const BPS := 0.0001
  const US_TAF_CAP := 8.30

  datatype CostModel = CostModel(
    krCommission: real, usCommission: real,
    krStockSellTax: real, krEtfSellTax: real,
    usSecFee: real, usTafPerShare: real,
    fxSpread: real, chargeFx: bool,
    slippageBpsKr: real, slippageBpsUs: real)
  {
    function CommissionRate(c: Country): real {
      if c == KR then krCommission else usCommission
    }

    function SlippageRate(c: Country): real {
      (if c == KR then slippageBpsKr else slippageBpsUs) * BPS
    }

    function SellTaxRate(c: Country, isEtf: bool): real {
      if c != KR then 0.0 else if isEtf then krEtfSellTax else krStockSellTax
    }

    /** What the constructor enforces, and that the statutory rates are not negative either. */
    ghost predicate NonNegativeRates() {
      && krCommission >= 0.0 && usCommission >= 0.0 && fxSpread >= 0.0
      && slippageBpsKr >= 0.0 && slippageBpsUs >= 0.0
      && krStockSellTax >= 0.0 && krEtfSellTax >= 0.0 && usSecFee >= 0.0 && usTafPerShare >= 0.0
    }

    ghost predicate CostsNothing() {
      && krCommission == usCommission == fxSpread == slippageBpsKr == slippageBpsUs == 0.0
      && krStockSellTax == krEtfSellTax == usSecFee == usTafPerShare == 0.0
    }

    /** The spread a trade of this country pays, if any. */
    function FxRate(c: Country): real {
      if c == US && chargeFx then fxSpread else 0.0
    }

    /** The part of a sale's cost that is proportional to its proceeds. */
    function SellRate(c: Country, isEtf: bool): real {
      CommissionRate(c) + SellTaxRate(c, isEtf) + (if c == US then usSecFee else 0.0) + FxRate(c)
    }

    /** The per-share fee of a sale, before its cap. */
    function TafRate(c: Country): real {
      if c == US then usTafPerShare else 0.0
    }

    function CostOf(side: Side, c: Country, price: real, quantity: real, isEtf: bool, withSlippage: bool): TradeCost {
      CostOn(side, c, Abs(price * quantity), quantity, isEtf, withSlippage)
    }

    function CostOn(side: Side, c: Country, notional: real, quantity: real, isEtf: bool, withSlippage: bool): TradeCost {
      if notional == 0.0 then FREE
      else
        TradeCost(
          Part(notional, CommissionRate(c)),
          if side == Sell then Part(notional, SellTaxRate(c, isEtf)) else 0.0,
          if side == Sell && c == US then Part(notional, usSecFee) + TafFee(Abs(quantity), usTafPerShare) else 0.0,
          if withSlippage then Part(notional, SlippageRate(c)) else 0.0,
          if c == US && chargeFx then Part(notional, fxSpread) else 0.0)
    }
  }

  /** A proportional charge. */
  function Part(notional: real, rate: real): real {
    notional * rate
  }

  /** The capped per-share fee. */
  function TafFee(shares: real, taf: real): real {
    Min(shares * taf, US_TAF_CAP)
  }

  // ---------------------------------------------------------------- what a fill costs

  /** A KR fill pays the commission and, for a sale, the tax of its kind of instrument. */
  ghost predicate ChargesKr(m: CostModel, side: Side, n: real, isEtf: bool, withSlippage: bool, k: TradeCost) {
    && k.commission == n * m.krCommission
    && k.tax == (if side == Buy then 0.0 else if isEtf then n * m.krEtfSellTax else n * m.krStockSellTax)
    && k.slippage == (if withSlippage then n * (m.slippageBpsKr * 0.0001) else 0.0)
    && k.regulatory == k.fx == 0.0
    && k.Total() == k.commission + k.tax + k.slippage
  }

  /** A US fill pays the commission, the spread if it is charged, and, for a sale, the SEC fee and the capped FINRA fee. */
  ghost predicate ChargesUs(m: CostModel, side: Side, n: real, q: real, withSlippage: bool, k: TradeCost) {
    && k.commission == n * m.usCommission
    && k.fx == (if m.chargeFx then n * m.fxSpread else 0.0)
    && k.regulatory == (if side == Buy then 0.0 else n * m.usSecFee + Min(q * m.usTafPerShare, 8.30))
    && k.slippage == (if withSlippage then n * (m.slippageBpsUs * 0.0001) else 0.0)
    && k.tax == 0.0
    && k.Total() == k.commission + k.fx + k.regulatory + k.slippage
  }

  /** The charges on trading q shares for n, by country. */
  lemma ChargesAre(m: CostModel, side: Side, c: Country, n: real, q: real, isEtf: bool, withSlippage: bool)
    requires n > 0.0 && q > 0.0
    ensures c == KR ==> ChargesKr(m, side, n, isEtf, withSlippage, m.CostOn(side, c, n, q, isEtf, withSlippage))
    ensures c == US ==> ChargesUs(m, side, n, q, withSlippage, m.CostOn(side, c, n, q, isEtf, withSlippage))
  {
    hide Part, TafFee;
    NoCharge(n, q);
    FeeIs(q, m.usTafPerShare);
    PartIs(n, m.krCommission);
    PartIs(n, m.usCommission);
    PartIs(n, m.krEtfSellTax);
    PartIs(n, m.krStockSellTax);
    PartIs(n, m.usSecFee);
    PartIs(n, m.fxSpread);
    PartIs(n, m.slippageBpsKr * 0.0001);
    PartIs(n, m.slippageBpsUs * 0.0001);
  }

  lemma FeeIs(q: real, taf: real)
    requires q > 0.0
    ensures TafFee(Abs(q), taf) == Min(q * taf, 8.30)
  {
    assert Abs(q) == q;
  }

  lemma PartIs(n: real, rate: real)
    ensures Part(n, rate) == n * rate
  {
  }

  /** Buying takes the notional plus the commission and the spread on it, and nothing else. */
  lemma BuyOutlay(m: CostModel, c: Country, n: real, q: real, isEtf: bool)
    ensures n + m.CostOn(Buy, c, n, q, isEtf, false).Total()
         == n * (1.0 + m.CommissionRate(c) + m.FxRate(c))
  {
  }

  /** What a sale of q shares for n leaves, at these proportional costs and this per-share fee. */
  function SaleNet(n: real, rate: real, q: real, taf: real): real {
    n * (1.0 - rate) - TafFee(q, taf)
  }

  /** Selling releases the proceeds less the proportional costs and the capped per-share fee. */
  lemma SaleProceeds(m: CostModel, c: Country, n: real, q: real, isEtf: bool)
    requires n > 0.0 && q > 0.0 && m.NonNegativeRates()
    ensures n - m.CostOn(Sell, c, n, q, isEtf, false).Total()
         == SaleNet(n, m.SellRate(c, isEtf), q, m.TafRate(c))
  {
    hide Part, TafFee, SaleNet;
    NoCharge(n, q);
    NetOf(n, m.CommissionRate(c), m.SellTaxRate(c, isEtf), if c == US then m.usSecFee else 0.0, m.FxRate(c), q, m.TafRate(c));
  }

  lemma NoCharge(n: real, q: real)
    ensures Part(n, 0.0) == 0.0 && TafFee(q, 0.0) == 0.0
  {
  }

  lemma NetOf(n: real, commission: real, tax: real, sec: real, fx: real, q: real, taf: real)
    ensures n - (Part(n, commission) + Part(n, tax) + (Part(n, sec) + TafFee(q, taf)) + Part(n, fx))
         == SaleNet(n, commission + tax + sec + fx, q, taf)
  {
    hide TafFee;
  }

  lemma NothingCostsNothing(m: CostModel, side: Side, c: Country, n: real, q: real, isEtf: bool)
    requires m.CostsNothing()
    ensures m.CostOn(side, c, n, q, isEtf, false) == FREE
  {
  }

  /** No fill is paid to happen: its cost is never negative. */
  lemma CostIsNonNegative(costs: CostModel, side: Side, c: Country, px: real, q: real, isEtf: bool)
    requires costs.NonNegativeRates()
    ensures costs.CostOf(side, c, px, q, isEtf, false).Total() >= 0.0
  {
    hide Part, TafFee, Abs;
    var n := Abs(px * q);
    AbsIsNonNegative(px * q);
    AbsIsNonNegative(q);
    PartIsNonNegative(n, costs.CommissionRate(c));
    PartIsNonNegative(n, costs.SellTaxRate(c, isEtf));
    PartIsNonNegative(n, costs.usSecFee);
    PartIsNonNegative(n, costs.fxSpread);
    FeeIsNonNegative(Abs(q), costs.usTafPerShare);
  }

  lemma AbsIsNonNegative(x: real)
    ensures Abs(x) >= 0.0
  {
  }

  lemma PartIsNonNegative(n: real, rate: real)
    requires n >= 0.0 && rate >= 0.0
    ensures Part(n, rate) >= 0.0
  {
    MulNonNegative(n, rate);
  }

  lemma FeeIsNonNegative(q: real, taf: real)
    requires q >= 0.0 && taf >= 0.0
    ensures TafFee(q, taf) >= 0.0
  {
    MulNonNegative(q, taf);
  }
}
