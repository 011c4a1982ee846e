/**
 One rebalance of the daily backtester (src/tqt/backtest/engine.py, `_equity` and `_rebalance`).
 Decimals are exact reals; a row of prices is a map, and a missing or NaN price is an absent key.
 */
module Engine {
  import opened Wrappers
  import opened RealFacts
  import opened OrderedDict
  import opened Sorting
  import opened Costs
  import opened Calendar

  type Prices = map<Symbol, real>

  datatype Config = Config(
    initialCash: real,
    country: Country,
    etfSymbols: set<Symbol>,
    allowFractional: Option<bool>,
    rebalanceBand: real,
    minOrderValue: Option<real>,
    costs: CostModel)
  {
    function DustThreshold(): real {
      if minOrderValue.Some? then minOrderValue.value
      else if country == KR then 5000.0 else 5.0
    }

    predicate Fractional() {
      if allowFractional.Some? then allowFractional.value else country == US
    }

    predicate ChargesFx() {
      country == US && costs.chargeFx
    }

    function SellRate(s: Symbol): real {
      costs.SellRate(country, s in etfSymbols)
    }

    /** Rates are not negative and slippage leaves something of a sale. */
    ghost predicate Sound() {
      costs.NonNegativeRates() && costs.SlippageRate(country) < 1.0
    }
  }

  datatype Fill = Fill(date: Date, symbol: Symbol, side: Side, quantity: real, price: real, cost: TradeCost, reason: string)

  /** Everything a rebalance reads but does not change. */
  datatype Market = Market(cfg: Config, prices: Prices, equity: real, date: Date, reason: string)

  datatype Ledger = Ledger(cash: real, positions: Dict, fills: seq<Fill>, cost: TradeCost, traded: real)

  // ---------------------------------------------------------------- equity

  function Equity(cash: real, positions: Dict, prices: Prices): real {
    cash + Worth(positions, prices)
  }

  /** The source's running total over positions.items(). */
  method EquityOf(cash: real, positions: Dict, prices: Prices) returns (total: real)
    ensures total == Equity(cash, positions, prices)
  {
    hide Mark;
    total := cash;
    var ks := positions.keys;
    for i := 0 to |ks|
      invariant total == cash + WorthOver(ks[..i], positions.vals, prices)
    {
      assert ks[..i + 1][..i] == ks[..i];
      MarkIs(prices, ks[i], positions.vals[ks[i]]);
      if ks[i] in prices {
        total := total + prices[ks[i]] * positions.vals[ks[i]];
      }
    }
    assert ks[..|ks|] == ks;
  }

  // ---------------------------------------------------------------- what to hold

  predicate Tradable(prices: Prices, s: Symbol) {
    s in prices && prices[s] > 0.0
  }

  /** equity * weight / price, before the whole-share rule. */
  function RawShares(equity: real, weight: real, px: real): real
    requires px != 0.0
  {
    equity * weight / px
  }

  /** The share count the target weight asks for. */
  function Want(m: Market, targets: Dict, s: Symbol): real {
    if s !in targets.vals || !Tradable(m.prices, s) || targets.vals[s] <= 0.0 then 0.0
    else
      var raw := RawShares(m.equity, targets.vals[s], m.prices[s]);
      if m.cfg.Fractional() then raw else Truncate(raw) as real
  }

  /** The `desired` dictionary after the first n targets. */
  function DesiredTargets(m: Market, targets: Dict, n: nat): Dict
    requires n <= |targets.keys|
  {
    if n == 0 then EMPTY
    else Put(DesiredTargets(m, targets, n - 1), targets.keys[n - 1], Want(m, targets, targets.keys[n - 1]))
  }

  /** ... and after setdefault(sym, 0) for the first n holdings. */
  function DesiredHoldings(desired: Dict, positions: Dict, n: nat): Dict
    requires n <= |positions.keys|
  {
    if n == 0 then desired
    else
      var d := DesiredHoldings(desired, positions, n - 1);
      if positions.keys[n - 1] in d.vals then d else Put(d, positions.keys[n - 1], 0.0)
  }

  function Desired(m: Market, targets: Dict, positions: Dict): Dict {
    DesiredHoldings(DesiredTargets(m, targets, |targets.keys|), positions, |positions.keys|)
  }

  lemma {:induction false} DesiredTargetsAre(m: Market, targets: Dict, n: nat)
    requires n <= |targets.keys|
    ensures forall s :: s in DesiredTargets(m, targets, n).vals <==> s in targets.keys[..n]
    ensures forall s :: s in targets.keys[..n] ==> DesiredTargets(m, targets, n).Get(s) == Want(m, targets, s)
  {
    hide Want, Put, RawDict.Get, RawDict.Valid;
    if n > 0 {
      DesiredTargetsAre(m, targets, n - 1);
      assert targets.keys[..n] == targets.keys[..n - 1] + [targets.keys[n - 1]];
      PutGet(DesiredTargets(m, targets, n - 1), targets.keys[n - 1], Want(m, targets, targets.keys[n - 1]));
    }
  }

  lemma {:induction false} DesiredHoldingsAre(desired: Dict, positions: Dict, n: nat)
    requires n <= |positions.keys|
    ensures forall s :: s in DesiredHoldings(desired, positions, n).vals <==> s in desired.vals || s in positions.keys[..n]
    ensures forall s :: DesiredHoldings(desired, positions, n).Get(s) == desired.Get(s)
  {
    hide Put, RawDict.Get, RawDict.Valid;
    if n > 0 {
      DesiredHoldingsAre(desired, positions, n - 1);
      assert positions.keys[..n] == positions.keys[..n - 1] + [positions.keys[n - 1]];
      var d, k := DesiredHoldings(desired, positions, n - 1), positions.keys[n - 1];
      if k !in d.vals {
        AbsentIsZero(d, k);
        PutGet(d, k, 0.0);
      }
    }
  }

  /** Every target and every holding gets an entry, and each entry is the target's share count or 0. */
  lemma DesiredIs(m: Market, targets: Dict, positions: Dict)
    ensures forall s :: s in Desired(m, targets, positions).vals <==> s in targets.vals || s in positions.vals
    ensures forall s :: Desired(m, targets, positions).Get(s) == Want(m, targets, s)
  {
    DesiredTargetsAre(m, targets, |targets.keys|);
    DesiredHoldingsAre(DesiredTargets(m, targets, |targets.keys|), positions, |positions.keys|);
    assert targets.keys[..|targets.keys|] == targets.keys;
    assert positions.keys[..|positions.keys|] == positions.keys;
  }

  // ---------------------------------------------------------------- order of trading

  function Delta(desired: Dict, positions: Dict, s: Symbol): real {
    desired.Get(s) - positions.Get(s)
  }

  // ---------------------------------------------------------------- one order

  function FillPrice(cfg: Config, side: Side, ref: real): real {
    if side == Buy then ref * (1.0 + cfg.costs.SlippageRate(cfg.country))
    else ref * (1.0 - cfg.costs.SlippageRate(cfg.country))
  }

  function FillOf(m: Market, s: Symbol, side: Side, qty: real, px: real): Fill {
    Fill(m.date, s, side, qty, px,
         m.cfg.costs.CostOf(side, m.cfg.country, px, qty, s in m.cfg.etfSymbols, false), m.reason)
  }

  /** What a purchase takes out of cash. */
  function Outlay(f: Fill): real {
    f.price * f.quantity + f.cost.Total()
  }

  /** What a sale adds to cash. */
  function Proceeds(f: Fill): real {
    f.price * f.quantity - f.cost.Total()
  }

  /** What one share costs when an order is scaled down to the cash there is. */
  function AffordablePrice(cfg: Config, px: real): real {
    px * (1.0 + cfg.costs.CommissionRate(cfg.country)) * (if cfg.ChargesFx() then 1.0 + cfg.costs.fxSpread else 1.0)
  }

  /** What cash can buy at px when the full order does not fit. */
  function AffordableQuantity(cfg: Config, px: real, cash: real): real {
    var perShare := AffordablePrice(cfg, px);
    var most := if perShare > 0.0 then cash / perShare else 0.0;
    if cfg.Fractional() then most else Truncate(most) as real
  }

  /** Too small to trade: under the dust threshold, or a held position inside the band. */
  predicate TooSmall(m: Market, ref: real, qty: real, have: real) {
    || ref * qty < m.cfg.DustThreshold()
    || (m.equity > 0.0 && ref * qty / m.equity < m.cfg.rebalanceBand && have > 0.0)
  }

  /** A scaled-down order that is not worth placing. */
  predicate NothingLeft(cfg: Config, px: real, qty: real) {
    qty <= 0.0 || px * qty < cfg.DustThreshold()
  }

  function DecideBuy(m: Market, s: Symbol, qty: real, cash: real): Option<Fill>
    requires Tradable(m.prices, s)
  {
    var px := FillPrice(m.cfg, Buy, m.prices[s]);
    var full := FillOf(m, s, Buy, qty, px);
    if Outlay(full) <= cash then Some(full)
    else
      var q := AffordableQuantity(m.cfg, px, cash);
      if NothingLeft(m.cfg, px, q) then None
      else Some(FillOf(m, s, Buy, q, px))
  }

  function DecideSell(m: Market, s: Symbol, qty: real, have: real): Option<Fill>
    requires Tradable(m.prices, s)
  {
    var q := Min(qty, have);
    if q <= 0.0 then None else Some(FillOf(m, s, Sell, q, FillPrice(m.cfg, Sell, m.prices[s])))
  }

  /** The fill, if any, that moves a holding of `have` towards `want`. */
  function Decide(m: Market, s: Symbol, want: real, have: real, cash: real): (r: Option<Fill>)
    ensures r.Some? ==> r.value.symbol == s && r.value.side == (if want > have then Buy else Sell)
  {
    var delta := want - have;
    if delta == 0.0 || !Tradable(m.prices, s) || TooSmall(m, m.prices[s], Abs(delta), have) then None
    else if delta > 0.0 then DecideBuy(m, s, delta, cash)
    else DecideSell(m, s, -delta, have)
  }

  // ---------------------------------------------------------------- applying fills

  function CashAfter(cash: real, f: Fill): real {
    if f.side == Buy then cash - Outlay(f) else cash + Proceeds(f)
  }

  function HoldingAfter(have: real, f: Fill): real {
    if f.side == Buy then have + f.quantity else have - f.quantity
  }

  function Apply(st: Ledger, f: Fill): Ledger {
    Ledger(CashAfter(st.cash, f),
           Put(st.positions, f.symbol, HoldingAfter(st.positions.Get(f.symbol), f)),
           st.fills + [f],
           st.cost.Plus(f.cost),
           st.traded + f.price * f.quantity)
  }

  function Step(m: Market, desired: Dict, st: Ledger, s: Symbol): Ledger {
    match Decide(m, s, desired.Get(s), st.positions.Get(s), st.cash)
    case None => st
    case Some(f) => Apply(st, f)
  }

  /** The state after the first n orders. */
  function Orders(m: Market, desired: Dict, st: Ledger, ordered: seq<Symbol>, n: nat): Ledger
    requires n <= |ordered|
  {
    if n == 0 then st else Step(m, desired, Orders(m, desired, st, ordered, n - 1), ordered[n - 1])
  }

  function Opening(cash: real, positions: Dict): Ledger {
    Ledger(cash, positions, [], FREE, 0.0)
  }

  /** sorted(desired.items(), key=...): ascending by share delta, ties in dictionary order. */
  function OrderByDelta(desired: Dict, positions: Dict): seq<Symbol> {
    SortBy((s: Symbol) => Delta(desired, positions, s), desired.keys)
  }

  lemma OrderByDeltaIs(desired: Dict, positions: Dict)
    ensures var r := OrderByDelta(desired, positions);
            && Distinct(r)
            && (forall s :: s in r <==> s in desired.vals)
            && (forall i, j :: 0 <= i < j < |r| ==> Delta(desired, positions, r[i]) <= Delta(desired, positions, r[j]))
  {
    var rank := (s: Symbol) => Delta(desired, positions, s);
    var r := SortBy(rank, desired.keys);
    assert forall i, j :: 0 <= i < j < |r| ==> rank(r[i]) <= rank(r[j]);
  }

  /** Before the empty holdings are dropped. */
  function Traded(m: Market, cash: real, positions: Dict, targets: Dict): Ledger {
    var desired := Desired(m, targets, positions);
    var ordered := OrderByDelta(desired, positions);
    Orders(m, desired, Opening(cash, positions), ordered, |ordered|)
  }

  function Rebalanced(m: Market, cash: real, positions: Dict, targets: Dict): Ledger {
    var st := Traded(m, cash, positions, targets);
    st.(positions := KeepPositive(st.positions))
  }

  /** The body of _rebalance's loop for one symbol, up to the bookkeeping of the fill. */
  method TradeOne(m: Market, s: Symbol, want: real, have: real, cash: real) returns (fill: Option<Fill>)
    ensures fill == Decide(m, s, want, have, cash)
  {
    hide FillOf, Outlay, FillPrice, AffordableQuantity, TooSmall, NothingLeft;
    var delta := want - have;
    if delta == 0.0 || !Tradable(m.prices, s) {
      return None;
    }
    var ref := m.prices[s];
    var side := if delta > 0.0 then Buy else Sell;
    var qty := Abs(delta);
    if TooSmall(m, ref, qty, have) {
      return None;
    }
    var px := FillPrice(m.cfg, side, ref);
    if side == Buy {
      if Outlay(FillOf(m, s, side, qty, px)) > cash {
        qty := AffordableQuantity(m.cfg, px, cash);
        if NothingLeft(m.cfg, px, qty) {
          return None;
        }
      }
    } else {
      qty := Min(qty, have);
      if qty <= 0.0 {
        return None;
      }
    }
    return Some(FillOf(m, s, side, qty, px));
  }

  /** The `desired` dictionary: target share counts, then 0 for what is held but not targeted. */
  method DesiredShares(m: Market, targets: Dict, positions: Dict) returns (desired: Dict)
    ensures desired == Desired(m, targets, positions)
  {
    hide Want, Put, RawDict.Get, RawDict.Valid;
    desired := EMPTY;
    for i := 0 to |targets.keys|
      invariant desired == DesiredTargets(m, targets, i)
    {
      desired := Put(desired, targets.keys[i], Want(m, targets, targets.keys[i]));
    }
    for i := 0 to |positions.keys|
      invariant desired == DesiredHoldings(DesiredTargets(m, targets, |targets.keys|), positions, i)
    {
      var s := positions.keys[i];
      if s !in desired.vals {
        desired := Put(desired, s, 0.0);
      }
    }
  }

  /** Backtester._rebalance. */
  method Rebalance(m: Market, cash0: real, positions0: Dict, targets: Dict)
    returns (cash: real, positions: Dict, fills: seq<Fill>, batchCost: TradeCost, traded: real)
    ensures Ledger(cash, positions, fills, batchCost, traded) == Rebalanced(m, cash0, positions0, targets)
  {
    var desired := DesiredShares(m, targets, positions0);
    var ordered := OrderByDelta(desired, positions0);
    cash, positions, fills, batchCost, traded := cash0, positions0, [], FREE, 0.0;
    hide Decide, Outlay, Proceeds, Put, RawDict.Get, KeepPositive, Desired, OrderByDelta, TradeCost.Plus;
    for i := 0 to |ordered|
      invariant Ledger(cash, positions, fills, batchCost, traded)
             == Orders(m, desired, Opening(cash0, positions0), ordered, i)
    {
      var s := ordered[i];
      var have := positions.Get(s);
      var fill := TradeOne(m, s, desired.Get(s), have, cash);
      if fill == None {
        continue;
      }
      var f := fill.value;
      if f.side == Buy {
        cash := cash - Outlay(f);
        positions := Put(positions, s, have + f.quantity);
      } else {
        cash := cash + Proceeds(f);
        positions := Put(positions, s, have - f.quantity);
      }
      traded := traded + f.price * f.quantity;
      batchCost := batchCost.Plus(f.cost);
      fills := fills + [f];
    }
    positions := KeepPositive(positions);
  }
}
