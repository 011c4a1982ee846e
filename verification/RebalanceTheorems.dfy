/** The main results about one rebalance: no leverage, no overshoot, conservation, idempotence. */
module RebalanceTheorems {
  import opened RealFacts
  import opened OrderedDict
  import opened Sorting
  import opened Costs
  import opened Engine
  import opened RebalanceLaws

  // ---------------------------------------------------------------- no leverage

  /** Replaying any prefix of the fills leaves cash and every holding non-negative. */
  ghost predicate SolventThroughout(cash: real, positions: Dict, fills: seq<Fill>) {
    forall j :: 0 <= j <= |fills| ==> SolventAfter(cash, positions, fills[..j])
  }

  ghost predicate SolventAfter(cash: real, positions: Dict, fills: seq<Fill>) {
    CashReplay(cash, fills) >= 0.0 && forall s :: HoldingReplay(positions.Get(s), fills, s) >= 0.0
  }

  lemma SolventWithOneMore(cash: real, positions: Dict, fills: seq<Fill>, f: Fill)
    requires SolventThroughout(cash, positions, fills) && SolventAfter(cash, positions, fills + [f])
    ensures SolventThroughout(cash, positions, fills + [f])
  {
    hide SolventAfter;
    forall j | 0 <= j <= |fills + [f]| ensures SolventAfter(cash, positions, (fills + [f])[..j]) {
      if j <= |fills| {
        assert (fills + [f])[..j] == fills[..j];
      } else {
        assert (fills + [f])[..j] == fills + [f];
      }
    }
  }

  /** Every tradable symbol's sale is covered at these prices. */
  ghost predicate SalesCovered(cfg: Config, prices: Prices) {
    forall s :: Tradable(prices, s) ==> SaleCovered(cfg, s, prices[s])
  }

  lemma SaleKeepsCash(m: Market, s: Symbol, want: real, have: real, cash: real)
    requires m.cfg.Sound() && SalesCovered(m.cfg, m.prices) && want >= 0.0
    requires Decide(m, s, want, have, cash).Some? && want <= have
    ensures Proceeds(Decide(m, s, want, have, cash).value) >= 0.0
  {
    hide Decide, FillPrice, FillOf, SaleCovered, Proceeds, Config.Sound;
    DecideFacts(m, s, want, have, cash);
    CoveredSale(m, s, m.prices[s], have - want);
  }

  lemma {:induction false} OrdersStaySolvent(m: Market, desired: Dict, cash: real, positions: Dict, ordered: seq<Symbol>, n: nat)
    requires m.cfg.Sound() && SalesCovered(m.cfg, m.prices) && cash >= 0.0
    requires NonNegative(positions) && NonNegative(desired) && Distinct(ordered) && n <= |ordered|
    ensures SolventThroughout(cash, positions, Orders(m, desired, Opening(cash, positions), ordered, n).fills)
    ensures Orders(m, desired, Opening(cash, positions), ordered, n).cash >= 0.0
  {
    hide Decide, SolventThroughout, SalesCovered, FillOf, Proceeds, Outlay, Config.Sound, HoldingAfter;
    var st := Orders(m, desired, Opening(cash, positions), ordered, n);
    if n == 0 {
      assert SolventThroughout(cash, positions, []) by { NothingIsSolvent(cash, positions); }
    } else {
      OrdersStaySolvent(m, desired, cash, positions, ordered, n - 1);
      var before := Orders(m, desired, Opening(cash, positions), ordered, n - 1);
      var x := ordered[n - 1];
      var d := Decide(m, x, desired.Get(x), before.positions.Get(x), before.cash);
      if d.Some? {
        DecideFacts(m, x, desired.Get(x), before.positions.Get(x), before.cash);
        assert desired.Get(x) >= 0.0;
        if d.value.side == Sell { SaleKeepsCash(m, x, desired.Get(x), before.positions.Get(x), before.cash); }
        assert st.cash >= 0.0;
        assert SolventAfter(cash, positions, st.fills) by {
          OrdersReplay(m, desired, cash, positions, ordered, n);
          forall s ensures HoldingReplay(positions.Get(s), st.fills, s) >= 0.0 {
            OrdersApproach(m, desired, Opening(cash, positions), ordered, n, s);
          }
        }
        SolventWithOneMore(cash, positions, before.fills, d.value);
      }
    }
  }

  lemma NothingIsSolvent(cash: real, positions: Dict)
    requires cash >= 0.0 && NonNegative(positions)
    ensures SolventThroughout(cash, positions, [])
  {
    var none: seq<Fill> := [];
    assert none[..0] == none;
    assert SolventAfter(cash, positions, none);
  }

  // ---------------------------------------------------------------- sells first, one trade per symbol

  ghost predicate SellsThenBuys(fills: seq<Fill>) {
    forall i, j :: 0 <= i < j < |fills| ==> fills[i].symbol != fills[j].symbol && (fills[i].side == Buy ==> fills[j].side == Buy)
  }

  ghost predicate InDeltaOrder(desired: Dict, positions: Dict, ordered: seq<Symbol>) {
    forall i, j :: 0 <= i < j < |ordered| ==> Delta(desired, positions, ordered[i]) <= Delta(desired, positions, ordered[j])
  }

  /** The fills so far come from the orders so far, on the side their share delta says. */
  ghost predicate FromOrders(desired: Dict, positions: Dict, ordered: seq<Symbol>, fills: seq<Fill>) {
    forall f :: f in fills ==> f.symbol in ordered && (f.side == Buy <==> Delta(desired, positions, f.symbol) > 0.0)
  }

  lemma OneMoreFill(desired: Dict, positions: Dict, ordered: seq<Symbol>, n: nat, fills: seq<Fill>, f: Fill)
    requires n < |ordered| && f.symbol == ordered[n]
    requires Distinct(ordered) && InDeltaOrder(desired, positions, ordered)
    requires SellsThenBuys(fills) && FromOrders(desired, positions, ordered[..n], fills)
    requires f.side == Buy <==> Delta(desired, positions, f.symbol) > 0.0
    ensures SellsThenBuys(fills + [f]) && FromOrders(desired, positions, ordered[..n + 1], fills + [f])
  {
    hide Delta;
    assert ordered[..n + 1] == ordered[..n] + [ordered[n]];
    forall g | g in fills ensures g.symbol != f.symbol && (g.side == Buy ==> f.side == Buy) {
      var i :| 0 <= i < n && ordered[i] == g.symbol;
    }
  }

  lemma {:induction false} OrdersSellFirst(m: Market, desired: Dict, cash: real, positions: Dict, ordered: seq<Symbol>, n: nat)
    requires Distinct(ordered) && InDeltaOrder(desired, positions, ordered) && n <= |ordered|
    ensures SellsThenBuys(Orders(m, desired, Opening(cash, positions), ordered, n).fills)
    ensures FromOrders(desired, positions, ordered[..n], Orders(m, desired, Opening(cash, positions), ordered, n).fills)
  {
    hide Decide, CashAfter, HoldingAfter, TradeCost.Plus, InDeltaOrder, Distinct, SellsThenBuys, FromOrders, Put, RawDict.Valid, RawDict.Get;
    if n == 0 {
      NoFillsYet(desired, positions);
    } else {
      OrdersSellFirst(m, desired, cash, positions, ordered, n - 1);
      var before := Orders(m, desired, Opening(cash, positions), ordered, n - 1);
      var x := ordered[n - 1];
      assert ordered[..n] == ordered[..n - 1] + [x];
      assert x !in ordered[..n - 1] by { NewInDistinct(ordered, n - 1); }
      OrdersTouch(m, desired, Opening(cash, positions), ordered, n - 1, x);
      var d := Decide(m, x, desired.Get(x), before.positions.Get(x), before.cash);
      if d.Some? {
        OneMoreFill(desired, positions, ordered, n - 1, before.fills, d.value);
      } else {
        OneMoreOrder(desired, positions, ordered, n - 1, before.fills);
      }
    }
  }

  lemma NoFillsYet(desired: Dict, positions: Dict)
    ensures SellsThenBuys([]) && FromOrders(desired, positions, [], [])
  {
  }

  lemma OneMoreOrder(desired: Dict, positions: Dict, ordered: seq<Symbol>, n: nat, fills: seq<Fill>)
    requires n < |ordered| && FromOrders(desired, positions, ordered[..n], fills)
    ensures FromOrders(desired, positions, ordered[..n + 1], fills)
  {
    assert ordered[..n + 1] == ordered[..n] + [ordered[n]];
  }

  lemma NewInDistinct(ss: seq<Symbol>, n: nat)
    requires Distinct(ss) && n < |ss|
    ensures ss[n] !in ss[..n]
  {
  }

  // ---------------------------------------------------------------- whole shares

  ghost predicate WholeHoldings(d: Dict) {
    forall s :: IsWhole(d.Get(s))
  }

  lemma {:induction false} OrdersStayWhole(m: Market, desired: Dict, st: Ledger, ordered: seq<Symbol>, n: nat)
    requires m.cfg.Sound() && !m.cfg.Fractional() && n <= |ordered|
    requires WholeHoldings(st.positions) && WholeHoldings(desired)
    requires forall f :: f in st.fills ==> IsWhole(f.quantity)
    ensures WholeHoldings(Orders(m, desired, st, ordered, n).positions)
    ensures forall f :: f in Orders(m, desired, st, ordered, n).fills ==> IsWhole(f.quantity)
  {
    hide Decide, IsWhole, CashAfter, HoldingAfter, Put, RawDict.Get;
    if n > 0 {
      OrdersStayWhole(m, desired, st, ordered, n - 1);
      var before := Orders(m, desired, st, ordered, n - 1);
      var x := ordered[n - 1];
      var d := Decide(m, x, desired.Get(x), before.positions.Get(x), before.cash);
      if d.Some? {
        FillIsWhole(m, x, desired.Get(x), before.positions.Get(x), before.cash);
        HoldingStaysWhole(before.positions.Get(x), d.value);
        PutGet(before.positions, x, HoldingAfter(before.positions.Get(x), d.value));
      }
    }
  }

  lemma HoldingStaysWhole(have: real, f: Fill)
    requires IsWhole(have) && IsWhole(f.quantity)
    ensures IsWhole(HoldingAfter(have, f))
  {
    hide IsWhole;
    WholeSum(have, f.quantity);
  }

  lemma FillIsWhole(m: Market, s: Symbol, want: real, have: real, cash: real)
    requires m.cfg.Sound() && !m.cfg.Fractional() && IsWhole(want) && IsWhole(have)
    requires Decide(m, s, want, have, cash).Some?
    ensures IsWhole(Decide(m, s, want, have, cash).value.quantity)
  {
    hide IsWhole, FillPrice, Outlay, TooSmall, NothingLeft, AffordablePrice;
    DecideFacts(m, s, want, have, cash);
    WholeSum(want, have);
    WholeSum(have, want);
    if want > have {
      WholeAffordable(m.cfg, FillPrice(m.cfg, Buy, m.prices[s]), cash);
    }
  }

  lemma WholeAffordable(cfg: Config, px: real, cash: real)
    requires !cfg.Fractional()
    ensures IsWhole(AffordableQuantity(cfg, px, cash))
  {
    var perShare := AffordablePrice(cfg, px);
    WholeOfInt(Truncate(if perShare > 0.0 then cash / perShare else 0.0));
  }

  lemma WantIsWhole(m: Market, targets: Dict, s: Symbol)
    requires !m.cfg.Fractional()
    ensures IsWhole(Want(m, targets, s))
  {
    WholeOfInt(0);
    if s in targets.vals && Tradable(m.prices, s) {
      WholeOfInt(Truncate(m.equity * targets.vals[s] / m.prices[s]));
    }
  }

  // ---------------------------------------------------------------- idempotence

  lemma FreeIsSound(cfg: Config)
    requires cfg.costs.CostsNothing()
    ensures cfg.Sound() && cfg.costs.SlippageRate(cfg.country) == 0.0
  {
  }

  /** Without costs a fill is at the reference price and moves price * quantity and no more. */
  lemma FreeFill(m: Market, s: Symbol, side: Side, q: real)
    requires m.cfg.costs.CostsNothing() && Tradable(m.prices, s)
    ensures FillPrice(m.cfg, side, m.prices[s]) == m.prices[s]
    ensures AffordablePrice(m.cfg, m.prices[s]) == m.prices[s]
    ensures var f := FillOf(m, s, side, q, m.prices[s]); Outlay(f) == m.prices[s] * q == Proceeds(f)
  {
    hide CostModel.CostOn;
    NothingCostsNothing(m.cfg.costs, side, m.cfg.country, Abs(m.prices[s] * q), q, s in m.cfg.etfSymbols);
  }

  lemma TruncateMono(x: real, y: real)
    requires x <= y
    ensures Truncate(x) <= Truncate(y)
  {
  }

  /** An order that was not placed is not placed with less cash either. */
  lemma QuietWithLessCash(m: Market, s: Symbol, want: real, have: real, cash: real, less: real)
    requires m.cfg.costs.CostsNothing() && less <= cash
    requires Decide(m, s, want, have, cash).None?
    ensures Decide(m, s, want, have, less).None?
  {
    hide FillPrice, FillOf, Outlay, TooSmall, CostModel.CostsNothing, AffordablePrice, AffordableQuantity, NothingLeft;
    if Tradable(m.prices, s) && want > have && Decide(m, s, want, have, less).Some? {
      var px := m.prices[s];
      FreeFill(m, s, Buy, want - have);
      AffordableMono(m.cfg, px, less, cash);
      LessIsNothing(m.cfg, px, AffordableQuantity(m.cfg, px, less), AffordableQuantity(m.cfg, px, cash));
    }
  }

  lemma AffordableMono(cfg: Config, px: real, less: real, cash: real)
    requires less <= cash && px > 0.0 && AffordablePrice(cfg, px) == px
    ensures AffordableQuantity(cfg, px, less) <= AffordableQuantity(cfg, px, cash)
  {
    hide AffordablePrice, Truncate;
    DivMono(less, cash, px);
    TruncateMono(less / px, cash / px);
  }

  lemma LessIsNothing(cfg: Config, px: real, less: real, qty: real)
    requires px > 0.0 && less <= qty && NothingLeft(cfg, px, qty)
    ensures NothingLeft(cfg, px, less)
  {
    MulMono(px, less, qty);
  }

  lemma SellingSettles(m: Market, s: Symbol, want: real, have: real, cash: real, later: real)
    requires m.cfg.Sound() && Decide(m, s, want, have, cash).Some? && want <= have
    ensures Decide(m, s, want, HoldingAfter(have, Decide(m, s, want, have, cash).value), later).None?
  {
    hide FillPrice, FillOf, Outlay, TooSmall, Config.Sound;
    DecideFacts(m, s, want, have, cash);
  }

  /** What is left after buying as much as cash allows buys nothing more. */
  lemma RestBuysNothing(m: Market, s: Symbol, want: real, have: real, rest: real)
    requires m.cfg.costs.CostsNothing() && Tradable(m.prices, s) && want > have
    requires if m.cfg.Fractional() then rest == 0.0 else 0.0 <= rest < m.prices[s] && want - have >= 1.0
    ensures Decide(m, s, want, have, rest).None?
  {
    hide FillPrice, FillOf, Outlay, TooSmall, CostModel.CostsNothing, AffordablePrice;
    var px := m.prices[s];
    FreeFill(m, s, Buy, want - have);
    MulPositive(px, want - have);
    if m.cfg.Fractional() {
      assert 0.0 / px == 0.0;
    } else {
      MulMono(px, 1.0, want - have);
      BelowOne(rest, px);
    }
  }

  lemma FloorLeaves(cash: real, px: real, q: real)
    requires px > 0.0 && cash >= 0.0 && q == Truncate(cash / px) as real
    ensures 0.0 <= cash - px * q < px
  {
    var x := cash / px;
    QuotientTimes(cash, px);
    WithinOneUnit(x, px, q, cash);
  }

  /** A purchase, in full or scaled down, leaves nothing for a second look to do. */
  lemma BuyingSettles(m: Market, s: Symbol, want: real, have: real, cash: real)
    requires m.cfg.costs.CostsNothing() && Decide(m, s, want, have, cash).Some? && want > have
    requires !m.cfg.Fractional() ==> IsWhole(want) && IsWhole(have)
    ensures var f := Decide(m, s, want, have, cash).value;
            Decide(m, s, want, HoldingAfter(have, f), CashAfter(cash, f)).None?
  {
    hide FillPrice, CostModel.CostOf, Outlay, TooSmall, CostModel.CostsNothing, AffordableQuantity, IsWhole, NothingLeft;
    FreeIsSound(m.cfg);
    DecideFacts(m, s, want, have, cash);
    var f := Decide(m, s, want, have, cash).value;
    FreeFill(m, s, Buy, want - have);
    FreeFill(m, s, Buy, f.quantity);
    assert HoldingAfter(have, f) == have + f.quantity && CashAfter(cash, f) == cash - m.prices[s] * f.quantity;
    if f.quantity < want - have {
      assert f.quantity == AffordableQuantity(m.cfg, m.prices[s], cash);
      hide Decide, FillOf;
      if !m.cfg.Fractional() { FillIsWhole(m, s, want, have, cash); }
      ScaledBuySettles(m, s, want, have, cash, f.quantity, CashAfter(cash, f));
    } else {
      OnTargetIsQuiet(m, s, want, CashAfter(cash, f));
    }
  }

  lemma OnTargetIsQuiet(m: Market, s: Symbol, want: real, cash: real)
    ensures Decide(m, s, want, want, cash).None?
  {
  }

  lemma AffordableIs(cfg: Config, px: real, cash: real)
    requires px > 0.0 && AffordablePrice(cfg, px) == px
    ensures AffordableQuantity(cfg, px, cash) == if cfg.Fractional() then cash / px else Truncate(cash / px) as real
  {
    hide AffordablePrice, Truncate;
  }

  /** As much as cash affords, when that is less than the gap, leaves nothing a second look would buy. */
  lemma ScaledBuySettles(m: Market, s: Symbol, want: real, have: real, cash: real, q: real, left: real)
    requires m.cfg.costs.CostsNothing() && Tradable(m.prices, s) && 0.0 < q < want - have && left == cash - m.prices[s] * q
    requires q == AffordableQuantity(m.cfg, m.prices[s], cash)
    requires !m.cfg.Fractional() ==> IsWhole(want) && IsWhole(have) && IsWhole(q)
    ensures Decide(m, s, want, have + q, left).None?
  {
    hide CostModel.CostsNothing, Decide, IsWhole, Truncate, AffordablePrice, AffordableQuantity, FillOf, FillPrice, Outlay, Proceeds;
    var px := m.prices[s];
    FreeFill(m, s, Buy, q);
    AffordableIs(m.cfg, px, cash);
    if m.cfg.Fractional() {
      QuotientTimes(cash, px);
    } else {
      WholeSum(have, q);
      WholesApart(have + q, want);
      AffordsOnlyWithCash(cash, px, q);
      FloorLeaves(cash, px, q);
    }
    RestBuysNothing(m, s, want, have + q, left);
  }

  lemma AffordsOnlyWithCash(cash: real, px: real, q: real)
    requires px > 0.0 && q > 0.0 && q == Truncate(cash / px) as real
    ensures cash >= 0.0
  {
    QuotientTimes(cash, px);
  }

  ghost predicate Settled(m: Market, desired: Dict, st: Ledger, ss: seq<Symbol>) {
    forall s :: s in ss ==> Decide(m, s, desired.Get(s), st.positions.Get(s), st.cash).None?
  }

  lemma SoldIsIndifferentToCash(m: Market, s: Symbol, want: real, have: real, cash: real, other: real)
    requires want <= have && Decide(m, s, want, have, cash).None?
    ensures Decide(m, s, want, have, other).None?
  {
  }

  /** After n orders, every symbol looked at so far would be left alone if looked at again. */
  lemma {:induction false} OrdersSettle(m: Market, desired: Dict, cash: real, positions: Dict, ordered: seq<Symbol>, n: nat)
    requires m.cfg.costs.CostsNothing() && NonNegative(positions) && n <= |ordered|
    requires Distinct(ordered) && InDeltaOrder(desired, positions, ordered)
    requires !m.cfg.Fractional() ==> WholeHoldings(positions) && WholeHoldings(desired)
    ensures Settled(m, desired, Orders(m, desired, Opening(cash, positions), ordered, n), ordered[..n])
  {
    hide Decide, Put, CashAfter, HoldingAfter, InDeltaOrder, Distinct, CostModel.CostsNothing, TradeCost.Plus, WholeHoldings, Between, Tradable, RawDict.Valid, RawDict.Get;
    if n > 0 {
      OrdersSettle(m, desired, cash, positions, ordered, n - 1);
      var before := Orders(m, desired, Opening(cash, positions), ordered, n - 1);
      var now := Orders(m, desired, Opening(cash, positions), ordered, n);
      var x := ordered[n - 1];
      assert ordered[..n] == ordered[..n - 1] + [x];
      forall s | s in ordered[..n]
        ensures Decide(m, s, desired.Get(s), now.positions.Get(s), now.cash).None?
      {
        if s == x {
          LastSettles(m, desired, cash, positions, ordered, n);
        } else {
          EarlierStaySettled(m, desired, cash, positions, ordered, n, s);
        }
      }
    }
  }

  lemma LastSettles(m: Market, desired: Dict, cash: real, positions: Dict, ordered: seq<Symbol>, n: nat)
    requires m.cfg.costs.CostsNothing() && NonNegative(positions) && 0 < n <= |ordered| && Distinct(ordered)
    requires !m.cfg.Fractional() ==> WholeHoldings(positions) && WholeHoldings(desired)
    ensures var now := Orders(m, desired, Opening(cash, positions), ordered, n); var x := ordered[n - 1];
            Decide(m, x, desired.Get(x), now.positions.Get(x), now.cash).None?
  {
    hide Decide, CashAfter, HoldingAfter, CostModel.CostsNothing, TradeCost.Plus, IsWhole;
    var before := Orders(m, desired, Opening(cash, positions), ordered, n - 1);
    var x := ordered[n - 1];
    var want, have := desired.Get(x), before.positions.Get(x);
    NewInDistinct(ordered, n - 1);
    OrdersTouch(m, desired, Opening(cash, positions), ordered, n - 1, x);
    var d := Decide(m, x, want, have, before.cash);
    FreeIsSound(m.cfg);
    if d.Some? {
      if want > have { BuyingSettles(m, x, want, have, before.cash); }
      else { SellingSettles(m, x, want, have, before.cash, CashAfter(before.cash, d.value)); }
    }
  }

  /** Filling x's order cannot wake s, if x buys whenever s still waits to buy. */
  lemma QuietThroughFill(m: Market, s: Symbol, want: real, have: real, x: Symbol, wantX: real, haveX: real, cash: real)
    requires m.cfg.costs.CostsNothing() && (want > have ==> wantX > haveX)
    requires Decide(m, s, want, have, cash).None? && Decide(m, x, wantX, haveX, cash).Some?
    ensures Decide(m, s, want, have, CashAfter(cash, Decide(m, x, wantX, haveX, cash).value)).None?
  {
    hide Decide, Outlay, Proceeds, FillOf, FillPrice, CostModel.CostsNothing, TooSmall;
    FreeIsSound(m.cfg);
    var f := Decide(m, x, wantX, haveX, cash).value;
    if want <= have {
      SoldIsIndifferentToCash(m, s, want, have, cash, CashAfter(cash, f));
    } else {
      DecideFacts(m, x, wantX, haveX, cash);
      PurchaseCosts(m, x, f.quantity);
      QuietWithLessCash(m, s, want, have, cash, CashAfter(cash, f));
    }
  }

  lemma PurchaseCosts(m: Market, s: Symbol, q: real)
    requires m.cfg.costs.CostsNothing() && Tradable(m.prices, s) && q > 0.0
    ensures Outlay(FillOf(m, s, Buy, q, FillPrice(m.cfg, Buy, m.prices[s]))) >= 0.0
  {
    hide Outlay, FillOf, FillPrice, CostModel.CostsNothing;
    FreeFill(m, s, Buy, q);
    MulPositive(m.prices[s], q);
  }

  lemma EarlierStaySettled(m: Market, desired: Dict, cash: real, positions: Dict, ordered: seq<Symbol>, n: nat, s: Symbol)
    requires m.cfg.costs.CostsNothing() && NonNegative(positions) && 0 < n <= |ordered|
    requires Distinct(ordered) && InDeltaOrder(desired, positions, ordered) && s in ordered[..n - 1]
    requires var before := Orders(m, desired, Opening(cash, positions), ordered, n - 1);
             Decide(m, s, desired.Get(s), before.positions.Get(s), before.cash).None?
    ensures var now := Orders(m, desired, Opening(cash, positions), ordered, n);
            Decide(m, s, desired.Get(s), now.positions.Get(s), now.cash).None?
  {
    hide Decide, CashAfter, HoldingAfter, CostModel.CostsNothing, TradeCost.Plus, InDeltaOrder, Put, NonNegative;
    var st := Opening(cash, positions);
    var before := Orders(m, desired, st, ordered, n - 1);
    var x := ordered[n - 1];
    NewInDistinct(ordered, n - 1);
    EarlierBuysImplyBuy(m, desired, st, ordered, n, s);
    hide Orders;
    StepLeavesOthers(m, desired, before, x, s);
    if Decide(m, x, desired.Get(x), before.positions.Get(x), before.cash).Some? {
      QuietThroughFill(m, s, desired.Get(s), before.positions.Get(s), x, desired.Get(x), before.positions.Get(x), before.cash);
    }
  }

  /** Whenever an earlier symbol still waits to buy, the one now looked at buys too: it wants more. */
  lemma EarlierBuysImplyBuy(m: Market, desired: Dict, st: Ledger, ordered: seq<Symbol>, n: nat, s: Symbol)
    requires m.cfg.costs.CostsNothing() && NonNegative(st.positions) && 0 < n <= |ordered|
    requires Distinct(ordered) && InDeltaOrder(desired, st.positions, ordered) && s in ordered[..n - 1]
    ensures var before := Orders(m, desired, st, ordered, n - 1); var x := ordered[n - 1];
            desired.Get(s) > before.positions.Get(s) ==> desired.Get(x) > before.positions.Get(x)
  {
    hide Orders, CostModel.CostsNothing;
    var x := ordered[n - 1];
    FreeIsSound(m.cfg);
    NewInDistinct(ordered, n - 1);
    OrdersTouch(m, desired, st, ordered, n - 1, x);
    OrdersApproach(m, desired, st, ordered, n - 1, s);
    var i :| 0 <= i < n - 1 && ordered[i] == s;
    assert Delta(desired, st.positions, ordered[i]) <= Delta(desired, st.positions, ordered[n - 1]);
  }

  // ---------------------------------------------------------------- the whole rebalance

  lemma PlanFacts(m: Market, positions: Dict, targets: Dict)
    ensures var desired := Desired(m, targets, positions); var ordered := OrderByDelta(desired, positions);
            && Distinct(ordered) && InDeltaOrder(desired, positions, ordered)
            && (forall s :: s in ordered <==> s in targets.vals || s in positions.vals)
            && (forall s :: desired.Get(s) == Want(m, targets, s))
  {
    hide Want, Desired;
    DesiredIs(m, targets, positions);
    OrderByDeltaIs(Desired(m, targets, positions), positions);
  }

  /**
   Sells precede buys, no symbol trades twice, and every holding ends between where it was and
   where it is wanted: what is not targeted only shrinks, what has no price is untouched, and no
   holding goes below zero.
   */
  lemma NeverOvershoots(m: Market, cash: real, positions: Dict, targets: Dict)
    requires m.cfg.Sound() && NonNegative(positions)
    ensures SellsThenBuys(Rebalanced(m, cash, positions, targets).fills)
    ensures forall s :: var now := Rebalanced(m, cash, positions, targets).positions.Get(s);
              && now >= 0.0
              && Between(positions.Get(s), now, Want(m, targets, s))
              && (s !in targets.vals ==> now <= positions.Get(s))
              && (!Tradable(m.prices, s) ==> now == positions.Get(s))
  {
    hide Want, Desired, OrderByDelta, Config.Sound, KeepPositive;
    var desired := Desired(m, targets, positions);
    var ordered := OrderByDelta(desired, positions);
    PlanFacts(m, positions, targets);
    OrdersSellFirst(m, desired, cash, positions, ordered, |ordered|);
    forall s
      ensures var now := Rebalanced(m, cash, positions, targets).positions.Get(s);
              && now >= 0.0
              && Between(positions.Get(s), now, Want(m, targets, s))
              && (s !in targets.vals ==> now <= positions.Get(s))
              && (!Tradable(m.prices, s) ==> now == positions.Get(s))
    {
      OrdersApproach(m, desired, Opening(cash, positions), ordered, |ordered|, s);
      assert positions.Get(s) >= 0.0;
      if s !in targets.vals { assert Want(m, targets, s) == 0.0 by { UntargetedIsUnwanted(m, targets, s); } }
    }
  }

  lemma UntargetedIsUnwanted(m: Market, targets: Dict, s: Symbol)
    requires s !in targets.vals
    ensures Want(m, targets, s) == 0.0
  {
  }

  /**
   Equity at the open falls by exactly the batch cost plus what the fills lost to slippage, and the
   fills account for every change of cash, holdings and cost.
   */
  lemma RebalanceConserves(m: Market, cash: real, positions: Dict, targets: Dict)
    requires m.cfg.Sound() && NonNegative(positions)
    ensures var r := Rebalanced(m, cash, positions, targets);
            && Equity(r.cash, r.positions, m.prices)
               == Equity(cash, positions, m.prices) - r.cost.Total() - SlippagePaid(m.prices, r.fills)
            && r.cash == CashReplay(cash, r.fills)
            && r.cost == CostReplay(FREE, r.fills)
            && forall s :: r.positions.Get(s) == HoldingReplay(positions.Get(s), r.fills, s)
  {
    hide Want, Desired, OrderByDelta, Config.Sound, KeepPositive, Worth, SlippagePaid, Between, Tradable;
    var desired := Desired(m, targets, positions);
    var ordered := OrderByDelta(desired, positions);
    var st := Traded(m, cash, positions, targets);
    PlanFacts(m, positions, targets);
    OrdersConserve(m, desired, Opening(cash, positions), ordered, |ordered|);
    OrdersReplay(m, desired, cash, positions, ordered, |ordered|);
    forall s ensures st.positions.Get(s) >= 0.0 {
      OrdersApproach(m, desired, Opening(cash, positions), ordered, |ordered|, s);
    }
    WorthOfKeepPositive(st.positions, m.prices);
    assert SlippagePaid(m.prices, []) == 0.0 by { NoFillsNoSlippage(m.prices); }
  }

  lemma NoFillsNoSlippage(prices: Prices)
    ensures SlippagePaid(prices, []) == 0.0
  {
  }

  lemma WantIsNonNegative(m: Market, targets: Dict, s: Symbol)
    requires m.equity >= 0.0
    ensures Want(m, targets, s) >= 0.0
  {
    if s in targets.vals && Tradable(m.prices, s) && targets.vals[s] > 0.0 {
      MulNonNegative(m.equity, targets.vals[s]);
      QuotientTimes(m.equity * targets.vals[s], m.prices[s]);
      TruncateIsBelow(m.equity * targets.vals[s] / m.prices[s]);
    }
  }

  /** No leverage: if sales are covered at these prices, no fill ever takes cash or a holding below zero. */
  lemma RebalanceStaysSolvent(m: Market, cash: real, positions: Dict, targets: Dict)
    requires m.cfg.Sound() && SalesCovered(m.cfg, m.prices) && NonNegative(positions)
    requires cash >= 0.0 && m.equity >= 0.0
    ensures SolventThroughout(cash, positions, Rebalanced(m, cash, positions, targets).fills)
    ensures Rebalanced(m, cash, positions, targets).cash >= 0.0
  {
    hide Want, Desired, OrderByDelta, Config.Sound, KeepPositive, SalesCovered, SolventThroughout;
    var desired := Desired(m, targets, positions);
    var ordered := OrderByDelta(desired, positions);
    PlanFacts(m, positions, targets);
    forall s ensures desired.Get(s) >= 0.0 { WantIsNonNegative(m, targets, s); }
    OrdersStaySolvent(m, desired, cash, positions, ordered, |ordered|);
  }

  /** Whole-share books stay whole, and so is every quantity traded. */
  lemma RebalanceStaysWhole(m: Market, cash: real, positions: Dict, targets: Dict)
    requires m.cfg.Sound() && !m.cfg.Fractional() && WholeHoldings(positions)
    ensures WholeHoldings(Rebalanced(m, cash, positions, targets).positions)
    ensures forall f :: f in Rebalanced(m, cash, positions, targets).fills ==> IsWhole(f.quantity)
  {
    hide Want, Desired, OrderByDelta, Config.Sound, IsWhole;
    var desired := Desired(m, targets, positions);
    var ordered := OrderByDelta(desired, positions);
    PlanFacts(m, positions, targets);
    forall s ensures IsWhole(desired.Get(s)) { WantIsWhole(m, targets, s); }
    OrdersStayWhole(m, desired, Opening(cash, positions), ordered, |ordered|);
    forall s ensures IsWhole(Rebalanced(m, cash, positions, targets).positions.Get(s)) {
      assert IsWhole(Traded(m, cash, positions, targets).positions.Get(s));
      WholeOfInt(0);
    }
  }

  lemma {:induction false} SettledOrdersDoNothing(m: Market, desired: Dict, st: Ledger, ordered: seq<Symbol>, n: nat)
    requires n <= |ordered| && Settled(m, desired, st, ordered)
    ensures Orders(m, desired, st, ordered, n) == st
  {
    if n > 0 { SettledOrdersDoNothing(m, desired, st, ordered, n - 1); }
  }

  /**
   With nothing to pay, rebalancing again at the same prices and targets trades nothing, whatever
   the first pass skipped as dust, left inside the band, or scaled down to the cash it had, and
   although the second pass looks at the symbols in another order.
   */
  lemma RebalanceIsIdempotent(m: Market, cash: real, positions: Dict, targets: Dict)
    requires m.cfg.costs.CostsNothing() && NonNegative(positions)
    requires m.equity == Equity(cash, positions, m.prices)
    requires !m.cfg.Fractional() ==> WholeHoldings(positions)
    ensures var r := Rebalanced(m, cash, positions, targets);
            var again := m.(equity := Equity(r.cash, r.positions, m.prices));
            && again == m
            && Rebalanced(again, r.cash, r.positions, targets).fills == []
            && Rebalanced(again, r.cash, r.positions, targets).cash == r.cash
            && forall s :: Rebalanced(again, r.cash, r.positions, targets).positions.Get(s) == r.positions.Get(s)
  {
    hide Want, Desired, OrderByDelta, Decide, CostModel.CostsNothing, InDeltaOrder, WholeHoldings, Between;
    FreeIsSound(m.cfg);
    var r, st := Rebalanced(m, cash, positions, targets), Traded(m, cash, positions, targets);
    FreeRebalanceKeepsEquity(m, cash, positions, targets);
    var desired := Desired(m, targets, positions);
    var ordered := OrderByDelta(desired, positions);
    PlanFacts(m, positions, targets);
    assert !m.cfg.Fractional() ==> WholeHoldings(desired) by { WholeDesired(m, targets, positions); }
    OrdersSettle(m, desired, cash, positions, ordered, |ordered|);
    assert ordered[..|ordered|] == ordered;
    var desired2 := Desired(m, targets, r.positions);
    var ordered2 := OrderByDelta(desired2, r.positions);
    PlanFacts(m, r.positions, targets);
    NeverOvershoots(m, cash, positions, targets);
    forall s | s in ordered2 ensures Decide(m, s, desired2.Get(s), r.positions.Get(s), r.cash).None? {
      assert st.positions.Get(s) == r.positions.Get(s) by { OrdersApproach(m, desired, Opening(cash, positions), ordered, |ordered|, s); }
      assert s in ordered;
    }
    SettledOrdersDoNothing(m, desired2, Opening(r.cash, r.positions), ordered2, |ordered2|);
  }

  lemma WholeDesired(m: Market, targets: Dict, positions: Dict)
    ensures !m.cfg.Fractional() ==> WholeHoldings(Desired(m, targets, positions))
  {
    hide Want, Desired, IsWhole;
    DesiredIs(m, targets, positions);
    if !m.cfg.Fractional() {
      forall s ensures IsWhole(Desired(m, targets, positions).Get(s)) { WantIsWhole(m, targets, s); }
    }
  }

  lemma FreeFillAdds(m: Market, s: Symbol, side: Side, q: real, fills: seq<Fill>)
    requires m.cfg.costs.CostsNothing() && Tradable(m.prices, s)
    ensures var f := FillOf(m, s, side, q, FillPrice(m.cfg, side, m.prices[s]));
            f.cost == FREE && SlippagePaid(m.prices, fills + [f]) == SlippagePaid(m.prices, fills)
  {
    hide CostModel.CostOf, FillPrice, CostModel.CostsNothing;
    FreeFill(m, s, side, q);
    FreeCost(m, s, side, q);
    var f := FillOf(m, s, side, q, m.prices[s]);
    assert (fills + [f])[..|fills|] == fills;
  }

  lemma {:induction false} FreeFillsLoseNothing(m: Market, desired: Dict, cash: real, positions: Dict, ordered: seq<Symbol>, n: nat)
    requires m.cfg.costs.CostsNothing() && n <= |ordered|
    ensures var st := Orders(m, desired, Opening(cash, positions), ordered, n);
            st.cost == FREE && SlippagePaid(m.prices, st.fills) == 0.0
  {
    hide Step, SlippagePaid, CostModel.CostsNothing, RawDict.Valid;
    if n == 0 {
      NoFillsNoSlippage(m.prices);
    } else {
      FreeFillsLoseNothing(m, desired, cash, positions, ordered, n - 1);
      FreeStepLosesNothing(m, desired, Orders(m, desired, Opening(cash, positions), ordered, n - 1), ordered[n - 1]);
    }
  }

  lemma FreeStepLosesNothing(m: Market, desired: Dict, st: Ledger, s: Symbol)
    requires m.cfg.costs.CostsNothing() && st.cost == FREE && SlippagePaid(m.prices, st.fills) == 0.0
    ensures Step(m, desired, st, s).cost == FREE && SlippagePaid(m.prices, Step(m, desired, st, s).fills) == 0.0
  {
    hide Decide, CashAfter, HoldingAfter, FillOf, FillPrice, CostModel.CostsNothing, TooSmall, Outlay, SlippagePaid, Put, RawDict.Get, RawDict.Valid;
    FreeIsSound(m.cfg);
    var d := Decide(m, s, desired.Get(s), st.positions.Get(s), st.cash);
    if d.Some? {
      DecideFacts(m, s, desired.Get(s), st.positions.Get(s), st.cash);
      FreeFillAdds(m, s, d.value.side, d.value.quantity, st.fills);
    }
  }

  lemma FreeCost(m: Market, s: Symbol, side: Side, q: real)
    requires m.cfg.costs.CostsNothing() && Tradable(m.prices, s)
    ensures FillOf(m, s, side, q, m.prices[s]).cost == FREE
  {
    hide CostModel.CostOn;
    NothingCostsNothing(m.cfg.costs, side, m.cfg.country, Abs(m.prices[s] * q), q, s in m.cfg.etfSymbols);
  }

  lemma FreeRebalanceKeepsEquity(m: Market, cash: real, positions: Dict, targets: Dict)
    requires m.cfg.costs.CostsNothing() && NonNegative(positions)
    ensures var r := Rebalanced(m, cash, positions, targets);
            Equity(r.cash, r.positions, m.prices) == Equity(cash, positions, m.prices)
  {
    hide Desired, OrderByDelta, Equity, SlippagePaid, CostModel.CostsNothing, KeepPositive;
    FreeIsSound(m.cfg);
    RebalanceConserves(m, cash, positions, targets);
    var desired := Desired(m, targets, positions);
    var ordered := OrderByDelta(desired, positions);
    FreeFillsLoseNothing(m, desired, cash, positions, ordered, |ordered|);
  }
}
