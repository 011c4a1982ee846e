/** What a rebalance is for: every position reaches its target, or one of four reasons says why not. */
module TrackingTheorems {
  import opened Wrappers
  import opened RealFacts
  import opened OrderedDict
  import opened Sorting
  import opened Costs
  import opened Engine
  import opened RebalanceLaws
  import opened RebalanceTheorems

  // ---------------------------------------------------------------- the terms of trade

  /** What a configuration trades on: slippage in basis points, commission, spread, the smallest order, and whether
      shares are divisible. */
  datatype Terms = Terms(bps: real, commission: real, spread: real, smallest: real, divisible: bool)

  function TermsOf(cfg: Config): Terms {
    match cfg.country
    case KR =>
      Terms(cfg.costs.slippageBpsKr, cfg.costs.krCommission, 0.0,
            if cfg.minOrderValue.Some? then cfg.minOrderValue.value else 5000.0, cfg.allowFractional == Some(true))
    case US =>
      Terms(cfg.costs.slippageBpsUs, cfg.costs.usCommission, if cfg.costs.chargeFx then cfg.costs.fxSpread else 0.0,
            if cfg.minOrderValue.Some? then cfg.minOrderValue.value else 5.0, cfg.allowFractional != Some(false))
  }

  /** A purchase is filled above, and a sale below, its reference by the slippage. */
  function Slipped(t: Terms, side: Side, ref: real): real {
    if side == Buy then ref + ref * t.bps / 10000.0 else ref - ref * t.bps / 10000.0
  }

  lemma FillPriceIs(cfg: Config, side: Side, ref: real)
    ensures FillPrice(cfg, side, ref) == Slipped(TermsOf(cfg), side, ref)
  {
    var bps, slip := TermsOf(cfg).bps, cfg.costs.SlippageRate(cfg.country);
    SlippageParts(ref, bps, slip);
  }

  lemma SlippageParts(ref: real, bps: real, slip: real)
    requires slip == bps * BPS
    ensures ref * (1.0 + slip) == ref + ref * bps / 10000.0 && ref * (1.0 - slip) == ref - ref * bps / 10000.0
  {
    assert ref * slip == ref * bps / 10000.0;
  }

  // ---------------------------------------------------------------- the target

  /** The shares a target asks for: its weight of equity, or none if it has no weight or no price. */
  ghost predicate IsGoal(m: Market, targets: Dict, s: Symbol, want: real) {
    if targets.Get(s) > 0.0 && s in m.prices && m.prices[s] > 0.0
    then Fills(Share(m.equity, targets.Get(s)), m.prices[s], want, TermsOf(m.cfg).divisible)
    else want == 0.0
  }

  function Share(equity: real, weight: real): real {
    equity * weight
  }

  lemma SharesFill(equity: real, weight: real, px: real, want: real, divisible: bool)
    requires px > 0.0 && want == if divisible then RawShares(equity, weight, px) else Truncate(RawShares(equity, weight, px)) as real
    ensures Fills(Share(equity, weight), px, want, divisible)
  {
    hide Fills, Truncate;
    QuotientFills(Share(equity, weight), px, want, divisible);
  }

  /** The wanted shares are worth the target weight of equity, exactly or short of it by less than one share. */
  lemma WantIsTarget(m: Market, targets: Dict, s: Symbol)
    ensures IsGoal(m, targets, s, Want(m, targets, s))
  {
    hide RawShares, Fills, Truncate, Share;
    if targets.Get(s) > 0.0 && s in m.prices && m.prices[s] > 0.0 {
      SharesFill(m.equity, targets.Get(s), m.prices[s], Want(m, targets, s), TermsOf(m.cfg).divisible);
    }
  }

  // ---------------------------------------------------------------- one order

  /** Dust, or a held position inside the band. */
  predicate Negligible(m: Market, amount: real, have: real) {
    || amount < TermsOf(m.cfg).smallest
    || (m.equity > 0.0 && have > 0.0 && amount / m.equity < m.cfg.rebalanceBand)
  }

  /** As many shares as cash c pays for, with the commission charged on the price and the spread on both. */
  ghost predicate Affords(t: Terms, px: real, c: real, fits: real) {
    Fills(c, PerShare(t, px), fits, t.divisible)
  }

  function PerShare(t: Terms, px: real): real {
    px * (1.0 + t.commission) * (1.0 + t.spread)
  }

  /** The purchase up to `want` did not fit in cash c, and what did was bought, if it was worth an order. */
  ghost predicate CutTo(m: Market, s: Symbol, want: real, have: real, now: real, c: real)
    requires s in m.prices
  {
    var t := TermsOf(m.cfg);
    var px := Slipped(t, Buy, m.prices[s]);
    && c < OutlayAt(t, px, want, have)
    && exists fits :: Affords(t, px, c, fits) && now == have + if TooLittle(t, px, fits) then 0.0 else fits
  }

  /** What buying up to `want` takes, commission and spread included. */
  function OutlayAt(t: Terms, px: real, want: real, have: real): real {
    px * (want - have) * (1.0 + t.commission + t.spread)
  }

  predicate TooLittle(t: Terms, px: real, fits: real) {
    fits <= 0.0 || px * fits < t.smallest
  }

  /** What moving a holding is worth at a price. */
  function Moved(px: real, want: real, have: real): real {
    px * Abs(want - have)
  }

  ghost predicate Reaches(m: Market, s: Symbol, want: real, have: real, now: real, cash: real) {
    if s !in m.prices || m.prices[s] <= 0.0 || Negligible(m, Moved(m.prices[s], want, have), have) then now == have
    else if want <= have then now == Max(want, 0.0)
    else now == want || CutTo(m, s, want, have, now, cash)
  }

  lemma StepReaches(m: Market, desired: Dict, st: Ledger, s: Symbol)
    requires m.cfg.Sound() && st.positions.Get(s) >= 0.0
    ensures Reaches(m, s, desired.Get(s), st.positions.Get(s), Step(m, desired, st, s).positions.Get(s), st.cash)
  {
    hide Decide, Reaches, CashAfter, Put, RawDict.Get;
    var want, have := desired.Get(s), st.positions.Get(s);
    DecisionReaches(m, s, want, have, st.cash);
    match Decide(m, s, want, have, st.cash)
    case None =>
    case Some(f) => PutGet(st.positions, s, HoldingAfter(have, f));
  }

  lemma TooSmallIs(m: Market, ref: real, qty: real, have: real)
    ensures forall amount :: amount == ref * qty ==> (TooSmall(m, ref, qty, have) <==> Negligible(m, amount, have))
  {
  }

  lemma DecisionReaches(m: Market, s: Symbol, want: real, have: real, cash: real)
    requires m.cfg.Sound() && have >= 0.0
    ensures var d := Decide(m, s, want, have, cash);
            Reaches(m, s, want, have, if d.Some? then HoldingAfter(have, d.value) else have, cash)
  {
    hide FillPrice, FillOf, Outlay, AffordableQuantity, CostModel.CostOf, TooSmall, NothingLeft, DecideBuy, DecideSell, Reaches, Config.Sound;
    if !Tradable(m.prices, s) || want == have {
      StandsStill(m, s, want, have, cash);
    } else {
      TooSmallIs(m, m.prices[s], Abs(want - have), have);
      if TooSmall(m, m.prices[s], Abs(want - have), have) {
        StandsStill(m, s, want, have, cash);
      } else if want > have {
        PurchaseReaches(m, s, want, have, cash);
      } else {
        SaleReaches(m, s, want, have, cash);
      }
    }
  }

  lemma StandsStill(m: Market, s: Symbol, want: real, have: real, cash: real)
    requires have >= 0.0 && (!Tradable(m.prices, s) || want == have || Negligible(m, Moved(m.prices[s], want, have), have))
    ensures Reaches(m, s, want, have, have, cash)
  {
    hide Negligible, CutTo, Moved;
  }

  lemma SaleReaches(m: Market, s: Symbol, want: real, have: real, cash: real)
    requires have >= 0.0 && Tradable(m.prices, s) && want < have && !Negligible(m, Moved(m.prices[s], want, have), have)
    ensures var d := DecideSell(m, s, have - want, have);
            Reaches(m, s, want, have, if d.Some? then HoldingAfter(have, d.value) else have, cash)
  {
    hide FillPrice, CostModel.CostOf, Negligible, CutTo, Moved;
  }

  lemma PurchaseReaches(m: Market, s: Symbol, want: real, have: real, cash: real)
    requires m.cfg.Sound() && Tradable(m.prices, s) && want > have && !Negligible(m, Moved(m.prices[s], want, have), have)
    ensures var d := DecideBuy(m, s, want - have, cash);
            Reaches(m, s, want, have, if d.Some? then HoldingAfter(have, d.value) else have, cash)
  {
    hide FillPrice, Outlay, AffordableQuantity, CostModel.CostOf, Negligible, NothingLeft, CutTo, Moved, Config.Sound;
    var d := DecideBuy(m, s, want - have, cash);
    var now := if d.Some? then HoldingAfter(have, d.value) else have;
    if Outlay(FillOf(m, s, Buy, want - have, FillPrice(m.cfg, Buy, m.prices[s]))) > cash {
      CutIs(m, s, want, have, now, cash);
    }
  }

  /** What the scaled-down order comes to. */
  lemma CutIs(m: Market, s: Symbol, want: real, have: real, now: real, c: real)
    requires m.cfg.Sound() && s in m.prices && m.prices[s] > 0.0 && want > have
    requires Outlay(FillOf(m, s, Buy, want - have, FillPrice(m.cfg, Buy, m.prices[s]))) > c
    requires var px := FillPrice(m.cfg, Buy, m.prices[s]);
             var fits := AffordableQuantity(m.cfg, px, c);
             now == have + if NothingLeft(m.cfg, px, fits) then 0.0 else fits
    ensures CutTo(m, s, want, have, now, c)
  {
    hide FillPrice, Outlay, FillOf, AffordablePrice, AffordableQuantity, NothingLeft, TooLittle, OutlayAt, Config.Sound, Affords, Slipped;
    var t, px := TermsOf(m.cfg), FillPrice(m.cfg, Buy, m.prices[s]);
    FillPriceIs(m.cfg, Buy, m.prices[s]);
    PriceIsPositive(m.cfg, Buy, m.prices[s]);
    SoundRates(m.cfg);
    OutlayIsAt(m, s, px, want, have);
    NothingIs(m.cfg, px, AffordableQuantity(m.cfg, px, c));
    PerShareIs(m.cfg, px);
    AffordsBy(m.cfg, px, c);
    AffordsIs(t, px, c, AffordablePrice(m.cfg, px), AffordableQuantity(m.cfg, px, c));
  }

  lemma OutlayIsAt(m: Market, s: Symbol, px: real, want: real, have: real)
    requires px > 0.0 && want > have
    ensures Outlay(FillOf(m, s, Buy, want - have, px)) == OutlayAt(TermsOf(m.cfg), px, want, have)
  {
    hide Outlay, FillOf;
    RatesAre(m.cfg);
    OutlayIs(m, s, want - have, px);
  }

  lemma NothingIs(cfg: Config, px: real, q: real)
    ensures NothingLeft(cfg, px, q) <==> TooLittle(TermsOf(cfg), px, q)
  {
  }

  lemma PerShareIs(cfg: Config, px: real)
    requires cfg.costs.NonNegativeRates() && px > 0.0
    ensures AffordablePrice(cfg, px) == PerShare(TermsOf(cfg), px) && AffordablePrice(cfg, px) > 0.0
  {
    hide AffordablePrice, CostModel.NonNegativeRates;
    RatesAre(cfg);
    AffordablePriceIs(cfg, px);
  }

  lemma AffordsIs(t: Terms, px: real, c: real, each: real, fits: real)
    requires each > 0.0 && each == PerShare(t, px)
    requires fits == if t.divisible then c / each else Truncate(c / each) as real
    ensures Affords(t, px, c, fits)
  {
    hide Fills, Truncate, PerShare;
    QuotientFills(c, each, fits, t.divisible);
  }

  lemma RatesAre(cfg: Config)
    ensures cfg.costs.CommissionRate(cfg.country) == TermsOf(cfg).commission && cfg.costs.FxRate(cfg.country) == TermsOf(cfg).spread
  {
  }

  lemma AffordsBy(cfg: Config, px: real, c: real)
    requires AffordablePrice(cfg, px) > 0.0
    ensures var each := AffordablePrice(cfg, px);
            AffordableQuantity(cfg, px, c) == if TermsOf(cfg).divisible then c / each else Truncate(c / each) as real
  {
    hide AffordablePrice, Truncate;
  }

  // ---------------------------------------------------------------- the whole batch

  lemma {:induction false} OrdersLeave(m: Market, desired: Dict, st: Ledger, ordered: seq<Symbol>, i: nat, n: nat, s: Symbol)
    requires i <= n <= |ordered| && s !in ordered[i..n]
    ensures Orders(m, desired, st, ordered, n).positions.Get(s) == Orders(m, desired, st, ordered, i).positions.Get(s)
  {
    hide Step, RawDict.Get;
    if i < n {
      assert ordered[i..n] == ordered[i..n - 1] + [ordered[n - 1]];
      OrdersLeave(m, desired, st, ordered, i, n - 1, s);
      StepLeavesOthers(m, desired, Orders(m, desired, st, ordered, n - 1), ordered[n - 1], s);
    }
  }

  /** Later orders only append fills, and only for the symbols they name. */
  lemma {:induction false} FillsGrow(m: Market, desired: Dict, st: Ledger, ordered: seq<Symbol>, i: nat, n: nat)
    requires i <= n <= |ordered|
    ensures var early, late := Orders(m, desired, st, ordered, i).fills, Orders(m, desired, st, ordered, n).fills;
            && early <= late
            && (forall j :: |early| <= j < |late| ==> late[j].symbol in ordered[i..n])
  {
    hide Step;
    if i < n {
      FillsGrow(m, desired, st, ordered, i, n - 1);
      assert ordered[i..n] == ordered[i..n - 1] + [ordered[n - 1]];
      StepAddsOne(m, desired, Orders(m, desired, st, ordered, n - 1), ordered[n - 1]);
    }
  }

  /** One order adds nothing, or one fill for its own symbol. */
  lemma StepAddsOne(m: Market, desired: Dict, st: Ledger, s: Symbol)
    ensures var now := Step(m, desired, st, s).fills; now == st.fills || (now == st.fills + [now[|now| - 1]] && now[|now| - 1].symbol == s)
  {
    hide Decide, Put, CashAfter, HoldingAfter, TradeCost.Plus;
  }

  /** Whatever is filled for s is fill k. */
  ghost predicate FilledAt(fills: seq<Fill>, s: Symbol, k: nat) {
    forall j :: 0 <= j < |fills| && fills[j].symbol == s ==> j == k
  }

  /**
   A rebalance tracks its targets. Every position without a price, or whose drift is dust or inside the band,
   stays as it was; every other one ends exactly on its target, except a purchase that did not fit in the cash
   there was when its turn came, which is cut to what did fit. That moment is right before its own fill, if any.
   */
  lemma RebalanceTracks(m: Market, cash: real, positions: Dict, targets: Dict, s: Symbol)
    requires m.cfg.Sound() && NonNegative(positions)
    ensures var r := Rebalanced(m, cash, positions, targets);
            exists want, k :: IsGoal(m, targets, s, want) && 0 <= k <= |r.fills| && FilledAt(r.fills, s, k)
              && Reaches(m, s, want, positions.Get(s), r.positions.Get(s), CashReplay(cash, r.fills[..k]))
  {
    hide Want, Desired, OrderByDelta, Config.Sound, KeepPositive, Reaches, Decide, CashReplay, Step, Between, FilledAt, Orders, IsGoal;
    WantIsTarget(m, targets, s);
    var want := Want(m, targets, s);
    var desired := Desired(m, targets, positions);
    var ordered := OrderByDelta(desired, positions);
    var st, n := Opening(cash, positions), |ordered|;
    PlanFacts(m, positions, targets);
    forall x ensures Orders(m, desired, st, ordered, n).positions.Get(x) >= 0.0 {
      OrdersApproach(m, desired, st, ordered, n, x);
    }
    var r := Rebalanced(m, cash, positions, targets);
    assert r.fills == Orders(m, desired, st, ordered, n).fills;
    var k: nat;
    if s in ordered {
      k := TrackedAt(m, desired, cash, positions, ordered, s);
    } else {
      k := UntrackedAt(m, desired, cash, positions, ordered, s);
      UntargetedIsUnwanted(m, targets, s);
    }
    assert IsGoal(m, targets, s, want) && FilledAt(r.fills, s, k)
        && Reaches(m, s, want, positions.Get(s), r.positions.Get(s), CashReplay(cash, r.fills[..k]));
  }

  lemma UntrackedAt(m: Market, desired: Dict, cash: real, positions: Dict, ordered: seq<Symbol>, s: Symbol) returns (k: nat)
    requires s !in ordered && s !in positions.vals
    ensures var end := Orders(m, desired, Opening(cash, positions), ordered, |ordered|);
            && k <= |end.fills| && FilledAt(end.fills, s, k)
            && Reaches(m, s, 0.0, positions.Get(s), end.positions.Get(s), CashReplay(cash, end.fills[..k]))
  {
    hide Reaches, CashReplay, Orders;
    var st, n := Opening(cash, positions), |ordered|;
    k := 0;
    assert Orders(m, desired, st, ordered, 0) == st by { NoOrders(m, desired, st, ordered); }
    assert ordered[..n] == ordered && ordered[0..n] == ordered;
    OrdersTouch(m, desired, st, ordered, n, s);
    FillsGrow(m, desired, st, ordered, 0, n);
    NothingToReach(m, s, CashReplay(cash, Orders(m, desired, st, ordered, n).fills[..0]));
  }

  lemma NoOrders(m: Market, desired: Dict, st: Ledger, ordered: seq<Symbol>)
    ensures Orders(m, desired, st, ordered, 0) == st
  {
  }

  lemma NothingToReach(m: Market, s: Symbol, cash: real)
    ensures Reaches(m, s, 0.0, 0.0, 0.0, cash)
  {
  }

  lemma TrackedAt(m: Market, desired: Dict, cash: real, positions: Dict, ordered: seq<Symbol>, s: Symbol) returns (k: nat)
    requires m.cfg.Sound() && NonNegative(positions) && Distinct(ordered) && s in ordered
    ensures var end := Orders(m, desired, Opening(cash, positions), ordered, |ordered|);
            && k <= |end.fills| && FilledAt(end.fills, s, k)
            && Reaches(m, s, desired.Get(s), positions.Get(s), end.positions.Get(s), CashReplay(cash, end.fills[..k]))
  {
    hide Reaches, Step, RawDict.Get, CashReplay, HoldingReplay, CostReplay, FilledAt, Config.Sound;
    var st, n := Opening(cash, positions), |ordered|;
    var i :| 0 <= i < n && ordered[i] == s;
    NewInDistinct(ordered, i);
    OrdersTouch(m, desired, st, ordered, i, s);
    assert positions.Get(s) >= 0.0;
    var before := Orders(m, desired, st, ordered, i);
    StepReaches(m, desired, before, s);
    assert s !in ordered[i + 1..n];
    OrdersLeave(m, desired, st, ordered, i + 1, n, s);
    OrdersReplay(m, desired, cash, positions, ordered, i);
    k := |before.fills|;
    FillsGrow(m, desired, st, ordered, i, n);
    OnlyItsOwn(m, desired, cash, positions, ordered, i);
    assert Orders(m, desired, st, ordered, n).fills[..k] == before.fills;
  }

  lemma OnlyItsOwn(m: Market, desired: Dict, cash: real, positions: Dict, ordered: seq<Symbol>, i: nat)
    requires Distinct(ordered) && i < |ordered|
    ensures var st := Opening(cash, positions);
            FilledAt(Orders(m, desired, st, ordered, |ordered|).fills, ordered[i], |Orders(m, desired, st, ordered, i).fills|)
  {
    hide Step;
    var st, n, s := Opening(cash, positions), |ordered|, ordered[i];
    NewInDistinct(ordered, i);
    assert ordered[0..i] == ordered[..i] && s !in ordered[i + 1..n];
    NoOrders(m, desired, st, ordered);
    FillsGrow(m, desired, st, ordered, 0, i);
    FillsGrow(m, desired, st, ordered, i, n);
    FillsGrow(m, desired, st, ordered, i + 1, n);
    StepAddsOne(m, desired, Orders(m, desired, st, ordered, i), s);
  }

  // ---------------------------------------------------------------- no value from nothing

  lemma {:induction false} OrdersOnlyPay(m: Market, desired: Dict, st: Ledger, ordered: seq<Symbol>, n: nat)
    requires m.cfg.Sound() && n <= |ordered| && st.cost.Total() >= 0.0 && SlippagePaid(m.prices, st.fills) >= 0.0
    ensures Orders(m, desired, st, ordered, n).cost.Total() >= 0.0
    ensures SlippagePaid(m.prices, Orders(m, desired, st, ordered, n).fills) >= 0.0
  {
    hide Decide, Put, RawDict.Valid, RawDict.Get, CashAfter, HoldingAfter, TradeCost.Total, TradeCost.Plus, CostModel.CostOf, Config.Sound, SlippagePaid, TooSmall, FillPrice, Outlay;
    if n > 0 {
      OrdersOnlyPay(m, desired, st, ordered, n - 1);
      var before, x := Orders(m, desired, st, ordered, n - 1), ordered[n - 1];
      var d := Decide(m, x, desired.Get(x), before.positions.Get(x), before.cash);
      if d.Some? {
        DecideFacts(m, x, desired.Get(x), before.positions.Get(x), before.cash);
        var f := d.value;
        SoundRates(m.cfg);
        CostIsNonNegative(m.cfg.costs, f.side, m.cfg.country, f.price, f.quantity, x in m.cfg.etfSymbols);
        TotalsAdd(before.cost, f.cost);
        OneMoreSlip(m.prices, before.fills, f);
      }
    }
  }

  lemma SoundRates(cfg: Config)
    requires cfg.Sound()
    ensures cfg.costs.NonNegativeRates()
  {
  }

  lemma OneMoreSlip(prices: Prices, fills: seq<Fill>, f: Fill)
    requires f.quantity >= 0.0
    ensures SlippagePaid(prices, fills + [f]) >= SlippagePaid(prices, fills)
  {
    assert (fills + [f])[..|fills|] == fills;
    MulNonNegative(Abs(f.price - if f.symbol in prices then prices[f.symbol] else 0.0), f.quantity);
  }

  /** Trading never makes money: at the prices it trades at, a rebalance cannot raise equity. */
  lemma RebalanceNeverGains(m: Market, cash: real, positions: Dict, targets: Dict)
    requires m.cfg.Sound() && NonNegative(positions)
    ensures var r := Rebalanced(m, cash, positions, targets);
            Equity(r.cash, r.positions, m.prices) <= Equity(cash, positions, m.prices)
  {
    hide Desired, OrderByDelta, Equity, SlippagePaid, Config.Sound, KeepPositive, Orders;
    RebalanceConserves(m, cash, positions, targets);
    NoFillsNoSlippage(m.prices);
    var desired := Desired(m, targets, positions);
    var ordered := OrderByDelta(desired, positions);
    OrdersOnlyPay(m, desired, Opening(cash, positions), ordered, |ordered|);
  }
}
