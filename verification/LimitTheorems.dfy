/** What the per-order gate buys: an accepted purchase, filled as checked, leaves the account inside its limits. */
module LimitTheorems {
  import opened RealFacts
  import opened OrderedDict
  import opened Costs
  import opened Broker
  import opened Intents
  import opened IntentTheorems
  import opened Risk
  import opened RiskTheorems
  import opened CurrencyTheorems

  /** Weight, gross exposure and cash are within the limits. */
  ghost predicate WithinLimits(l: Limits, snap: Snapshot, s: Symbol) {
    && snap.Weight(s) <= l.WeightLimit(s)
    && snap.PositionValueKrw() <= l.maxGrossExposure * snap.EquityKrw()
    && snap.cash >= 0.0
  }

  /**
   If marks equal quotes and an accepted purchase fills at the price it was checked at without cost, the bought
   symbol's weight and the gross exposure are within their limits, and cash is not negative.
   */
  lemma AcceptedBuyKeepsLimits(l: Limits, snap: Snapshot, quotes: map<Symbol, real>, p: Plan, warned: bool, times: seq<int>, now: int)
    requires PositiveHoldings(snap) && MarkedAtQuotes(snap, quotes)
    requires p.intent.symbol in quotes && p.price == quotes[p.intent.symbol]
    requires p.intent.side == Buy && p.intent.quantity.Some? && p.intent.quantity.value > 0.0 && p.intent.orderAmount.None?
    requires CheckOrder(l, snap, p.intent, p.price, warned, times, now)
    ensures WithinLimits(l, Filled(snap, p), p.intent.symbol)
  {
    hide HeldKrw, OrderKrw, RatioAtMost, Filled, Snapshot.EquityKrw, Snapshot.Weight, Snapshot.PositionValueKrw, Limits.WeightLimit, OrdersOn, UtcDay, UnitPrice, MarkedAtQuotes, PositiveHoldings, RawDict.Valid, RawDict.Get;
    var s, e, after := p.intent.symbol, snap.EquityKrw(), Filled(snap, p);
    var held, more := HeldKrw(snap, s), OrderKrw(snap, p.intent, p.price);
    HoldingIsNonNegative(snap, s);
    FillingKeepsEquity(snap, quotes, p);
    RatioIff(held + more, e, l.WeightLimit(s));
    RatioIff(snap.PositionValueKrw() + more, e, l.maxGrossExposure);
    BoughtIs(snap, quotes, p);
    WeightIs(after, quotes, s);
    Quotient(after.Weight(s), e, l.WeightLimit(s));
  }

  /** A purchase filled as checked moves its value from cash into the position. */
  lemma BoughtIs(snap: Snapshot, quotes: map<Symbol, real>, p: Plan)
    requires PositiveHoldings(snap) && MarkedAtQuotes(snap, quotes)
    requires p.intent.symbol in quotes && p.price == quotes[p.intent.symbol]
    requires p.intent.side == Buy && p.intent.quantity.Some? && p.intent.quantity.value > 0.0 && p.intent.orderAmount.None?
    requires snap.holdings.Get(p.intent.symbol) >= 0.0 && Filled(snap, p).EquityKrw() == snap.EquityKrw()
    ensures var s, after, more := p.intent.symbol, Filled(snap, p), OrderKrw(snap, p.intent, p.price);
            && MarkedAtQuotes(after, quotes)
            && UnitPrice(after, quotes, s) * after.holdings.Get(s) == HeldKrw(snap, s) + more
            && after.cash == snap.cash - more && after.PositionValueKrw() == snap.PositionValueKrw() + more
  {
    hide FxFor, KeepPositive, Put, Worth, RawDict.Valid, RawDict.Get;
    var s, qty, have := p.intent.symbol, p.intent.quantity.value, snap.holdings.Get(p.intent.symbol);
    PutFacts(snap.holdings, s, have + qty);
    Worths(p.price, qty, have, FxFor(s, snap.usdKrw));
  }

  lemma HoldingIsNonNegative(snap: Snapshot, s: Symbol)
    requires PositiveHoldings(snap)
    ensures snap.holdings.Get(s) >= 0.0
  {
  }

  lemma Worths(price: real, qty: real, have: real, fx: real)
    ensures price * qty * fx == (price * fx) * qty == qty * (price * fx)
    ensures price * have * fx == (price * fx) * have
    ensures (price * fx) * (have + qty) == (price * fx) * have + (price * fx) * qty
  {
  }

  lemma Quotient(w: real, e: real, limit: real)
    requires e > 0.0 && w * e <= limit * e
    ensures w <= limit
  {
    if w > limit { MulPositive(w - limit, e); }
  }

  // ---------------------------------------------------------------- exactly which orders pass

  /** What an order is worth in its symbol's own money; the checked price counts only where no amount is named. */
  function OrderValue(i: Intent, price: real): real {
    if i.orderAmount.Some? then i.orderAmount.value else if i.quantity.Some? then price * i.quantity.value else 0.0
  }

  /** Weight and exposure after a purchase of `more` stay within their limits, and it does not cost more than the cash. */
  ghost predicate Affordable(l: Limits, snap: Snapshot, s: Symbol, held: real, more: real) {
    && held + more <= (if s in l.defensive && l.maxDefensiveWeight > l.maxPositionWeight then l.maxDefensiveWeight else l.maxPositionWeight)
                      * snap.EquityKrw()
    && snap.PositionValueKrw() + more <= l.maxGrossExposure * snap.EquityKrw()
    && more <= snap.cash
  }

  /**
   Exactly which orders pass the gate, in won: the account is worth something and has orders left for the day; a
   purchase keeps the symbol's weight and the gross exposure within their limits, is covered by cash and carries no
   warning; a sale is of something held, and of no more than is held.
   */
  lemma GateIff(l: Limits, snap: Snapshot, i: Intent, price: real, warned: bool, times: seq<int>, now: int, held: real, more: real)
    requires var rate := if SixDigits(i.symbol) then 1.0 else snap.usdKrw;
             && held == snap.MarkOf(i.symbol) * snap.holdings.Get(i.symbol) * rate
             && more == OrderValue(i, price) * rate
    ensures CheckOrder(l, snap, i, price, warned, times, now) <==>
              && snap.EquityKrw() > 0.0
              && |OrdersDated(times, UtcDay(now))| < l.maxOrdersPerDay
              && match i.side
                 case Buy => !warned && Affordable(l, snap, i.symbol, held, more)
                 case Sell =>
                   && snap.holdings.Get(i.symbol) > 0.0
                   && (i.quantity.Some? ==> i.quantity.value <= snap.holdings.Get(i.symbol))
  {
    hide SixDigits, Snapshot.EquityKrw, Snapshot.PositionValueKrw, HeldKrw, OrderKrw, OrderValue, RatioAtMost, OrdersOn, OrdersDated, UtcDay, RawDict.Valid;
    OrdersOnCounts(times, UtcDay(now));
    InWon(snap, i, price, held, more);
    var e := snap.EquityKrw();
    if e > 0.0 {
      RatioIff(held + more, e, l.WeightLimit(i.symbol));
      RatioIff(snap.PositionValueKrw() + more, e, l.maxGrossExposure);
    }
  }

  lemma InWon(snap: Snapshot, i: Intent, price: real, held: real, more: real)
    requires var rate := if SixDigits(i.symbol) then 1.0 else snap.usdKrw;
             && held == snap.MarkOf(i.symbol) * snap.holdings.Get(i.symbol) * rate
             && more == OrderValue(i, price) * rate
    ensures HeldKrw(snap, i.symbol) == held && OrderKrw(snap, i, price) == more
  {
    hide SixDigits, FxFor, Snapshot.MarkOf, RawDict.Get;
    WonPer(i.symbol, snap.usdKrw);
  }

  lemma RatioIff(x: real, e: real, limit: real)
    requires e > 0.0
    ensures RatioAtMost(x, e, limit) <==> x <= limit * e
  {
    QuotientTimes(x, e);
    if x / e <= limit { MulMono(e, x / e, limit); } else { MulPositive(e, x / e - limit); }
  }
}
