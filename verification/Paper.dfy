/** The paper broker's ledger (src/tqt/execution/paper.py): simulated fills at live quotes, one KRW cash pool. */
module Paper {
  import opened Wrappers
  import opened RealFacts
  import opened OrderedDict
  import opened Costs
  import opened Broker

  /** The order book, where it could be read, and the last trade. */
  datatype Quote = Quote(bestAsk: Option<real>, bestBid: Option<real>, last: Option<real>, usdKrw: real)

  /** `_execution_price`: cross the spread, or fall back to the last trade. A zero price counts as none. */
  function ExecutionPrice(q: Quote, side: Side): Option<real> {
    var px := if side == Buy then q.bestAsk else q.bestBid;
    if px.Some? && px.value != 0.0 then px else q.last
  }

  /** A fill row, with the exchange rate that was applied to it (which the table does not keep). */
  datatype PaperFill = PaperFill(symbol: Symbol, side: Side, quantity: real, price: real, cost: TradeCost, fx: real, at: int)

  datatype Rejection = NoPrice | NoQuantity | RoundsToZero | NothingToSell | InsufficientCash

  /** The paper rows of the cash, positions, orders and fills tables. */
  datatype Account = Account(cash: real, holdings: Dict, avgPrice: map<Symbol, real>, fills: seq<PaperFill>, orderTimes: seq<int>)

  datatype Terms = Terms(costs: CostModel, etfSymbols: set<Symbol>)

  function Funded(cash: real): Account {
    Account(cash, EMPTY, map[], [], [])
  }

  function RequestedQuantity(i: Intent, px: real): Option<real>
    requires px > 0.0
  {
    var q := if i.quantity.Some? then i.quantity
             else if i.orderAmount.Some? then Some(i.orderAmount.value / px) else None;
    if q.Some? && CountryOf(i.symbol) == KR then Some(Truncate(q.value) as real) else q
  }

  function FillAt(t: Terms, s: Symbol, side: Side, qty: real, px: real, fx: real, at: int): PaperFill {
    PaperFill(s, side, qty, px, t.costs.CostOf(side, CountryOf(s), px, qty, s in t.etfSymbols, false), fx, at)
  }

  /** What a purchase takes out of the KRW pool. */
  function OutlayKrw(f: PaperFill): real {
    f.price * f.quantity * f.fx + f.cost.Total() * f.fx
  }

  function ProceedsKrw(f: PaperFill): real {
    f.price * f.quantity * f.fx - f.cost.Total() * f.fx
  }

  /** What submit would do: the fill, or why there is none. */
  function Assess(t: Terms, a: Account, i: Intent, q: Quote, at: int): Result<PaperFill, Rejection> {
    var px := ExecutionPrice(q, i.side);
    if px.None? || px.value <= 0.0 then Err(NoPrice)
    else
      var qty := RequestedQuantity(i, px.value);
      if qty.None? then Err(NoQuantity)
      else if qty.value <= 0.0 then Err(RoundsToZero)
      else
        var fx := FxFor(i.symbol, q.usdKrw);
        if i.side == Sell then
          var sold := Min(qty.value, a.holdings.Get(i.symbol));
          if sold <= 0.0 then Err(NothingToSell) else Ok(FillAt(t, i.symbol, Sell, sold, px.value, fx, at))
        else
          var f := FillAt(t, i.symbol, Buy, qty.value, px.value, fx, at);
          if OutlayKrw(f) > a.cash then Err(InsufficientCash) else Ok(f)
  }

  /** Blended on a purchase, unchanged on a sale. */
  function AverageAfter(have: real, avg: real, f: PaperFill): real
    requires have + f.quantity != 0.0
  {
    if f.side == Buy then (avg * have + f.price * f.quantity) / (have + f.quantity) else avg
  }

  function QuantityAfter(have: real, f: PaperFill): real {
    if f.side == Buy then have + f.quantity else have - f.quantity
  }

  function CashAfter(cash: real, f: PaperFill): real {
    if f.side == Buy then cash - OutlayKrw(f) else cash + ProceedsKrw(f)
  }

  function AverageOf(a: Account, s: Symbol): real {
    if s in a.avgPrice then a.avgPrice[s] else 0.0
  }

  /** Cash, position, order and fill change together, in one transaction. */
  function Book(a: Account, f: PaperFill): Account
    requires a.holdings.Get(f.symbol) + f.quantity != 0.0
  {
    var have := a.holdings.Get(f.symbol);
    var now := QuantityAfter(have, f);
    Account(CashAfter(a.cash, f),
            KeepPositive(Put(a.holdings, f.symbol, now)),
            if now <= 0.0 then a.avgPrice - {f.symbol}
            else a.avgPrice[f.symbol := AverageAfter(have, AverageOf(a, f.symbol), f)],
            a.fills + [f], a.orderTimes + [f.at])
  }

  /** Holdings are positive, KR holdings whole, and exactly the held symbols have an average. */
  ghost predicate WellKept(a: Account) {
    && (forall s :: s in a.holdings.vals ==> a.holdings.vals[s] > 0.0)
    && (forall s :: s in a.holdings.vals <==> s in a.avgPrice)
    && (forall s :: CountryOf(s) == KR ==> IsWhole(a.holdings.Get(s)))
  }

  lemma AssessedFill(t: Terms, a: Account, i: Intent, q: Quote, at: int)
    requires WellKept(a) && Assess(t, a, i, q, at).Ok?
    ensures var f := Assess(t, a, i, q, at).value;
            && f.symbol == i.symbol && f.side == i.side && f.at == at
            && f.quantity > 0.0 && f.price > 0.0
            && a.holdings.Get(f.symbol) >= 0.0
            && (CountryOf(f.symbol) == KR ==> IsWhole(f.quantity))
            && (f.side == Sell ==> f.quantity <= a.holdings.Get(f.symbol))
            && (f.side == Buy ==> OutlayKrw(f) <= a.cash)
            && a.holdings.Get(f.symbol) + f.quantity != 0.0
  {
    hide OutlayKrw, CostModel.CostOf;
    assert i.symbol in a.holdings.vals ==> a.holdings.vals[i.symbol] > 0.0;
    var px := ExecutionPrice(q, i.side).value;
    if i.quantity.Some? { WholeOfInt(Truncate(i.quantity.value)); }
    else if i.orderAmount.Some? { WholeOfInt(Truncate(i.orderAmount.value / px)); }
  }

  lemma BookedHoldings(a: Account, f: PaperFill)
    requires forall s :: s in a.holdings.vals ==> a.holdings.vals[s] > 0.0
    requires a.holdings.Get(f.symbol) + f.quantity != 0.0 && QuantityAfter(a.holdings.Get(f.symbol), f) >= 0.0
    ensures forall s :: Book(a, f).holdings.Get(s)
              == if s == f.symbol then QuantityAfter(a.holdings.Get(s), f) else a.holdings.Get(s)
  {
    hide CashAfter, AverageAfter;
    forall s ensures Book(a, f).holdings.Get(s) == if s == f.symbol then QuantityAfter(a.holdings.Get(s), f) else a.holdings.Get(s) {
      assert s in a.holdings.vals ==> a.holdings.vals[s] > 0.0;
    }
  }

  lemma BookedAverages(a: Account, f: PaperFill, s: Symbol)
    requires forall x :: x in a.holdings.vals ==> a.holdings.vals[x] > 0.0
    requires forall x :: x in a.holdings.vals <==> x in a.avgPrice
    requires a.holdings.Get(f.symbol) + f.quantity != 0.0
    ensures s in Book(a, f).holdings.vals <==> s in Book(a, f).avgPrice
  {
    hide CashAfter, AverageAfter, KeepPositive, Put, QuantityAfter;
    HeldIffPositive(a.holdings, f.symbol, QuantityAfter(a.holdings.Get(f.symbol), f), s);
  }

  lemma BookKeepsWell(a: Account, f: PaperFill)
    requires WellKept(a) && f.quantity > 0.0 && (CountryOf(f.symbol) == KR ==> IsWhole(f.quantity))
    requires a.holdings.Get(f.symbol) + f.quantity != 0.0 && a.holdings.Get(f.symbol) >= 0.0
    requires f.side == Sell ==> f.quantity <= a.holdings.Get(f.symbol)
    ensures WellKept(Book(a, f))
    ensures forall s :: Book(a, f).holdings.Get(s)
              == if s == f.symbol then QuantityAfter(a.holdings.Get(s), f) else a.holdings.Get(s)
  {
    hide Book, IsWhole, CountryOf, RawDict.Get;
    BookedHoldings(a, f);
    var b := Book(a, f);
    forall s | CountryOf(s) == KR ensures IsWhole(b.holdings.Get(s)) {
      if s == f.symbol { WholeSum(a.holdings.Get(s), f.quantity); }
    }
    forall s ensures s in b.holdings.vals <==> s in b.avgPrice {
      BookedAverages(a, f, s);
    }
    forall s | s in b.holdings.vals ensures b.holdings.vals[s] > 0.0 {
      BookedArePositive(a, f, s);
    }
  }

  lemma BookedArePositive(a: Account, f: PaperFill, s: Symbol)
    requires a.holdings.Get(f.symbol) + f.quantity != 0.0 && s in Book(a, f).holdings.vals
    ensures Book(a, f).holdings.vals[s] > 0.0
  {
    hide CashAfter, AverageAfter;
  }

  lemma HeldIffPositive(d: Dict, k: Symbol, v: real, s: Symbol)
    requires forall x :: x in d.vals ==> d.vals[x] > 0.0
    ensures s in KeepPositive(Put(d, k, v)).vals <==> (if s == k then v > 0.0 else s in d.vals)
  {
    assert KeepPositive(Put(d, k, v)).Get(s) == if Put(d, k, v).Get(s) > 0.0 then Put(d, k, v).Get(s) else 0.0;
  }

  class PaperBroker {
    const terms: Terms
    var cash: real
    var holdings: Dict
    var avgPrice: map<Symbol, real>
    var fills: seq<PaperFill>
    var orderTimes: seq<int>

    function State(): Account
      reads this
    {
      Account(cash, holdings, avgPrice, fills, orderTimes)
    }

    constructor (terms: Terms, startingCash: real)
      ensures this.terms == terms && State() == Funded(startingCash)
    {
      this.terms := terms;
      cash, holdings, avgPrice, fills, orderTimes := startingCash, EMPTY, map[], [], [];
    }

    /** Wipe the paper account and fund it again. */
    method Reset(startingCash: real)
      modifies this
      ensures State() == Funded(startingCash)
    {
      cash, holdings, avgPrice, fills, orderTimes := startingCash, EMPTY, map[], [], [];
    }

    /** submit up to its transaction: price, quantity, holding and cash checks in the source's order. */
    method Check(i: Intent, q: Quote, at: int) returns (r: Result<PaperFill, Rejection>)
      ensures r == Assess(terms, State(), i, q, at)
    {
      hide OutlayKrw, CostModel.CostOf, RequestedQuantity, ExecutionPrice;
      var px := ExecutionPrice(q, i.side);
      if px.None? || px.value <= 0.0 {
        return Err(NoPrice);
      }
      var fx := FxFor(i.symbol, q.usdKrw);
      var wanted := RequestedQuantity(i, px.value);
      if wanted.None? {
        return Err(NoQuantity);
      }
      var qty := wanted.value;
      if qty <= 0.0 {
        return Err(RoundsToZero);
      }
      if i.side == Sell {
        qty := Min(qty, holdings.Get(i.symbol));
        if qty <= 0.0 {
          return Err(NothingToSell);
        }
      }
      var f := FillAt(terms, i.symbol, i.side, qty, px.value, fx, at);
      if i.side == Buy && OutlayKrw(f) > cash {
        return Err(InsufficientCash);
      }
      return Ok(f);
    }

    /** submit: either nothing changes and the reason is returned, or the fill is booked. */
    method Submit(i: Intent, q: Quote, at: int) returns (r: Result<PaperFill, Rejection>)
      requires WellKept(State())
      modifies this
      ensures r == Assess(terms, old(State()), i, q, at)
      ensures r.Err? ==> State() == old(State())
      ensures r.Ok? ==> old(holdings).Get(r.value.symbol) + r.value.quantity != 0.0 && State() == Book(old(State()), r.value)
      ensures WellKept(State())
    {
      hide Assess, WellKept, OutlayKrw, ProceedsKrw, KeepPositive, Put, RawDict.Valid, RawDict.Get, AverageAfter;
      r := Check(i, q, at);
      if r.Err? {
        return;
      }
      var f := r.value;
      AssessedFill(terms, State(), i, q, at);
      BookKeepsWell(State(), f);
      var have := holdings.Get(f.symbol);
      var average := if f.symbol in avgPrice then avgPrice[f.symbol] else 0.0;
      var now := QuantityAfter(have, f);
      if now <= 0.0 {
        avgPrice := avgPrice - {f.symbol};
      } else {
        avgPrice := avgPrice[f.symbol := AverageAfter(have, average, f)];
      }
      cash := if f.side == Buy then cash - OutlayKrw(f) else cash + ProceedsKrw(f);
      holdings := KeepPositive(Put(holdings, f.symbol, now));
      fills := fills + [f];
      orderTimes := orderTimes + [f.at];
    }
  }
}
