/** Which money a position, a fill or an order is counted in: won for KR symbols, won at the exchange rate for the rest. */
module CurrencyTheorems {
  import opened Wrappers
  import opened RealFacts
  import opened OrderedDict
  import opened Costs
  import opened Broker
  import opened Paper
  import opened PaperTheorems

  /** A KR symbol is six decimal digits. */
  predicate SixDigits(s: Symbol) {
    |s| == 6 && forall i :: 0 <= i < |s| ==> s[i] in {'0', '1', '2', '3', '4', '5', '6', '7', '8', '9'}
  }

  /** How many won one unit of a symbol's money is: one for KR symbols whatever the exchange rate, else the rate. */
  lemma WonPer(s: Symbol, usdKrw: real)
    ensures CountryOf(s) == (if SixDigits(s) then KR else US)
    ensures FxFor(s, usdKrw) == if SixDigits(s) then 1.0 else usdKrw
  {
  }

  // ---------------------------------------------------------------- equity

  /** The marks of the held symbols of one kind, each in its own money. */
  function MarksOf(snap: Snapshot, kr: bool): map<Symbol, real> {
    map s | s in snap.holdings.vals && SixDigits(s) == kr :: snap.MarkOf(s)
  }

  /**
   Equity in won is cash, plus the KR positions at their marks whatever the exchange rate, plus the US positions at
   their marks times the exchange rate. A mark is the quote, else the average price paid, else nothing.
   */
  lemma EquitySplits(snap: Snapshot)
    ensures snap.EquityKrw() == snap.cash + Worth(snap.holdings, MarksOf(snap, true)) + snap.usdKrw * Worth(snap.holdings, MarksOf(snap, false))
    ensures forall s, kr :: s in MarksOf(snap, kr) ==>
              MarksOf(snap, kr)[s] == if s in snap.prices then snap.prices[s] else if s in snap.avgPrice then snap.avgPrice[s] else 0.0
  {
    hide Snapshot.MarkOf, Worth, Snapshot.UnitKrw, MarksOf;
    WorthSplits(snap);
    MarksAre(snap);
  }

  lemma WorthSplits(snap: Snapshot)
    ensures Worth(snap.holdings, snap.UnitKrw())
         == Worth(snap.holdings, MarksOf(snap, true)) + snap.usdKrw * Worth(snap.holdings, MarksOf(snap, false))
  {
    hide WorthOver, Snapshot.UnitKrw, MarksOf;
    ValueSplits(snap, snap.holdings.keys);
  }

  lemma MarksAre(snap: Snapshot)
    ensures forall s, kr :: s in MarksOf(snap, kr) ==>
              MarksOf(snap, kr)[s] == if s in snap.prices then snap.prices[s] else if s in snap.avgPrice then snap.avgPrice[s] else 0.0
  {
    hide SixDigits;
  }

  lemma {:induction false} ValueSplits(snap: Snapshot, ks: seq<Symbol>)
    requires forall k :: k in ks ==> k in snap.holdings.vals
    ensures var d := snap.holdings.vals;
            WorthOver(ks, d, snap.UnitKrw())
            == WorthOver(ks, d, MarksOf(snap, true)) + snap.usdKrw * WorthOver(ks, d, MarksOf(snap, false))
  {
    hide Snapshot.UnitKrw, MarksOf, Mark;
    if |ks| > 0 {
      var init, k, d := ks[..|ks| - 1], ks[|ks| - 1], snap.holdings.vals;
      ValueSplits(snap, init);
      UnitSplits(snap, k);
      SumSplits(snap.usdKrw, WorthOver(init, d, MarksOf(snap, false)), Mark(MarksOf(snap, false), k, d[k]));
    }
  }

  lemma SumSplits(rate: real, a: real, b: real)
    ensures rate * (a + b) == rate * a + rate * b
  {
  }

  lemma UnitSplits(snap: Snapshot, k: Symbol)
    requires k in snap.holdings.vals
    ensures var q := snap.holdings.vals[k];
            Mark(snap.UnitKrw(), k, q) == Mark(MarksOf(snap, true), k, q) + snap.usdKrw * Mark(MarksOf(snap, false), k, q)
  {
    hide Snapshot.MarkOf, SixDigits, FxFor, RawDict.Valid;
    WonPer(k, snap.usdKrw);
    var mark, q := snap.MarkOf(k), snap.holdings.vals[k];
    assert mark * snap.usdKrw * q == snap.usdKrw * (mark * q);
  }

  // ---------------------------------------------------------------- a submission

  /** The price a submission trades at: a purchase the best ask, a sale the best bid, or the last trade where there is none. */
  ghost predicate TradesAt(q: Quote, side: Side, px: Option<real>) {
    var book := if side == Buy then q.bestAsk else q.bestBid;
    if book.None? || book == Some(0.0) then px == q.last else px == book
  }

  /** What was asked for, in the symbol's own money. */
  function Asked(i: Intent, px: real): Option<real> {
    if i.quantity.Some? then Some(i.quantity.value * px) else i.orderAmount
  }

  lemma RequestedIs(i: Intent, px: real)
    requires px > 0.0
    ensures RequestedQuantity(i, px).Some? <==> Asked(i, px).Some?
    ensures Asked(i, px).Some? ==> Fills(Asked(i, px).value, px, RequestedQuantity(i, px).value, !SixDigits(i.symbol))
  {
    hide Fills, Truncate, SixDigits;
    WonPer(i.symbol, 1.0);
    if i.quantity.Some? {
      SharesFill(i.quantity.value, px, Asked(i, px).value, RequestedQuantity(i, px).value, !SixDigits(i.symbol));
    } else if i.orderAmount.Some? {
      QuotientFills(i.orderAmount.value, px, RequestedQuantity(i, px).value, !SixDigits(i.symbol));
    }
  }

  lemma SharesFill(n: real, px: real, amount: real, qty: real, divisible: bool)
    requires px > 0.0 && amount == n * px && qty == if divisible then n else Truncate(n) as real
    ensures Fills(amount, px, qty, divisible)
  {
    hide Fills, Truncate;
    var x := amount / px;
    assert x == n;
    QuotientFills(amount, px, qty, divisible);
  }

  /** What moves between the account and the market, in the symbol's own money: the value traded and the charges on it. */
  function Turned(side: Side, px: real, qty: real, charges: TradeCost): real {
    if side == Buy then px * qty + charges.Total() else px * qty - charges.Total()
  }

  /** The charges of a fill are those of its country. */
  ghost predicate ChargesOf(t: Terms, s: Symbol, side: Side, px: real, qty: real, k: TradeCost) {
    if SixDigits(s) then ChargesKr(t.costs, side, px * qty, s in t.etfSymbols, false, k) else ChargesUs(t.costs, side, px * qty, qty, false, k)
  }

  lemma FillIs(t: Terms, s: Symbol, side: Side, qty: real, px: real, fx: real, at: int)
    requires px > 0.0 && qty > 0.0
    ensures var f := FillAt(t, s, side, qty, px, fx, at);
            && ChargesOf(t, s, side, px, qty, f.cost)
            && OutlayKrw(f) == fx * (px * qty + f.cost.Total()) && ProceedsKrw(f) == fx * (px * qty - f.cost.Total())
  {
    hide CostModel.CostOf, TradeCost.Total, CountryOf, SixDigits, FxFor, ChargesOf;
    var f := FillAt(t, s, side, qty, px, fx, at);
    FillCharges(t, s, side, px, qty);
    InMoney(px * qty, f.cost.Total(), fx);
  }

  lemma FillCharges(t: Terms, s: Symbol, side: Side, px: real, qty: real)
    requires px > 0.0 && qty > 0.0
    ensures ChargesOf(t, s, side, px, qty, t.costs.CostOf(side, CountryOf(s), px, qty, s in t.etfSymbols, false))
  {
    hide CostModel.CostOn, CountryOf, SixDigits, FxFor;
    WonPer(s, 1.0);
    MulPositive(px, qty);
    assert Abs(px * qty) == px * qty;
    ChargesAre(t.costs, side, CountryOf(s), px * qty, qty, s in t.etfSymbols, false);
  }

  lemma InMoney(gross: real, cost: real, fx: real)
    ensures gross * fx + cost * fx == fx * (gross + cost) && gross * fx - cost * fx == fx * (gross - cost)
  {
  }

  /**
   What the paper broker does with a submission, told without its own helpers. It refuses one that finds no price
   above zero, names no amount, comes to nothing, sells what is not held or costs more than the pool. Any other is
   filled for all that was asked, or all that is held if a sale asks for more; the charges are those of the symbol's
   country; and the pool moves by value and charges, in won for a KR symbol and at the exchange rate for any other.
   */
  lemma SubmissionIs(t: Terms, a: Account, i: Intent, q: Quote, at: int, px: Option<real>, wanted: real, k: TradeCost)
    requires WellKept(a) && TradesAt(q, i.side, px)
    requires px.Some? && px.value > 0.0 && Asked(i, px.value).Some? ==> Fills(Asked(i, px.value).value, px.value, wanted, !SixDigits(i.symbol))
    ensures var r := Assess(t, a, i, q, at);
            if px.None? || px.value <= 0.0 then r == Err(NoPrice)
            else if Asked(i, px.value).None? then r == Err(NoQuantity)
            else if wanted <= 0.0 then r == Err(RoundsToZero)
            else if i.side == Sell && a.holdings.Get(i.symbol) <= 0.0 then r == Err(NothingToSell)
            else
              var qty := if i.side == Sell then Min(wanted, a.holdings.Get(i.symbol)) else wanted;
              ChargesOf(t, i.symbol, i.side, px.value, qty, k) ==>
                var money := (if SixDigits(i.symbol) then 1.0 else q.usdKrw) * Turned(i.side, px.value, qty, k);
                if i.side == Buy && money > a.cash then r == Err(InsufficientCash)
                else
                  && r.Ok?
                  && r.value.symbol == i.symbol && r.value.side == i.side && r.value.quantity == qty
                  && r.value.price == px.value && r.value.at == at && r.value.cost == k
                  && a.holdings.Get(i.symbol) + qty != 0.0
                  && Book(a, r.value).cash == if i.side == Buy then a.cash - money else a.cash + money
  {
    hide Fills, OutlayKrw, ProceedsKrw, CostModel.CostOf, RequestedQuantity, SixDigits, FxFor, ChargesKr, ChargesUs, Asked, AverageAfter, KeepPositive, Put, RawDict.Get;
    WonPer(i.symbol, q.usdKrw);
    assert ExecutionPrice(q, i.side) == px;
    if px.Some? && px.value > 0.0 {
      RequestedIs(i, px.value);
      if Asked(i, px.value).Some? {
        FillsOnce(Asked(i, px.value).value, px.value, wanted, RequestedQuantity(i, px.value).value, !SixDigits(i.symbol));
        var qty := if i.side == Sell then Min(wanted, a.holdings.Get(i.symbol)) else wanted;
        if qty > 0.0 {
          FillIs(t, i.symbol, i.side, qty, px.value, FxFor(i.symbol, q.usdKrw), at);
          if ChargesOf(t, i.symbol, i.side, px.value, qty, k) {
            ChargedOnce(t, i.symbol, i.side, px.value, qty, k, FillAt(t, i.symbol, i.side, qty, px.value, FxFor(i.symbol, q.usdKrw), at).cost);
          }
          WellKeptIsNonNegative(a);
        }
      }
    }
  }

  lemma ChargedOnce(t: Terms, s: Symbol, side: Side, px: real, qty: real, k: TradeCost, l: TradeCost)
    requires ChargesOf(t, s, side, px, qty, k) && ChargesOf(t, s, side, px, qty, l)
    ensures k == l
  {
  }
}
