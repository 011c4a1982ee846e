/** What the paper ledger keeps over every sequence of submissions. */
module PaperTheorems {
  import opened Wrappers
  import opened RealFacts
  import opened OrderedDict
  import opened Costs
  import opened Broker
  import opened Paper

  /** One submission, with the quote and the time it meets. */
  datatype Submission = Submission(intent: Intent, quote: Quote, at: int)

  /** The account after a submission: booked, or unchanged. */
  function Submitted(t: Terms, a: Account, x: Submission): (r: Account)
    requires WellKept(a)
    ensures WellKept(r)
  {
    match Assess(t, a, x.intent, x.quote, x.at)
    case Err(_) => a
    case Ok(f) =>
      AssessedFill(t, a, x.intent, x.quote, x.at);
      BookKeepsWell(a, f);
      Book(a, f)
  }

  /** ... and after the first n submissions to an account funded with `cash`. */
  function AfterAll(t: Terms, cash: real, xs: seq<Submission>, n: nat): (r: Account)
    requires n <= |xs|
    ensures WellKept(r)
  {
    if n == 0 then
      WholeOfInt(0);
      Funded(cash)
    else Submitted(t, AfterAll(t, cash, xs, n - 1), xs[n - 1])
  }

  // ---------------------------------------------------------------- replay

  function CashReplay(cash: real, fills: seq<PaperFill>): real {
    if |fills| == 0 then cash else Paper.CashAfter(CashReplay(cash, fills[..|fills| - 1]), fills[|fills| - 1])
  }

  function QuantityReplay(fills: seq<PaperFill>, s: Symbol): real {
    if |fills| == 0 then 0.0
    else
      var before := QuantityReplay(fills[..|fills| - 1], s);
      if fills[|fills| - 1].symbol == s then QuantityAfter(before, fills[|fills| - 1]) else before
  }

  /** Prices paid for a symbol since its position was last empty. */
  function BuysSinceFlat(fills: seq<PaperFill>, s: Symbol): seq<real> {
    if |fills| == 0 then []
    else
      var f := fills[|fills| - 1];
      var before := BuysSinceFlat(fills[..|fills| - 1], s);
      if f.symbol != s then before
      else if f.side == Buy then before + [f.price]
      else if QuantityReplay(fills, s) <= 0.0 then [] else before
  }

  /** Some price is at or below x, and some at or above: x lies between the lowest and the highest. */
  ghost predicate Brackets(ps: seq<real>, x: real) {
    (exists i :: 0 <= i < |ps| && ps[i] <= x) && (exists i :: 0 <= i < |ps| && x <= ps[i])
  }

  /** Cash and quantities are the replay of the fills, at the exchange rate of each; averages are bracketed. */
  ghost predicate LedgerInv(cash: real, a: Account) {
    && a.cash == CashReplay(cash, a.fills)
    && (forall s :: a.holdings.Get(s) == QuantityReplay(a.fills, s))
    && |a.orderTimes| == |a.fills|
    && (forall s :: s in a.holdings.vals ==> Brackets(BuysSinceFlat(a.fills, s), AverageOf(a, s)))
    && (forall s :: s !in a.holdings.vals ==> BuysSinceFlat(a.fills, s) == [])
  }

  lemma WeightedAverage(avg: real, have: real, px: real, q: real, x: real)
    requires have >= 0.0 && q > 0.0 && x * (have + q) == avg * have + px * q
    ensures (px <= avg || have == 0.0 ==> px <= x) && (px >= avg || have == 0.0 ==> x <= px)
    ensures (avg <= px ==> avg <= x) && (px <= avg ==> x <= avg)
  {
    var n := have + q;
    assert (x - px) * n == (avg - px) * have;
    assert (x - avg) * n == (px - avg) * q;
    Signs(x - px, n, avg - px, have);
    Signs(x - avg, n, px - avg, q);
  }

  lemma Signs(u: real, n: real, v: real, w: real)
    requires u * n == v * w && n > 0.0 && w >= 0.0
    ensures v >= 0.0 || w == 0.0 ==> u >= 0.0
    ensures v <= 0.0 || w == 0.0 ==> u <= 0.0
  {
    if v >= 0.0 { MulNonNegative(v, w); }
    if v <= 0.0 { MulNonNegative(-v, w); }
    if u < 0.0 { MulPositive(-u, n); }
    if u > 0.0 { MulPositive(u, n); }
  }

  lemma BracketsAfterBuy(ps: seq<real>, avg: real, have: real, f: PaperFill)
    requires have >= 0.0 && f.quantity > 0.0 && f.side == Buy && (have > 0.0 ==> Brackets(ps, avg))
    ensures Brackets(ps + [f.price], AverageAfter(have, avg, f))
  {
    var x, qs := AverageAfter(have, avg, f), ps + [f.price];
    assert x * (have + f.quantity) == avg * have + f.price * f.quantity;
    hide AverageAfter;
    WeightedAverage(avg, have, f.price, f.quantity, x);
    assert qs[|ps|] == f.price;
    if have > 0.0 {
      var i :| 0 <= i < |ps| && ps[i] <= avg;
      var j :| 0 <= j < |ps| && avg <= ps[j];
      assert qs[i] == ps[i] && qs[j] == ps[j];
    }
  }

  lemma SaleKeepsAverage(have: real, avg: real, f: PaperFill)
    requires f.side == Sell && have + f.quantity != 0.0
    ensures AverageAfter(have, avg, f) == avg
  {
  }

  lemma BookKeepsAverages(a: Account, f: PaperFill, s: Symbol)
    requires WellKept(a) && f.quantity > 0.0 && (f.side == Sell ==> f.quantity <= a.holdings.Get(f.symbol))
    requires forall x :: a.holdings.Get(x) == QuantityReplay(a.fills, x)
    requires s in a.holdings.vals ==> Brackets(BuysSinceFlat(a.fills, s), AverageOf(a, s))
    requires s !in a.holdings.vals ==> BuysSinceFlat(a.fills, s) == []
    requires a.holdings.Get(f.symbol) >= 0.0
    ensures s in Book(a, f).holdings.vals ==> Brackets(BuysSinceFlat(a.fills + [f], s), AverageOf(Book(a, f), s))
    ensures s !in Book(a, f).holdings.vals ==> BuysSinceFlat(a.fills + [f], s) == []
  {
    hide Brackets, Paper.CashAfter, KeepPositive, Put, IsWhole, AverageAfter, RawDict.Valid;
    var have := a.holdings.Get(f.symbol);
    var now := QuantityAfter(have, f);
    assert (a.fills + [f])[..|a.fills|] == a.fills;
    HeldIffPositive(a.holdings, f.symbol, now, s);
    if f.side == Sell { SaleKeepsAverage(have, AverageOf(a, f.symbol), f); }
    if s == f.symbol && f.side == Buy {
      BracketsAfterBuy(BuysSinceFlat(a.fills, s), AverageOf(a, s), have, f);
    }
  }

  lemma BookKeepsLedger(cash: real, a: Account, f: PaperFill)
    requires LedgerInv(cash, a) && WellKept(a) && f.quantity > 0.0 && a.holdings.Get(f.symbol) >= 0.0
    requires f.side == Sell ==> f.quantity <= a.holdings.Get(f.symbol)
    ensures LedgerInv(cash, Book(a, f))
  {
    hide Brackets, Paper.CashAfter, IsWhole, BuysSinceFlat, AverageOf, AverageAfter, KeepPositive, Put, RawDict.Get, RawDict.Valid;
    assert (a.fills + [f])[..|a.fills|] == a.fills;
    BookedHoldings(a, f);
    forall s
      ensures s in Book(a, f).holdings.vals ==> Brackets(BuysSinceFlat(a.fills + [f], s), AverageOf(Book(a, f), s))
      ensures s !in Book(a, f).holdings.vals ==> BuysSinceFlat(a.fills + [f], s) == []
    {
      BookKeepsAverages(a, f, s);
    }
  }

  /**
   Over every sequence of submissions: the ledger replays from its fills, no holding is negative, KR
   holdings are whole, there is one order per fill, and every average price lies between the lowest and
   the highest price paid since the position was last empty.
   */
  lemma {:induction false} PaperLedgerReplays(t: Terms, cash: real, xs: seq<Submission>, n: nat)
    requires n <= |xs|
    ensures var a := AfterAll(t, cash, xs, n);
            && LedgerInv(cash, a)
            && (forall s :: a.holdings.Get(s) >= 0.0)
            && (forall s :: CountryOf(s) == KR ==> IsWhole(a.holdings.Get(s)))
  {
    hide LedgerInv, Assess, Book, IsWhole, CountryOf;
    if n == 0 {
      NothingFilled(cash);
    } else {
      PaperLedgerReplays(t, cash, xs, n - 1);
      var a, x := AfterAll(t, cash, xs, n - 1), xs[n - 1];
      if Assess(t, a, x.intent, x.quote, x.at).Ok? {
        AssessedFill(t, a, x.intent, x.quote, x.at);
        BookKeepsLedger(cash, a, Assess(t, a, x.intent, x.quote, x.at).value);
      }
    }
    WellKeptIsNonNegative(AfterAll(t, cash, xs, n));
  }

  // ---------------------------------------------------------------- what a position cost

  /** What was paid for the shares held: a purchase adds its value, a sale takes its share of the shares' cost with it. */
  function Basis(fills: seq<PaperFill>, s: Symbol): real {
    if |fills| == 0 then 0.0
    else
      var before, f := fills[..|fills| - 1], fills[|fills| - 1];
      if f.symbol == s then BasisAfter(Basis(before, s), QuantityReplay(before, s), f) else Basis(before, s)
  }

  function BasisAfter(basis: real, have: real, f: PaperFill): real {
    if f.side == Buy then basis + f.price * f.quantity
    else if have > f.quantity && have != 0.0 then basis - basis / have * f.quantity else 0.0
  }

  /** Every position is carried at what it cost. */
  ghost predicate CarriedAtCost(a: Account) {
    forall s :: a.holdings.Get(s) * AverageOf(a, s) == Basis(a.fills, s)
  }

  lemma BlendAddsCost(have: real, avg: real, f: PaperFill)
    requires f.side == Buy && have >= 0.0 && f.quantity > 0.0
    ensures (have + f.quantity) * AverageAfter(have, avg, f) == have * avg + f.price * f.quantity
  {
    var n := have + f.quantity;
    QuotientTimes(avg * have + f.price * f.quantity, n);
  }

  lemma SaleTakesItsShare(have: real, avg: real, q: real, basis: real)
    requires have > q > 0.0 && have * avg == basis
    ensures (have - q) * avg == basis - basis / have * q
  {
    assert basis / have == avg;
    assert (have - q) * avg == have * avg - avg * q;
  }

  lemma BookCarriesCost(a: Account, f: PaperFill, s: Symbol)
    requires WellKept(a) && f.quantity > 0.0 && a.holdings.Get(f.symbol) >= 0.0
    requires f.side == Sell ==> f.quantity <= a.holdings.Get(f.symbol)
    requires a.holdings.Get(s) == QuantityReplay(a.fills, s) && a.holdings.Get(s) * AverageOf(a, s) == Basis(a.fills, s)
    ensures Book(a, f).holdings.Get(s) * AverageOf(Book(a, f), s) == Basis(a.fills + [f], s)
  {
    hide Book, IsWhole, Basis, AverageAfter, AverageOf, RawDict.Get, RawDict.Valid;
    BookedHoldings(a, f);
    BookedAverage(a, f, s);
    OneMoreBasis(a.fills, f, s);
    if s == f.symbol { CostOfOne(a.holdings.Get(s), AverageOf(a, s), f, Basis(a.fills, s)); }
  }

  lemma BookedAverage(a: Account, f: PaperFill, s: Symbol)
    requires a.holdings.Get(f.symbol) + f.quantity != 0.0
    ensures var have := a.holdings.Get(f.symbol);
            AverageOf(Book(a, f), s)
            == if s != f.symbol then AverageOf(a, s)
               else if QuantityAfter(have, f) <= 0.0 then 0.0 else AverageAfter(have, AverageOf(a, s), f)
  {
    hide Paper.CashAfter, AverageAfter, KeepPositive, Put, RawDict.Get, RawDict.Valid;
  }

  lemma OneMoreBasis(fills: seq<PaperFill>, f: PaperFill, s: Symbol)
    ensures Basis(fills + [f], s)
         == if f.symbol != s then Basis(fills, s) else BasisAfter(Basis(fills, s), QuantityReplay(fills, s), f)
  {
    assert (fills + [f])[..|fills|] == fills;
  }

  lemma CostOfOne(have: real, avg: real, f: PaperFill, basis: real)
    requires have >= 0.0 && f.quantity > 0.0 && (f.side == Sell ==> f.quantity <= have) && have * avg == basis
    ensures QuantityAfter(have, f) * (if QuantityAfter(have, f) <= 0.0 then 0.0 else AverageAfter(have, avg, f)) == BasisAfter(basis, have, f)
  {
    hide AverageAfter;
    if f.side == Buy {
      BlendAddsCost(have, avg, f);
    } else {
      SaleKeepsAverage(have, avg, f);
      if have > f.quantity { SaleTakesItsShare(have, avg, f.quantity, basis); }
    }
  }

  /**
   Over every sequence of submissions every average price is the cost of the shares held over their number: what the
   purchases paid, less the share of it that each sale took along.
   */
  lemma {:induction false} AveragesAreCosts(t: Terms, cash: real, xs: seq<Submission>, n: nat)
    requires n <= |xs|
    ensures CarriedAtCost(AfterAll(t, cash, xs, n))
  {
    hide Assess, Book, WellKept, Basis, AverageOf, RawDict.Get, LedgerInv;
    if n == 0 {
      NothingCost(cash);
    } else {
      AveragesAreCosts(t, cash, xs, n - 1);
      PaperLedgerReplays(t, cash, xs, n - 1);
      var a, x := AfterAll(t, cash, xs, n - 1), xs[n - 1];
      ReplaysQuantities(cash, a);
      if Assess(t, a, x.intent, x.quote, x.at).Ok? {
        var f := Assess(t, a, x.intent, x.quote, x.at).value;
        AssessedFill(t, a, x.intent, x.quote, x.at);
        BookFills(a, f);
        forall s ensures Book(a, f).holdings.Get(s) * AverageOf(Book(a, f), s) == Basis(a.fills + [f], s) {
          BookCarriesCost(a, f, s);
        }
      }
    }
  }

  lemma NothingCost(cash: real)
    ensures CarriedAtCost(Funded(cash))
  {
  }

  lemma ReplaysQuantities(cash: real, a: Account)
    requires LedgerInv(cash, a)
    ensures forall s :: a.holdings.Get(s) == QuantityReplay(a.fills, s)
  {
  }

  lemma BookFills(a: Account, f: PaperFill)
    requires a.holdings.Get(f.symbol) + f.quantity != 0.0
    ensures Book(a, f).fills == a.fills + [f]
  {
  }

  lemma NothingFilled(cash: real)
    ensures LedgerInv(cash, Funded(cash))
  {
  }

  lemma WellKeptIsNonNegative(a: Account)
    requires WellKept(a)
    ensures forall s :: a.holdings.Get(s) >= 0.0
  {
    forall s ensures a.holdings.Get(s) >= 0.0 {
      assert s in a.holdings.vals ==> a.holdings.vals[s] > 0.0;
    }
  }

  // ---------------------------------------------------------------- cash

  /** Net proceeds of one share, per KRW of exchange rate, before the capped fee. */
  function NetPrice(t: Terms, s: Symbol, px: real): real {
    px * (1.0 - t.costs.SellRate(CountryOf(s), s in t.etfSymbols))
  }

  ghost predicate SaleNeverLoses(t: Terms, s: Symbol, px: real, fx: real) {
    forall q :: q > 0.0 ==> ProceedsKrw(FillAt(t, s, Sell, q, px, fx, 0)) >= 0.0
  }

  /** What a sale leaves per unit of exchange rate. */
  function GainOf(t: Terms, s: Symbol, px: real, q: real): real {
    SaleNet(px * q, t.costs.SellRate(CountryOf(s), s in t.etfSymbols), q, t.costs.TafRate(CountryOf(s)))
  }

  lemma GainIs(t: Terms, s: Symbol, px: real, q: real)
    requires t.costs.NonNegativeRates() && px > 0.0 && q > 0.0
    ensures px * q - t.costs.CostOf(Sell, CountryOf(s), px, q, s in t.etfSymbols, false).Total() == GainOf(t, s, px, q)
  {
    hide CostModel.CostOn, CostModel.SellRate, CostModel.TafRate, TradeCost.Total, CountryOf;
    MulPositive(px, q);
    SaleProceeds(t.costs, CountryOf(s), px * q, q, s in t.etfSymbols);
  }

  lemma Factor(gross: real, cost: real, fx: real)
    ensures gross * fx - cost * fx == (gross - cost) * fx
  {
  }

  lemma ProceedsAre(t: Terms, s: Symbol, px: real, fx: real, q: real, at: int)
    requires t.costs.NonNegativeRates() && px > 0.0 && q > 0.0
    ensures ProceedsKrw(FillAt(t, s, Sell, q, px, fx, at)) == GainOf(t, s, px, q) * fx
  {
    hide CostModel.CostOf, TradeCost.Total, CountryOf, GainOf, CostModel.NonNegativeRates;
    GainIs(t, s, px, q);
    var f := FillAt(t, s, Sell, q, px, fx, at);
    Factor(px * q, f.cost.Total(), fx);
  }

  lemma CoveredGain(t: Terms, s: Symbol, px: real, q: real)
    requires q > 0.0 && NetPrice(t, s, px) >= t.costs.TafRate(CountryOf(s))
    ensures GainOf(t, s, px, q) >= 0.0
  {
    hide CostModel.SellRate, CostModel.TafRate, CountryOf, SaleNet;
    CoveredQuantity(px, t.costs.SellRate(CountryOf(s), s in t.etfSymbols), q, t.costs.TafRate(CountryOf(s)));
  }

  lemma CoveredQuantity(px: real, rate: real, q: real, taf: real)
    requires q > 0.0 && px * (1.0 - rate) >= taf
    ensures SaleNet(px * q, rate, q, taf) >= 0.0
  {
    var net := 1.0 - rate;
    MulMono(q, taf, px * net);
    assert px * q * net == q * (px * net);
  }

  /** A quantity small enough for the fee not to reach its cap. */
  lemma UncoveredGain(t: Terms, s: Symbol, px: real) returns (q: real)
    requires NetPrice(t, s, px) < t.costs.TafRate(CountryOf(s))
    ensures q > 0.0 && GainOf(t, s, px, q) < 0.0
  {
    hide CostModel.SellRate, CostModel.TafRate, CountryOf, SaleNet;
    q := LosingQuantity(px, t.costs.SellRate(CountryOf(s), s in t.etfSymbols), t.costs.TafRate(CountryOf(s)));
  }

  lemma LosingQuantity(px: real, rate: real, taf: real) returns (q: real)
    requires px * (1.0 - rate) < taf
    ensures q > 0.0 && SaleNet(px * q, rate, q, taf) < 0.0
  {
    hide SaleNet;
    q := UncappedQuantity(taf);
    UncappedLoses(px, rate, q, taf);
  }

  lemma UncappedQuantity(taf: real) returns (q: real)
    ensures q > 0.0 && q * taf <= US_TAF_CAP
  {
    if taf <= US_TAF_CAP {
      q := 1.0;
    } else {
      q := US_TAF_CAP / taf;
      QuotientTimes(US_TAF_CAP, taf);
      assert q != 0.0;
    }
  }

  lemma UncappedLoses(px: real, rate: real, q: real, taf: real)
    requires q > 0.0 && q * taf <= US_TAF_CAP && px * (1.0 - rate) < taf
    ensures SaleNet(px * q, rate, q, taf) < 0.0
  {
    var net := 1.0 - rate;
    MulPositive(q, taf - px * net);
    assert q * (taf - px * net) == q * taf - px * q * net;
  }

  lemma NegativeTimes(x: real, y: real)
    requires x < 0.0 && y > 0.0
    ensures x * y < 0.0
  {
    MulPositive(-x, y);
  }

  /** Exactly when no sale of any size can drain the pool: the net price covers the per-share fee. */
  lemma SaleNeverLosesIff(t: Terms, s: Symbol, px: real, fx: real)
    requires t.costs.NonNegativeRates() && px > 0.0 && fx > 0.0
    ensures SaleNeverLoses(t, s, px, fx) <==> NetPrice(t, s, px) >= t.costs.TafRate(CountryOf(s))
  {
    hide ProceedsKrw, FillAt, NetPrice, GainOf, CostModel.TafRate, CountryOf, CostModel.NonNegativeRates;
    if NetPrice(t, s, px) >= t.costs.TafRate(CountryOf(s)) {
      forall q | q > 0.0 ensures ProceedsKrw(FillAt(t, s, Sell, q, px, fx, 0)) >= 0.0 {
        ProceedsAre(t, s, px, fx, q, 0);
        CoveredGain(t, s, px, q);
        MulNonNegative(GainOf(t, s, px, q), fx);
      }
    } else {
      var q := UncoveredGain(t, s, px);
      ProceedsAre(t, s, px, fx, q, 0);
      NegativeTimes(GainOf(t, s, px, q), fx);
    }
  }

  lemma CoveredSaleKeepsCash(t: Terms, f: PaperFill)
    requires t.costs.NonNegativeRates() && f.price > 0.0 && f.quantity > 0.0 && f.fx > 0.0
    requires f == FillAt(t, f.symbol, Sell, f.quantity, f.price, f.fx, f.at)
    requires NetPrice(t, f.symbol, f.price) >= t.costs.TafRate(CountryOf(f.symbol))
    ensures ProceedsKrw(f) >= 0.0
  {
    hide ProceedsKrw, FillAt, NetPrice, GainOf, CostModel.TafRate, CountryOf, CostModel.NonNegativeRates;
    ProceedsAre(t, f.symbol, f.price, f.fx, f.quantity, f.at);
    CoveredGain(t, f.symbol, f.price, f.quantity);
    MulNonNegative(GainOf(t, f.symbol, f.price, f.quantity), f.fx);
  }

  /** The check a caller can make before a sale: its price, net of the proportional costs, covers the fee. */
  predicate SaleIsCovered(t: Terms, x: Submission) {
    var px := ExecutionPrice(x.quote, Sell);
    x.intent.side == Sell && px.Some? && px.value > 0.0 ==>
      NetPrice(t, x.intent.symbol, px.value) >= t.costs.TafRate(CountryOf(x.intent.symbol))
  }

  /** A submission leaves cash non-negative, if a sale at its price cannot lose. */
  lemma SubmissionKeepsCash(t: Terms, a: Account, x: Submission)
    requires WellKept(a) && a.cash >= 0.0 && t.costs.NonNegativeRates() && x.quote.usdKrw > 0.0 && SaleIsCovered(t, x)
    ensures Submitted(t, a, x).cash >= 0.0
  {
    hide OutlayKrw, ProceedsKrw, CostModel.CostOf, NetPrice, CostModel.TafRate, CountryOf, RequestedQuantity, FxFor, CostModel.NonNegativeRates;
    var r := Assess(t, a, x.intent, x.quote, x.at);
    if r.Ok? {
      AssessedFill(t, a, x.intent, x.quote, x.at);
      FxIsPositive(x.intent.symbol, x.quote.usdKrw);
      if r.value.side == Sell { CoveredSaleKeepsCash(t, r.value); }
    }
  }

  lemma FxIsPositive(s: Symbol, usdKrw: real)
    requires usdKrw > 0.0
    ensures FxFor(s, usdKrw) > 0.0
  {
  }

  /** No leverage: over every sequence of submissions whose sales are covered, cash never goes below zero. */
  lemma {:induction false} PaperStaysSolvent(t: Terms, cash: real, xs: seq<Submission>, n: nat)
    requires n <= |xs| && cash >= 0.0 && t.costs.NonNegativeRates()
    requires forall i :: 0 <= i < |xs| ==> xs[i].quote.usdKrw > 0.0 && SaleIsCovered(t, xs[i])
    ensures AfterAll(t, cash, xs, n).cash >= 0.0
  {
    hide Submitted, SaleIsCovered, CostModel.NonNegativeRates;
    if n > 0 {
      PaperStaysSolvent(t, cash, xs, n - 1);
      SubmissionKeepsCash(t, AfterAll(t, cash, xs, n - 1), xs[n - 1]);
    }
  }

  // ---------------------------------------------------------------- round trips

  /** The order that sells what a purchase brought in. */
  function Undo(s: Symbol, bought: real): Intent {
    Intent(s, Sell, Some(bought), None)
  }

  /** The spread on a quantity, in KRW. */
  function SpreadKrw(ask: real, bid: real, x: real, fx: real): real {
    (ask - bid) * x * fx
  }

  /**
   Crossing the spread is paid for: buying and selling the same quantity against one order book restores
   every holding and loses at least the spread on it.
   */
  lemma RoundTripPaysTheSpread(t: Terms, a: Account, i: Intent, q: Quote, at: int, later: int)
    requires WellKept(a) && t.costs.NonNegativeRates() && q.usdKrw > 0.0 && i.side == Buy
    requires q.bestAsk.Some? && q.bestBid.Some? && 0.0 < q.bestBid.value <= q.bestAsk.value
    requires Assess(t, a, i, q, at).Ok?
    ensures var b := Submitted(t, a, Submission(i, q, at));
            var bought := b.holdings.Get(i.symbol) - a.holdings.Get(i.symbol);
            var c := Submitted(t, b, Submission(Undo(i.symbol, bought), q, later));
            && bought > 0.0
            && c.cash <= a.cash - SpreadKrw(q.bestAsk.value, q.bestBid.value, bought, FxFor(i.symbol, q.usdKrw))
            && (forall s :: c.holdings.Get(s) == a.holdings.Get(s))
            && |c.fills| == |a.fills| + 2
  {
    hide Assess, WellKept, OutlayKrw, ProceedsKrw, FillAt, CountryOf, FxFor, CostModel.NonNegativeRates, IsWhole, SpreadKrw, KeepPositive, Put, RawDict.Get;
    var fx := FxFor(i.symbol, q.usdKrw);
    var f := Assess(t, a, i, q, at).value;
    AssessedFill(t, a, i, q, at);
    BuyIsAtTheAsk(t, a, i, q, at);
    BookKeepsWell(a, f);
    var b, bought := Book(a, f), f.quantity;
    assert b.holdings.Get(i.symbol) - a.holdings.Get(i.symbol) == bought;
    UndoIsAssessed(t, b, i.symbol, bought, q, later);
    var g := Assess(t, b, Undo(i.symbol, bought), q, later).value;
    AssessedFill(t, b, Undo(i.symbol, bought), q, later);
    UndoneQuantity(t, i.symbol, bought, q.bestBid.value, fx, later);
    BookKeepsWell(b, g);
    FxIsPositive(i.symbol, q.usdKrw);
    TripCosts(t, i.symbol, bought, q.bestAsk.value, q.bestBid.value, fx, at, later);
  }

  lemma BuyIsAtTheAsk(t: Terms, a: Account, i: Intent, q: Quote, at: int)
    requires Assess(t, a, i, q, at).Ok? && i.side == Buy && q.bestAsk.Some? && q.bestAsk.value > 0.0
    ensures var f := Assess(t, a, i, q, at).value;
            f == FillAt(t, i.symbol, Buy, f.quantity, q.bestAsk.value, FxFor(i.symbol, q.usdKrw), at)
  {
    hide CostModel.CostOf, FxFor, CountryOf, RequestedQuantity, OutlayKrw;
  }

  lemma UndoneQuantity(t: Terms, s: Symbol, x: real, px: real, fx: real, at: int)
    ensures FillAt(t, s, Sell, x, px, fx, at).quantity == x
  {
  }

  lemma UndoIsAssessed(t: Terms, b: Account, s: Symbol, bought: real, q: Quote, later: int)
    requires bought > 0.0 && b.holdings.Get(s) >= bought && (CountryOf(s) == KR ==> IsWhole(bought))
    requires q.bestBid.Some? && q.bestBid.value > 0.0
    ensures Assess(t, b, Undo(s, bought), q, later)
         == Ok(FillAt(t, s, Sell, bought, q.bestBid.value, FxFor(s, q.usdKrw), later))
  {
    hide CostModel.CostOf, FxFor, CountryOf;
  }

  lemma TripCosts(t: Terms, s: Symbol, x: real, ask: real, bid: real, fx: real, at: int, later: int)
    requires t.costs.NonNegativeRates() && fx > 0.0
    ensures ProceedsKrw(FillAt(t, s, Sell, x, bid, fx, later))
         <= OutlayKrw(FillAt(t, s, Buy, x, ask, fx, at)) - SpreadKrw(ask, bid, x, fx)
  {
    hide CostModel.CostOf, CountryOf, CostModel.NonNegativeRates, TradeCost.Total, SpreadKrw;
    var buy, sell := FillAt(t, s, Buy, x, ask, fx, at), FillAt(t, s, Sell, x, bid, fx, later);
    CostIsNonNegative(t.costs, Buy, CountryOf(s), ask, x, s in t.etfSymbols);
    CostIsNonNegative(t.costs, Sell, CountryOf(s), bid, x, s in t.etfSymbols);
    MulNonNegative(buy.cost.Total(), fx);
    MulNonNegative(sell.cost.Total(), fx);
    Spread(ask, bid, x, fx);
  }

  lemma Spread(ask: real, bid: real, x: real, fx: real)
    ensures SpreadKrw(ask, bid, x, fx) == ask * x * fx - bid * x * fx
  {
  }
}
