/** Rebalancing the live account reaches a fixed point in one pass. */
module IntentTheorems {
  import opened Wrappers
  import opened RealFacts
  import opened OrderedDict
  import opened Sorting
  import opened Costs
  import opened Broker
  import opened Intents

  ghost predicate PositiveHoldings(snap: Snapshot) {
    forall s :: s in snap.holdings.vals ==> snap.holdings.vals[s] > 0.0
  }

  /** Every quoted symbol is marked at its quote. */
  ghost predicate MarkedAtQuotes(snap: Snapshot, quotes: map<Symbol, real>) {
    snap.usdKrw > 0.0 && forall s :: s in quotes ==> s in snap.prices && snap.prices[s] == quotes[s]
  }

  /** Two looks at the same market. */
  ghost predicate SameMarket(a: Snapshot, b: Snapshot) {
    a.usdKrw == b.usdKrw && a.prices == b.prices && a.avgPrice == b.avgPrice
  }

  // ---------------------------------------------------------------- equity does not move

  /** The units of the holdings and one more symbol. */
  function UnitsWith(snap: Snapshot, s: Symbol): map<Symbol, real> {
    map x | x in snap.holdings.vals.Keys + {s} :: snap.UnitOf(x)
  }

  lemma WorthMoves(d: Dict, units: map<Symbol, real>, s: Symbol, now: real, unit: real)
    requires (forall x :: x in d.vals ==> d.vals[x] > 0.0) && now >= 0.0 && s in units && units[s] == unit
    ensures Worth(KeepPositive(Put(d, s, now)), units) == Worth(d, units) + unit * now - unit * d.Get(s)
  {
    hide Put, KeepPositive, Worth, RawDict.Get, RawDict.Valid;
    PutFacts(d, s, now);
    WorthOfPut(d, units, s, now);
    WorthOfKeepPositive(Put(d, s, now), units);
  }

  lemma FillingKeepsEquity(snap: Snapshot, quotes: map<Symbol, real>, p: Plan)
    requires PositiveHoldings(snap) && MarkedAtQuotes(snap, quotes)
    requires p.intent.symbol in quotes && p.price == quotes[p.intent.symbol]
    requires p.intent.quantity.Some? && FilledHolding(snap.holdings.Get(p.intent.symbol), p) >= 0.0
    ensures Filled(snap, p).EquityKrw() == snap.EquityKrw()
  {
    hide Put, KeepPositive, Worth, RawDict.Get, RawDict.Valid, UnitsWith, Filled, Snapshot.UnitOf, Snapshot.UnitKrw, MarkedAtQuotes;
    var s := p.intent.symbol;
    var have, now := snap.holdings.Get(s), FilledHolding(snap.holdings.Get(s), p);
    var unit := snap.UnitOf(s);
    UnitsCover(snap, s);
    WorthMoves(snap.holdings, UnitsWith(snap, s), s, now, unit);
    FilledUnits(snap, p);
    SameWorth(snap.holdings, snap.UnitKrw(), UnitsWith(snap, s));
    FilledParts(snap, quotes, p);
    ValueMoves(unit, have, now, p.intent.quantity.value);
  }

  lemma UnitsCover(snap: Snapshot, s: Symbol)
    ensures s in UnitsWith(snap, s) && UnitsWith(snap, s)[s] == snap.UnitOf(s)
    ensures forall x :: x in snap.holdings.vals ==>
              x in snap.UnitKrw() && x in UnitsWith(snap, s) && snap.UnitKrw()[x] == UnitsWith(snap, s)[x]
  {
    hide Snapshot.UnitOf, RawDict.Valid;
  }

  /** What a fill at the quote does to cash and holdings, in units of the mark. */
  lemma FilledParts(snap: Snapshot, quotes: map<Symbol, real>, p: Plan)
    requires MarkedAtQuotes(snap, quotes) && p.intent.symbol in quotes && p.price == quotes[p.intent.symbol]
    requires p.intent.quantity.Some?
    ensures var s, qty := p.intent.symbol, p.intent.quantity.value; var value := qty * snap.UnitOf(s);
            && Filled(snap, p).cash == (if p.intent.side == Buy then snap.cash - value else snap.cash + value)
            && Filled(snap, p).holdings == KeepPositive(Put(snap.holdings, s, FilledHolding(snap.holdings.Get(s), p)))
  {
    hide Put, KeepPositive, FxFor, FilledHolding, RawDict.Get, RawDict.Valid;
    assert snap.MarkOf(p.intent.symbol) == p.price;
  }

  lemma FilledUnits(snap: Snapshot, p: Plan)
    requires p.intent.quantity.Some?
    ensures Worth(Filled(snap, p).holdings, Filled(snap, p).UnitKrw()) == Worth(Filled(snap, p).holdings, UnitsWith(snap, p.intent.symbol))
  {
    hide Filled, Worth, RawDict.Valid;
    FillHoldsItsSymbol(snap, p);
    FillKeepsMarks(snap, p);
    SameUnitValues(snap, Filled(snap, p), p.intent.symbol);
    SameWorth(Filled(snap, p).holdings, Filled(snap, p).UnitKrw(), UnitsWith(snap, p.intent.symbol));
  }

  lemma FillKeepsMarks(snap: Snapshot, p: Plan)
    requires p.intent.quantity.Some?
    ensures SameMarket(snap, Filled(snap, p))
  {
    hide Put, KeepPositive, FxFor, RawDict.Get, RawDict.Valid, FilledHolding;
  }

  lemma SameUnitValues(a: Snapshot, b: Snapshot, s: Symbol)
    requires SameMarket(a, b) && forall x :: x in b.holdings.vals ==> x == s || x in a.holdings.vals
    ensures forall x :: x in b.holdings.vals ==> x in b.UnitKrw() && x in UnitsWith(a, s) && b.UnitKrw()[x] == UnitsWith(a, s)[x]
  {
    hide Snapshot.UnitOf, RawDict.Valid;
    forall x | x in b.holdings.vals ensures a.UnitOf(x) == b.UnitOf(x) { SameUnit(a, b, x); }
  }

  lemma SameUnit(a: Snapshot, b: Snapshot, x: Symbol)
    requires SameMarket(a, b)
    ensures a.UnitOf(x) == b.UnitOf(x)
  {
    hide FxFor;
  }

  lemma PutFacts(d: Dict, s: Symbol, v: real)
    requires (forall x :: x in d.vals ==> d.vals[x] > 0.0) && v >= 0.0
    ensures NonNegative(Put(d, s, v))
    ensures forall x :: x in KeepPositive(Put(d, s, v)).vals ==> x == s || x in d.vals
    ensures forall x :: KeepPositive(Put(d, s, v)).Get(x) == if x == s then v else d.Get(x)
    ensures forall x :: x in KeepPositive(Put(d, s, v)).vals ==> KeepPositive(Put(d, s, v)).vals[x] > 0.0
  {
    var put := Put(d, s, v);
    forall x ensures put.Get(x) >= 0.0 {}
    forall x ensures KeepPositive(put).Get(x) == if x == s then v else d.Get(x) {
      assert put.Get(x) >= 0.0;
    }
  }

  lemma ValueMoves(unit: real, have: real, now: real, qty: real)
    ensures now == have + qty ==> unit * now - unit * have == qty * unit
    ensures now == have - qty ==> unit * have - unit * now == qty * unit
  {
  }

  // ---------------------------------------------------------------- one symbol

  /** A weight is the holding's unit value over equity. */
  lemma WeightIs(snap: Snapshot, quotes: map<Symbol, real>, s: Symbol)
    requires MarkedAtQuotes(snap, quotes) && s in quotes && snap.EquityKrw() > 0.0
    ensures snap.Weight(s) * snap.EquityKrw() == UnitPrice(snap, quotes, s) * snap.holdings.Get(s)
  {
    hide Snapshot.EquityKrw, FxFor;
    var e, h, fx := snap.EquityKrw(), snap.holdings.Get(s), FxFor(s, snap.usdKrw);
    if s in snap.holdings.vals {
      var value := snap.MarkOf(s) * h * fx;
      assert (value / e) * e == value;
      assert value == quotes[s] * fx * h;
    } else {
      assert UnitPrice(snap, quotes, s) * 0.0 == 0.0;
    }
  }

  /** Whole or exact, the shares for a gap leave less than one share of it. */
  lemma SharesClose(s: Symbol, gap: real, unit: real)
    requires unit > 0.0 && gap >= 0.0
    ensures var q := SharesFor(s, gap, unit);
            0.0 <= gap - unit * q < unit && (CountryOf(s) == US ==> gap - unit * q == 0.0) && q >= 0.0
    ensures CountryOf(s) == KR ==> IsWhole(SharesFor(s, gap, unit))
  {
    hide CountryOf;
    var x := gap / unit;
    QuotientTimes(gap, unit);
    WithinOneUnit(x, unit, SharesFor(s, gap, unit), gap);
    WholeOfInt(Truncate(x));
  }

  /** A gap of less than one share, or none, plans nothing. */
  lemma SmallGapPlansNothing(targets: Dict, snap: Snapshot, markets: set<Country>, quotes: map<Symbol, real>, s: Symbol)
    requires snap.usdKrw > 0.0 && snap.EquityKrw() > 0.0 && s in quotes && quotes[s] > 0.0
    requires Notional(Drift(targets, snap, s), snap.EquityKrw()) < UnitPrice(snap, quotes, s)
    requires CountryOf(s) == US ==> Drift(targets, snap, s) == 0.0
    ensures PlanFor(targets, snap, markets, quotes, s) == None
  {
    hide Snapshot.EquityKrw, Drift, UnitPrice, CountryOf, Notional, SellShares;
    UnitIsPositive(snap, quotes, s);
    if CountryOf(s) == KR {
      NotionalIsNonNegative(Drift(targets, snap, s), snap.EquityKrw());
      BelowOne(Notional(Drift(targets, snap, s), snap.EquityKrw()), UnitPrice(snap, quotes, s));
    }
  }

  lemma NotionalIsNonNegative(drift: real, equity: real)
    requires equity > 0.0
    ensures Notional(drift, equity) >= 0.0
  {
    MulNonNegative(Abs(drift), equity);
  }

  /** The value in KRW the target weight asks for. */
  function Goal(targets: Dict, snap: Snapshot, s: Symbol): real {
    targets.Get(s) * snap.EquityKrw()
  }

  /** Filling a plan leaves less than one share of the gap it was made for, and for US symbols none. */
  ghost predicate Closes(s: Symbol, goal: real, unit: real, now: real) {
    && now >= 0.0 && Abs(goal - unit * now) < unit
    && (CountryOf(s) == US ==> goal == unit * now)
    && (CountryOf(s) == KR ==> IsWhole(now))
  }

  lemma BuyCloses(s: Symbol, goal: real, unit: real, have: real, q: real)
    requires unit > 0.0 && have >= 0.0 && q >= 0.0 && 0.0 <= goal - unit * have - unit * q < unit
    requires CountryOf(s) == US ==> goal - unit * have - unit * q == 0.0
    requires CountryOf(s) == KR ==> IsWhole(have) && IsWhole(q)
    ensures Closes(s, goal, unit, have + q)
  {
    hide IsWhole, CountryOf;
    assert unit * (have + q) == unit * have + unit * q;
    if CountryOf(s) == KR { WholeSum(have, q); }
  }

  lemma SellCloses(s: Symbol, goal: real, unit: real, have: real, q: real)
    requires unit > 0.0 && goal >= 0.0 && q >= 0.0 && 0.0 <= unit * have - goal - unit * q < unit
    requires CountryOf(s) == US ==> unit * have - goal - unit * q == 0.0
    requires CountryOf(s) == KR ==> IsWhole(have) && IsWhole(q)
    ensures q <= have && SellShares(s, q, have) == q && Closes(s, goal, unit, have - q)
  {
    hide IsWhole, CountryOf;
    FewerUnits(unit, q, have);
    if CountryOf(s) == KR { WholeSum(have, q); TruncateWhole(q); }
  }

  lemma FewerUnits(unit: real, q: real, have: real)
    requires unit > 0.0 && unit * q <= unit * have
    ensures q <= have && unit * (have - q) == unit * have - unit * q
  {
    if q > have { MulPositive(unit, q - have); }
  }

  lemma TruncateWhole(q: real)
    requires q >= 0.0 && IsWhole(q)
    ensures Truncate(q) as real == q
  {
  }

  lemma PlanCloses(targets: Dict, snap: Snapshot, markets: set<Country>, quotes: map<Symbol, real>, s: Symbol)
    requires MarkedAtQuotes(snap, quotes) && PositiveHoldings(snap) && snap.EquityKrw() > 0.0 && targets.Get(s) >= 0.0
    requires CountryOf(s) == KR ==> IsWhole(snap.holdings.Get(s))
    requires PlanFor(targets, snap, markets, quotes, s).Some?
    ensures s in quotes && quotes[s] > 0.0 && UnitPrice(snap, quotes, s) > 0.0
    ensures var p := PlanFor(targets, snap, markets, quotes, s).value;
            && p.intent.symbol == s && p.price == quotes[s] && p.intent.quantity.Some?
            && Closes(s, Goal(targets, snap, s), UnitPrice(snap, quotes, s), FilledHolding(snap.holdings.Get(s), p))
  {
    hide Snapshot.EquityKrw, Drift, UnitPrice, CountryOf, SharesFor, SellShares, FxFor, IsWhole, Closes, Notional, Goal, RawDict.Valid;
    UnitIsPositive(snap, quotes, s);
    var e, unit, have := snap.EquityKrw(), UnitPrice(snap, quotes, s), snap.holdings.Get(s);
    GapCloses(targets, snap, quotes, s, SharesFor(s, Notional(Drift(targets, snap, s), e), unit));
  }

  /** Trading the shares for the gap closes it, in either direction. */
  lemma GapCloses(targets: Dict, snap: Snapshot, quotes: map<Symbol, real>, s: Symbol, q: real)
    requires MarkedAtQuotes(snap, quotes) && PositiveHoldings(snap) && snap.EquityKrw() > 0.0 && targets.Get(s) >= 0.0
    requires CountryOf(s) == KR ==> IsWhole(snap.holdings.Get(s))
    requires s in quotes && UnitPrice(snap, quotes, s) > 0.0 && Drift(targets, snap, s) != 0.0
    requires q == SharesFor(s, Notional(Drift(targets, snap, s), snap.EquityKrw()), UnitPrice(snap, quotes, s))
    ensures var unit, have, goal := UnitPrice(snap, quotes, s), snap.holdings.Get(s), Goal(targets, snap, s);
            && have >= 0.0
            && (Drift(targets, snap, s) > 0.0 ==> Closes(s, goal, unit, have + q))
            && (Drift(targets, snap, s) < 0.0 ==> SellShares(s, q, have) == q && Closes(s, goal, unit, have - q))
  {
    hide Snapshot.EquityKrw, Drift, UnitPrice, CountryOf, SharesFor, SellShares, FxFor, IsWhole, Closes, Notional, RawDict.Valid;
    var e, unit, have, goal := snap.EquityKrw(), UnitPrice(snap, quotes, s), snap.holdings.Get(s), Goal(targets, snap, s);
    var drift := Drift(targets, snap, s);
    assert goal >= 0.0 by { MulNonNegative(targets.Get(s), e); }
    assert have >= 0.0 by { assert s in snap.holdings.vals ==> snap.holdings.vals[s] > 0.0; }
    hide Goal, RawDict.Get;
    GapIs(targets, snap, quotes, s);
    NotionalIsNonNegative(drift, e);
    SharesClose(s, Notional(drift, e), unit);
    if drift > 0.0 { BuyCloses(s, goal, unit, have, q); } else { SellCloses(s, goal, unit, have, q); }
  }

  lemma GapIs(targets: Dict, snap: Snapshot, quotes: map<Symbol, real>, s: Symbol)
    requires MarkedAtQuotes(snap, quotes) && s in quotes && snap.EquityKrw() > 0.0
    ensures var d := Drift(targets, snap, s); var gap := Goal(targets, snap, s) - UnitPrice(snap, quotes, s) * snap.holdings.Get(s);
            && d * snap.EquityKrw() == gap
            && Notional(d, snap.EquityKrw()) == (if d > 0.0 then gap else -gap) == Abs(gap)
            && (gap == 0.0 ==> d == 0.0)
  {
    hide Snapshot.EquityKrw, Snapshot.Weight, UnitPrice;
    WeightIs(snap, quotes, s);
    var d, e := Drift(targets, snap, s), snap.EquityKrw();
    assert d * e == targets.Get(s) * e - snap.Weight(s) * e;
    AbsTimes(d, e);
  }

  // ---------------------------------------------------------------- the whole account

  /** Symbol s after its plan, if it has one, is filled. */
  function Target(targets: Dict, snap: Snapshot, markets: set<Country>, quotes: map<Symbol, real>, s: Symbol): real
    requires snap.usdKrw > 0.0
  {
    match PlanFor(targets, snap, markets, quotes, s)
    case None => snap.holdings.Get(s)
    case Some(p) => if p.intent.quantity.Some? then FilledHolding(snap.holdings.Get(s), p) else snap.holdings.Get(s)
  }

  /** A symbol whose holding did not change looks the same as before. */
  lemma UntouchedLooksTheSame(targets: Dict, snap: Snapshot, after: Snapshot, markets: set<Country>, quotes: map<Symbol, real>, s: Symbol)
    requires PositiveHoldings(snap) && PositiveHoldings(after) && SameMarket(snap, after) && snap.usdKrw > 0.0
    requires after.EquityKrw() == snap.EquityKrw() && after.holdings.Get(s) == snap.holdings.Get(s)
    ensures PlanFor(targets, after, markets, quotes, s) == PlanFor(targets, snap, markets, quotes, s)
  {
    hide Snapshot.EquityKrw, CountryOf, SharesFor, SellShares, FxFor, UnitPrice, Notional;
    assert (s in snap.holdings.vals ==> snap.holdings.vals[s] > 0.0) && (s in after.holdings.vals ==> after.holdings.vals[s] > 0.0);
    assert snap.Weight(s) == after.Weight(s);
    hide Snapshot.Weight;
    if s in quotes {
      SameUnits(snap, after, quotes, s);
      if quotes[s] > 0.0 { UnitIsPositive(snap, quotes, s); }
    }
  }

  /** The same look, with the planned symbol filled, plans nothing more for it. */
  lemma SymbolSettles(targets: Dict, snap: Snapshot, after: Snapshot, markets: set<Country>, quotes: map<Symbol, real>, s: Symbol)
    requires MarkedAtQuotes(snap, quotes) && PositiveHoldings(snap) && PositiveHoldings(after) && SameMarket(snap, after)
    requires snap.EquityKrw() > 0.0 && after.EquityKrw() == snap.EquityKrw() && targets.Get(s) >= 0.0
    requires CountryOf(s) == KR ==> IsWhole(snap.holdings.Get(s))
    requires after.holdings.Get(s) == Target(targets, snap, markets, quotes, s)
    ensures PlanFor(targets, after, markets, quotes, s) == None
    ensures PlanFor(targets, snap, markets, quotes, s).Some? ==>
              && s in quotes
              && Notional(Drift(targets, after, s), after.EquityKrw()) < UnitPrice(after, quotes, s)
              && (CountryOf(s) == US ==> Drift(targets, after, s) == 0.0)
  {
    hide Snapshot.EquityKrw, UnitPrice, CountryOf, IsWhole, PlanFor, Drift, Notional, RawDict.Valid, RawDict.Get;
    if PlanFor(targets, snap, markets, quotes, s).None? {
      UntouchedLooksTheSame(targets, snap, after, markets, quotes, s);
    } else {
      PlanCloses(targets, snap, markets, quotes, s);
      SameUnits(snap, after, quotes, s);
      StillMarked(snap, after, quotes);
      hide Closes, FilledHolding;
      ClosedGapIsSmall(targets, snap, after, quotes, s);
      SmallGapPlansNothing(targets, after, markets, quotes, s);
    }
  }

  lemma StillMarked(a: Snapshot, b: Snapshot, quotes: map<Symbol, real>)
    requires MarkedAtQuotes(a, quotes) && SameMarket(a, b)
    ensures MarkedAtQuotes(b, quotes)
  {
  }

  /** Where a holding closes the gap to its goal, the next drift is worth less than one share. */
  lemma ClosedGapIsSmall(targets: Dict, snap: Snapshot, after: Snapshot, quotes: map<Symbol, real>, s: Symbol)
    requires MarkedAtQuotes(after, quotes) && s in quotes && UnitPrice(after, quotes, s) == UnitPrice(snap, quotes, s)
    requires snap.EquityKrw() > 0.0 && after.EquityKrw() == snap.EquityKrw()
    requires Closes(s, Goal(targets, snap, s), UnitPrice(snap, quotes, s), after.holdings.Get(s))
    ensures Notional(Drift(targets, after, s), after.EquityKrw()) < UnitPrice(after, quotes, s)
    ensures CountryOf(s) == US ==> Drift(targets, after, s) == 0.0
  {
    hide Snapshot.EquityKrw, UnitPrice, CountryOf, IsWhole, Drift, Notional, RawDict.Valid, RawDict.Get;
    assert Goal(targets, after, s) == Goal(targets, snap, s);
    hide Goal;
    GapIs(targets, after, quotes, s);
  }

  lemma SameUnits(a: Snapshot, b: Snapshot, quotes: map<Symbol, real>, s: Symbol)
    requires SameMarket(a, b) && s in quotes
    ensures UnitPrice(a, quotes, s) == UnitPrice(b, quotes, s)
  {
  }

  lemma AbsTimes(d: real, e: real)
    requires e > 0.0
    ensures Abs(d) * e == Abs(d * e)
    ensures d * e == 0.0 ==> d == 0.0
  {
    if d > 0.0 { MulPositive(d, e); }
    if d < 0.0 { MulPositive(-d, e); }
  }

  // ---------------------------------------------------------------- all the plans together

  /** The plans are those of their own symbols, one each. */
  ghost predicate PlansOf(targets: Dict, snap: Snapshot, markets: set<Country>, quotes: map<Symbol, real>, ps: seq<Plan>)
    requires snap.usdKrw > 0.0
  {
    && (forall i :: 0 <= i < |ps| ==> PlanFor(targets, snap, markets, quotes, ps[i].intent.symbol) == Some(ps[i]))
    && (forall i, j :: 0 <= i < j < |ps| ==> ps[i].intent.symbol != ps[j].intent.symbol)
  }

  lemma {:induction false} PlansToAre(targets: Dict, snap: Snapshot, markets: set<Country>, quotes: map<Symbol, real>, symbols: seq<Symbol>, n: nat)
    requires n <= |symbols| && snap.usdKrw > 0.0 && Distinct(symbols)
    ensures PlansOf(targets, snap, markets, quotes, PlansTo(targets, snap, markets, quotes, symbols, n))
    ensures forall p :: p in PlansTo(targets, snap, markets, quotes, symbols, n) <==>
              exists i :: 0 <= i < n && PlanFor(targets, snap, markets, quotes, symbols[i]) == Some(p)
  {
    hide Drift, SharesFor, UnitPrice, SellShares, CountryOf, FxFor, Snapshot.EquityKrw;
    if n > 0 {
      PlansToAre(targets, snap, markets, quotes, symbols, n - 1);
      PlanNamesSymbol(targets, snap, markets, quotes, symbols[n - 1]);
      hide PlanFor;
      var before, now := PlansTo(targets, snap, markets, quotes, symbols, n - 1), PlansTo(targets, snap, markets, quotes, symbols, n);
      forall p | p in before ensures p.intent.symbol != symbols[n - 1] {
        var i :| 0 <= i < n - 1 && PlanFor(targets, snap, markets, quotes, symbols[i]) == Some(p);
        PlanNamesSymbol(targets, snap, markets, quotes, symbols[i]);
      }
      forall p ensures p in now <==> exists i :: 0 <= i < n && PlanFor(targets, snap, markets, quotes, symbols[i]) == Some(p) {
        if PlanFor(targets, snap, markets, quotes, symbols[n - 1]) == Some(p) { assert p in now; }
      }
    }
  }

  lemma PlanNamesSymbol(targets: Dict, snap: Snapshot, markets: set<Country>, quotes: map<Symbol, real>, s: Symbol)
    requires snap.usdKrw > 0.0
    ensures var p := PlanFor(targets, snap, markets, quotes, s); p.Some? ==> p.value.intent.symbol == s && p.value.intent.quantity.Some?
  {
  }

  lemma IntendedAre(targets: Dict, snap: Snapshot, markets: set<Country>, quotes: map<Symbol, real>, symbols: seq<Symbol>)
    requires snap.usdKrw > 0.0 && Distinct(symbols) && snap.EquityKrw() > 0.0
    ensures var ps := Intended(targets, snap, markets, quotes, symbols);
            && PlansOf(targets, snap, markets, quotes, ps)
            && (forall i :: 0 <= i < |symbols| && PlanFor(targets, snap, markets, quotes, symbols[i]).Some? ==>
                  PlanFor(targets, snap, markets, quotes, symbols[i]).value in ps)
            && (forall i, j :: 0 <= i < j < |ps| ==> ps[i].drift <= ps[j].drift)
  {
    hide PlanFor, Snapshot.EquityKrw, PlansTo;
    var raw := PlansTo(targets, snap, markets, quotes, symbols, |symbols|);
    PlansToAre(targets, snap, markets, quotes, symbols, |symbols|);
    var rank := (p: Plan) => p.drift;
    var ps := SortBy(rank, raw);
    assert Distinct(raw);
    assert forall i, j :: 0 <= i < j < |ps| ==> rank(ps[i]) <= rank(ps[j]);
    forall i | 0 <= i < |ps| ensures PlanFor(targets, snap, markets, quotes, ps[i].intent.symbol) == Some(ps[i]) {
      assert ps[i] in raw;
    }
    forall i, j | 0 <= i < j < |ps| ensures ps[i].intent.symbol != ps[j].intent.symbol {
      assert ps[i] != ps[j];
    }
  }

  /** State after the first n fills: the market as it was, the same equity, and each planned symbol at its target. */
  ghost predicate FilledTo(targets: Dict, snap: Snapshot, markets: set<Country>, quotes: map<Symbol, real>, ps: seq<Plan>, n: nat, now: Snapshot)
    requires n <= |ps| && snap.usdKrw > 0.0
  {
    && SameMarket(snap, now) && PositiveHoldings(now) && now.EquityKrw() == snap.EquityKrw()
    && (forall i :: 0 <= i < n ==> now.holdings.Get(ps[i].intent.symbol) == Target(targets, snap, markets, quotes, ps[i].intent.symbol))
    && (forall s :: (forall i :: 0 <= i < n ==> ps[i].intent.symbol != s) ==> now.holdings.Get(s) == snap.holdings.Get(s))
  }

  lemma {:induction false} FillsReachTargets(targets: Dict, snap: Snapshot, markets: set<Country>, quotes: map<Symbol, real>, ps: seq<Plan>, n: nat)
    requires n <= |ps| && AllSized(ps) && MarkedAtQuotes(snap, quotes) && PositiveHoldings(snap) && snap.EquityKrw() > 0.0
    requires PlansOf(targets, snap, markets, quotes, ps) && NonNegative(targets)
    requires forall s :: CountryOf(s) == KR ==> IsWhole(snap.holdings.Get(s))
    ensures FilledTo(targets, snap, markets, quotes, ps, n, FilledAll(snap, ps, n))
  {
    hide PlanFor, Snapshot.EquityKrw, CountryOf, IsWhole, UnitPrice, FxFor, Put, KeepPositive, FilledTo;
    if n == 0 {
      NothingFilled(targets, snap, markets, quotes, ps);
    } else {
      FillsReachTargets(targets, snap, markets, quotes, ps, n - 1);
      var before, p := FilledAll(snap, ps, n - 1), ps[n - 1];
      var s := p.intent.symbol;
      assert targets.Get(s) >= 0.0;
      PlanCloses(targets, snap, markets, quotes, s);
      StillUntouched(targets, snap, markets, quotes, ps, n - 1, before);
      FillingKeepsEquity(before, quotes, p);
      FillReaches(targets, snap, markets, quotes, ps, n - 1, before);
    }
  }

  lemma NothingFilled(targets: Dict, snap: Snapshot, markets: set<Country>, quotes: map<Symbol, real>, ps: seq<Plan>)
    requires snap.usdKrw > 0.0 && PositiveHoldings(snap)
    ensures FilledTo(targets, snap, markets, quotes, ps, 0, snap)
  {
  }

  lemma StillUntouched(targets: Dict, snap: Snapshot, markets: set<Country>, quotes: map<Symbol, real>, ps: seq<Plan>, n: nat, before: Snapshot)
    requires n < |ps| && MarkedAtQuotes(snap, quotes) && PlansOf(targets, snap, markets, quotes, ps)
    requires FilledTo(targets, snap, markets, quotes, ps, n, before)
    ensures before.holdings.Get(ps[n].intent.symbol) == snap.holdings.Get(ps[n].intent.symbol)
    ensures PositiveHoldings(before) && MarkedAtQuotes(before, quotes) && before.EquityKrw() == snap.EquityKrw()
  {
    hide PlanFor, Snapshot.EquityKrw, Target, RawDict.Get;
  }

  lemma FillReaches(targets: Dict, snap: Snapshot, markets: set<Country>, quotes: map<Symbol, real>, ps: seq<Plan>, n: nat, before: Snapshot)
    requires n < |ps| && snap.usdKrw > 0.0 && AllSized(ps) && PlansOf(targets, snap, markets, quotes, ps)
    requires FilledTo(targets, snap, markets, quotes, ps, n, before)
    requires FilledHolding(before.holdings.Get(ps[n].intent.symbol), ps[n]) >= 0.0
    requires FilledHolding(before.holdings.Get(ps[n].intent.symbol), ps[n]) == Target(targets, snap, markets, quotes, ps[n].intent.symbol)
    requires Filled(before, ps[n]).EquityKrw() == before.EquityKrw()
    ensures FilledTo(targets, snap, markets, quotes, ps, n + 1, Filled(before, ps[n]))
  {
    hide PlanFor, Snapshot.EquityKrw, Target, FilledHolding, Put, KeepPositive, RawDict.Get;
    var s := ps[n].intent.symbol;
    PutFacts(before.holdings, s, FilledHolding(before.holdings.Get(s), ps[n]));
  }

  /** On target: nothing more to plan, less than one share off, and exact for a US symbol. */
  ghost predicate OnTarget(targets: Dict, after: Snapshot, quotes: map<Symbol, real>, s: Symbol) {
    && s in quotes
    && Notional(Drift(targets, after, s), after.EquityKrw()) < UnitPrice(after, quotes, s)
    && (CountryOf(s) == US ==> Drift(targets, after, s) == 0.0)
  }

  lemma ListedSymbolSettles(targets: Dict, snap: Snapshot, markets: set<Country>, quotes: map<Symbol, real>, symbols: seq<Symbol>, ps: seq<Plan>, after: Snapshot, s: Symbol)
    requires MarkedAtQuotes(snap, quotes) && PositiveHoldings(snap) && snap.EquityKrw() > 0.0 && NonNegative(targets)
    requires forall x :: CountryOf(x) == KR ==> IsWhole(snap.holdings.Get(x))
    requires PlansOf(targets, snap, markets, quotes, ps) && s in symbols
    requires forall i :: 0 <= i < |symbols| && PlanFor(targets, snap, markets, quotes, symbols[i]).Some? ==>
               PlanFor(targets, snap, markets, quotes, symbols[i]).value in ps
    requires FilledTo(targets, snap, markets, quotes, ps, |ps|, after)
    ensures PlanFor(targets, after, markets, quotes, s) == None
    ensures PlanFor(targets, snap, markets, quotes, s).Some? ==> OnTarget(targets, after, quotes, s)
  {
    hide PlanFor, Snapshot.EquityKrw, CountryOf, IsWhole, UnitPrice, Drift, PlansOf;
    ReachedTarget(targets, snap, markets, quotes, symbols, ps, after, s);
    assert targets.Get(s) >= 0.0;
    SymbolSettles(targets, snap, after, markets, quotes, s);
  }

  /**
   A fixed point in one pass. If marks equal quotes and every intent fills at its price without cost, equity
   is unchanged, each traded US position is exactly on target, each traded KR position is within one
   share's value of it, and planning again plans nothing, over any list of symbols.
   */
  lemma RebalanceReachesFixpoint(targets: Dict, snap: Snapshot, markets: set<Country>, quotes: map<Symbol, real>, symbols: seq<Symbol>, again: seq<Symbol>)
    requires MarkedAtQuotes(snap, quotes) && PositiveHoldings(snap) && snap.EquityKrw() > 0.0 && NonNegative(targets)
    requires forall s :: CountryOf(s) == KR ==> IsWhole(snap.holdings.Get(s))
    requires Distinct(symbols) && forall s :: s in symbols <==> s in targets.vals || s in snap.holdings.vals
    requires forall s :: s in again ==> s in symbols
    ensures var ps := Intended(targets, snap, markets, quotes, symbols);
            && AllSized(ps)
            && var after := FilledAll(snap, ps, |ps|);
            && after.EquityKrw() == snap.EquityKrw() && after.usdKrw > 0.0
            && Intended(targets, after, markets, quotes, again) == []
            && forall i :: 0 <= i < |ps| ==> OnTarget(targets, after, quotes, ps[i].intent.symbol)
  {
    hide PlanFor, Snapshot.EquityKrw, CountryOf, IsWhole, OnTarget, Intended, FilledAll;
    var ps := Intended(targets, snap, markets, quotes, symbols);
    IntendedAre(targets, snap, markets, quotes, symbols);
    forall i | 0 <= i < |ps| ensures ps[i].intent.quantity.Some? && ps[i].intent.symbol in symbols {
      PlanNamesSymbol(targets, snap, markets, quotes, ps[i].intent.symbol);
      PlannedIsListed(targets, snap, markets, quotes, ps[i].intent.symbol);
    }
    FillsReachTargets(targets, snap, markets, quotes, ps, |ps|);
    var after := FilledAll(snap, ps, |ps|);
    forall s | s in symbols
      ensures PlanFor(targets, after, markets, quotes, s) == None
      ensures PlanFor(targets, snap, markets, quotes, s).Some? ==> OnTarget(targets, after, quotes, s)
    {
      ListedSymbolSettles(targets, snap, markets, quotes, symbols, ps, after, s);
    }
    NothingPlanned(targets, after, markets, quotes, again, |again|);
  }

  /** So it is for the symbols a cycle looks at: a second look right after the fills plans nothing. */
  lemma SecondLookIsEmpty(targets: Dict, snap: Snapshot, markets: set<Country>, quotes: map<Symbol, real>)
    requires MarkedAtQuotes(snap, quotes) && PositiveHoldings(snap) && snap.EquityKrw() > 0.0 && NonNegative(targets)
    requires forall s :: CountryOf(s) == KR ==> IsWhole(snap.holdings.Get(s))
    ensures var ps := Intended(targets, snap, markets, quotes, SymbolsOf(targets, snap));
            && AllSized(ps)
            && var after := FilledAll(snap, ps, |ps|);
            && after.usdKrw > 0.0
            && Intended(targets, after, markets, quotes, SymbolsOf(targets, after)) == []
  {
    hide Snapshot.EquityKrw, CountryOf, IsWhole, Intended, FilledAll, SymbolsOf;
    var symbols := SymbolsOf(targets, snap);
    SymbolsAreAll(targets, snap);
    RebalanceReachesFixpoint(targets, snap, markets, quotes, symbols, []);
    var ps := Intended(targets, snap, markets, quotes, symbols);
    var after := FilledAll(snap, ps, |ps|);
    SymbolsAreAll(targets, after);
    PlansNameSymbols(targets, snap, markets, quotes, symbols);
    FillsHoldOnlySymbols(snap, ps, |ps|, symbols);
    RebalanceReachesFixpoint(targets, snap, markets, quotes, symbols, SymbolsOf(targets, after));
  }

  /** Every plan names one of the symbols looked at. */
  lemma PlansNameSymbols(targets: Dict, snap: Snapshot, markets: set<Country>, quotes: map<Symbol, real>, symbols: seq<Symbol>)
    requires snap.usdKrw > 0.0 && Distinct(symbols) && snap.EquityKrw() > 0.0
    requires forall s :: s in symbols <==> s in targets.vals || s in snap.holdings.vals
    ensures forall i :: 0 <= i < |Intended(targets, snap, markets, quotes, symbols)| ==>
              Intended(targets, snap, markets, quotes, symbols)[i].intent.symbol in symbols
  {
    hide PlanFor, Snapshot.EquityKrw, Intended;
    IntendedAre(targets, snap, markets, quotes, symbols);
    var ps := Intended(targets, snap, markets, quotes, symbols);
    forall i | 0 <= i < |ps| ensures ps[i].intent.symbol in symbols {
      PlannedIsListed(targets, snap, markets, quotes, ps[i].intent.symbol);
    }
  }

  /** Filling plans for listed symbols holds no other symbol. */
  lemma {:induction false} FillsHoldOnlySymbols(snap: Snapshot, ps: seq<Plan>, n: nat, symbols: seq<Symbol>)
    requires n <= |ps| && AllSized(ps) && forall s :: s in snap.holdings.vals ==> s in symbols
    requires forall i :: 0 <= i < |ps| ==> ps[i].intent.symbol in symbols
    ensures forall s :: s in FilledAll(snap, ps, n).holdings.vals ==> s in symbols
  {
    hide Filled;
    if n > 0 {
      FillsHoldOnlySymbols(snap, ps, n - 1, symbols);
      FillHoldsItsSymbol(FilledAll(snap, ps, n - 1), ps[n - 1]);
    }
  }

  lemma FillHoldsItsSymbol(snap: Snapshot, p: Plan)
    requires p.intent.quantity.Some?
    ensures forall x :: x in Filled(snap, p).holdings.vals ==> x == p.intent.symbol || x in snap.holdings.vals
  {
    hide Put, FilledHolding, FxFor, RawDict.Get;
    PutGet(snap.holdings, p.intent.symbol, FilledHolding(snap.holdings.Get(p.intent.symbol), p));
  }

  lemma PlannedIsListed(targets: Dict, snap: Snapshot, markets: set<Country>, quotes: map<Symbol, real>, s: Symbol)
    requires snap.usdKrw > 0.0 && PlanFor(targets, snap, markets, quotes, s).Some?
    ensures s in targets.vals || s in snap.holdings.vals
  {
    hide SharesFor, UnitPrice, SellShares, CountryOf, FxFor, Snapshot.EquityKrw;
  }

  lemma ReachedTarget(targets: Dict, snap: Snapshot, markets: set<Country>, quotes: map<Symbol, real>, symbols: seq<Symbol>, ps: seq<Plan>, after: Snapshot, s: Symbol)
    requires snap.usdKrw > 0.0 && PlansOf(targets, snap, markets, quotes, ps) && s in symbols
    requires forall i :: 0 <= i < |symbols| && PlanFor(targets, snap, markets, quotes, symbols[i]).Some? ==>
               PlanFor(targets, snap, markets, quotes, symbols[i]).value in ps
    requires FilledTo(targets, snap, markets, quotes, ps, |ps|, after)
    ensures after.holdings.Get(s) == Target(targets, snap, markets, quotes, s)
  {
    hide PlanFor, Snapshot.EquityKrw;
    var k :| 0 <= k < |symbols| && symbols[k] == s;
    if PlanFor(targets, snap, markets, quotes, s).Some? {
      var p := PlanFor(targets, snap, markets, quotes, s).value;
      PlanNamesSymbol(targets, snap, markets, quotes, s);
      var i :| 0 <= i < |ps| && ps[i] == p;
      assert ps[i].intent.symbol == s;
    } else {
      forall i | 0 <= i < |ps| ensures ps[i].intent.symbol != s {}
    }
  }

  lemma {:induction false} NothingPlanned(targets: Dict, snap: Snapshot, markets: set<Country>, quotes: map<Symbol, real>, symbols: seq<Symbol>, n: nat)
    requires n <= |symbols| && snap.usdKrw > 0.0
    requires forall s :: s in symbols ==> PlanFor(targets, snap, markets, quotes, s) == None
    ensures PlansTo(targets, snap, markets, quotes, symbols, n) == []
    ensures n == |symbols| ==> Intended(targets, snap, markets, quotes, symbols) == []
  {
    hide PlanFor, Snapshot.EquityKrw;
    if n > 0 { NothingPlanned(targets, snap, markets, quotes, symbols, n - 1); }
  }

  // ---------------------------------------------------------------- exactly which orders are planned

  /** What one share of a symbol costs in won. */
  function WonPerShare(s: Symbol, quote: real, usdKrw: real): real {
    if CountryOf(s) == KR then quote else quote * usdKrw
  }

  /** There is something to trade: a whole share's worth for KR, and for a sale something, or a whole KR share, held. */
  ghost predicate WorthTrading(s: Symbol, drift: real, amount: real, unit: real, held: real) {
    && (CountryOf(s) == KR ==> amount >= unit)
    && (drift < 0.0 ==> if CountryOf(s) == KR then held >= 1.0 else held > 0.0)
  }

  /** US shares are divisible, KR shares are not. */
  predicate Divisible(s: Symbol) {
    CountryOf(s) == US
  }

  /** As many shares as the amount pays for, but for a sale no more than are held, whole for KR. */
  ghost predicate SizedFor(s: Symbol, drift: real, amount: real, unit: real, held: real, q: real) {
    exists most :: Fills(amount, unit, most, Divisible(s))
      && if drift > 0.0 then q == most else Fills(Min(most, held), 1.0, q, Divisible(s))
  }

  /**
   Exactly which symbols are planned, and as what. In an open market, with a quote above zero and a weight at least
   one percentage point from its target, a symbol is planned if and only if there is something to trade: a purchase
   where it is under its target and a sale where it is over, for as many shares as the gap is worth at the quote.
   */
  lemma PlannedIff(targets: Dict, snap: Snapshot, markets: set<Country>, quotes: map<Symbol, real>, s: Symbol, amount: real)
    requires snap.usdKrw > 0.0 && snap.EquityKrw() > 0.0 && PositiveHoldings(snap)
    requires amount == Abs(targets.Get(s) - snap.Weight(s)) * snap.EquityKrw()
    ensures var drift := targets.Get(s) - snap.Weight(s);
            var held := snap.holdings.Get(s);
            var r := PlanFor(targets, snap, markets, quotes, s);
            if CountryOf(s) in markets && (drift >= 0.01 || drift <= -0.01) && s in quotes && quotes[s] > 0.0
            then
              var unit := WonPerShare(s, quotes[s], snap.usdKrw);
              && (r.Some? <==> WorthTrading(s, drift, amount, unit, held))
              && (r.Some? ==>
                    && r.value.drift == drift && r.value.price == quotes[s] && r.value.intent.symbol == s
                    && (r.value.intent.side == Buy <==> drift > 0.0) && r.value.intent.orderAmount.None?
                    && r.value.intent.quantity.Some?
                    && SizedFor(s, drift, amount, unit, held, r.value.intent.quantity.value))
            else r == None
  {
    hide Snapshot.EquityKrw, Snapshot.Weight, CountryOf, SharesFor, SellShares, WorthTrading, SizedFor, RawDict.Valid;
    var drift, e := Drift(targets, snap, s), snap.EquityKrw();
    assert s in snap.holdings.vals ==> snap.holdings.Get(s) > 0.0;
    if CountryOf(s) in markets && Abs(drift) >= 0.01 && s in quotes && quotes[s] > 0.0 {
      var unit := WonPerShare(s, quotes[s], snap.usdKrw);
      UnitIs(snap, quotes, s);
      UnitIsPositive(snap, quotes, s);
      MulPositive(Abs(drift), e);
      assert amount == Notional(drift, e);
      PlanSizes(s, drift, amount, unit, snap.holdings.Get(s));
    }
  }

  lemma UnitIs(snap: Snapshot, quotes: map<Symbol, real>, s: Symbol)
    requires s in quotes
    ensures UnitPrice(snap, quotes, s) == WonPerShare(s, quotes[s], snap.usdKrw)
  {
    hide CountryOf;
  }

  lemma PlanSizes(s: Symbol, drift: real, amount: real, unit: real, held: real)
    requires unit > 0.0 && amount > 0.0 && held >= 0.0
    ensures var q := SharesFor(s, amount, unit); var sold := SellShares(s, q, held);
            && (drift > 0.0 ==> (q > 0.0 <==> WorthTrading(s, drift, amount, unit, held)) && SizedFor(s, drift, amount, unit, held, q))
            && (drift < 0.0 ==>
                  && (q > 0.0 && held > 0.0 && sold > 0.0 <==> WorthTrading(s, drift, amount, unit, held))
                  && SizedFor(s, drift, amount, unit, held, sold))
  {
    hide CountryOf, Truncate, Fills, SharesFor, SellShares, Min, Divisible;
    var q := SharesFor(s, amount, unit);
    SharesForIs(s, amount, unit);
    if drift < 0.0 { SellSharesIs(s, amount, unit, q, held); }
  }

  lemma SharesForIs(s: Symbol, amount: real, unit: real)
    requires unit > 0.0 && amount > 0.0
    ensures var q := SharesFor(s, amount, unit);
            && Fills(amount, unit, q, Divisible(s))
            && (q > 0.0 <==> CountryOf(s) == KR ==> amount >= unit)
  {
    hide CountryOf, Truncate, Fills;
    QuotientFills(amount, unit, SharesFor(s, amount, unit), Divisible(s));
    OneShareIff(amount, unit);
  }

  lemma SellSharesIs(s: Symbol, amount: real, unit: real, q: real, held: real)
    requires unit > 0.0 && amount > 0.0 && held >= 0.0 && q == SharesFor(s, amount, unit)
    ensures var sold := SellShares(s, q, held);
            && Fills(Min(q, held), 1.0, sold, Divisible(s))
            && (q > 0.0 && held > 0.0 && sold > 0.0 <==> q > 0.0 && if CountryOf(s) == KR then held >= 1.0 else held > 0.0)
  {
    hide CountryOf, Truncate, Fills, Min;
    var x := amount / unit;
    OneShareIff(amount, unit);
    SharesOf(Min(q, held), SellShares(s, q, held), Divisible(s));
    WholeSaleIff(x, q, held);
  }

  lemma OneShareIff(amount: real, unit: real)
    requires unit > 0.0 && amount > 0.0
    ensures amount / unit > 0.0
    ensures Truncate(amount / unit) as real > 0.0 <==> amount >= unit
  {
    QuotientTimes(amount, unit);
    UnitsIn(amount / unit, unit, amount);
    WholePartIff(amount / unit);
  }

  lemma UnitsIn(x: real, unit: real, amount: real)
    requires unit > 0.0 && amount > 0.0 && x * unit == amount
    ensures x > 0.0 && (x >= 1.0 <==> amount >= unit)
  {
    var rest := 1.0 - x;
    assert unit * rest == unit - amount;
    if x >= 1.0 { MulMono(unit, 1.0, x); } else { MulPositive(unit, rest); }
    if x <= 0.0 { MulNonNegative(unit, -x); }
  }

  lemma WholePartIff(x: real)
    ensures Truncate(x) as real > 0.0 <==> x >= 1.0
  {
  }

  lemma SharesOf(amount: real, q: real, divisible: bool)
    requires q == if divisible then amount else Truncate(amount) as real
    ensures Fills(amount, 1.0, q, divisible)
  {
    hide Fills, Truncate;
    var x := amount / 1.0;
    assert x == amount;
    QuotientFills(amount, 1.0, q, divisible);
  }

  lemma WholeSaleIff(x: real, q: real, held: real)
    requires x > 0.0 && held >= 0.0
    ensures q == Truncate(x) as real && q > 0.0 ==> (Truncate(Min(q, held)) as real > 0.0 <==> held >= 1.0)
    ensures q == x ==> (Min(q, held) > 0.0 <==> held > 0.0)
  {
  }
}
