/** From target weights to orders (src/tqt/runner.py, `_build_intents`), and why a second look finds nothing. */
module Intents {
  import opened Wrappers
  import opened RealFacts
  import opened OrderedDict
  import opened Sorting
  import opened Costs
  import opened Broker

  const BAND := 0.01

  /** One order, with the drift that ranks it and the price it was sized at. */
  datatype Plan = Plan(drift: real, intent: Intent, price: real)

  function Drift(targets: Dict, snap: Snapshot, s: Symbol): real {
    targets.Get(s) - snap.Weight(s)
  }

  /** What a drift is worth. */
  function Notional(drift: real, equity: real): real {
    Abs(drift) * equity
  }

  /** Shares worth a notional, whole ones for KR. */
  function SharesFor(s: Symbol, notional: real, unit: real): real
    requires unit > 0.0
  {
    if CountryOf(s) == KR then Truncate(notional / unit) as real else notional / unit
  }

  /** What the account can still sell of it. */
  function SellShares(s: Symbol, qty: real, held: real): real {
    if CountryOf(s) == KR then Truncate(Min(qty, held)) as real else Min(qty, held)
  }

  /** Price and exchange rate of one share, where there is a usable quote. */
  function UnitPrice(snap: Snapshot, quotes: map<Symbol, real>, s: Symbol): real
    requires s in quotes
  {
    quotes[s] * FxFor(s, snap.usdKrw)
  }

  /** The loop body for one symbol: the order it plans, if any. */
  function PlanFor(targets: Dict, snap: Snapshot, markets: set<Country>, quotes: map<Symbol, real>, s: Symbol): Option<Plan>
    requires snap.usdKrw > 0.0
  {
    var drift := Drift(targets, snap, s);
    if CountryOf(s) !in markets || Abs(drift) < BAND || s !in quotes || quotes[s] <= 0.0 then None
    else
      assert UnitPrice(snap, quotes, s) > 0.0 by { MulPositive(quotes[s], FxFor(s, snap.usdKrw)); }
      var qty := SharesFor(s, Notional(drift, snap.EquityKrw()), UnitPrice(snap, quotes, s));
      if qty <= 0.0 then None
      else if drift > 0.0 then Some(Plan(drift, Intent(s, Buy, Some(qty), None), quotes[s]))
      else if s !in snap.holdings.vals then None
      else
        var sold := SellShares(s, qty, snap.holdings.vals[s]);
        if sold <= 0.0 then None else Some(Plan(drift, Intent(s, Sell, Some(sold), None), quotes[s]))
  }

  /** The plans of the first n symbols, in order. */
  function PlansTo(targets: Dict, snap: Snapshot, markets: set<Country>, quotes: map<Symbol, real>, symbols: seq<Symbol>, n: nat): seq<Plan>
    requires n <= |symbols| && snap.usdKrw > 0.0
  {
    if n == 0 then []
    else
      var before := PlansTo(targets, snap, markets, quotes, symbols, n - 1);
      var p := PlanFor(targets, snap, markets, quotes, symbols[n - 1]);
      if p.Some? then before + [p.value] else before
  }

  /** sorted(set(targets) | set(snapshot.positions)) */
  function SymbolsOf(targets: Dict, snap: Snapshot): seq<Symbol> {
    SortedNames(targets.keys + snap.holdings.keys)
  }

  lemma SymbolsAreAll(targets: Dict, snap: Snapshot)
    ensures Distinct(SymbolsOf(targets, snap))
    ensures forall s :: s in SymbolsOf(targets, snap) <==> s in targets.vals || s in snap.holdings.vals
  {
    SortedNamesAre(targets.keys + snap.holdings.keys);
  }

  /** What is planned over a list of symbols. */
  function Intended(targets: Dict, snap: Snapshot, markets: set<Country>, quotes: map<Symbol, real>, symbols: seq<Symbol>): seq<Plan>
    requires snap.usdKrw > 0.0
  {
    if snap.EquityKrw() <= 0.0 then []
    else SortBy((p: Plan) => p.drift, PlansTo(targets, snap, markets, quotes, symbols, |symbols|))
  }

  /** _build_intents: one plan per symbol that needs one, sells (negative drift) first. */
  method BuildIntents(targets: Dict, snap: Snapshot, markets: set<Country>, quotes: map<Symbol, real>, symbols: seq<Symbol>)
    returns (planned: seq<Plan>)
    requires snap.usdKrw > 0.0
    ensures planned == Intended(targets, snap, markets, quotes, symbols)
  {
    hide Drift, Notional, SharesFor, Snapshot.EquityKrw, Snapshot.Weight, UnitPrice, SellShares, FxFor;
    planned := [];
    var equity := snap.EquityKrw();
    if equity <= 0.0 {
      return;
    }
    for i := 0 to |symbols|
      invariant planned == PlansTo(targets, snap, markets, quotes, symbols, i)
    {
      var s := symbols[i];
      if CountryOf(s) !in markets {
        continue;
      }
      var drift := Drift(targets, snap, s);
      if Abs(drift) < BAND {
        continue;
      }
      if s !in quotes || quotes[s] <= 0.0 {
        continue;
      }
      assert UnitPrice(snap, quotes, s) > 0.0 by { UnitIsPositive(snap, quotes, s); }
      var qty := SharesFor(s, Notional(drift, equity), UnitPrice(snap, quotes, s));
      if qty <= 0.0 {
        continue;
      }
      var side := if drift > 0.0 then Buy else Sell;
      if side == Sell {
        if s !in snap.holdings.vals {
          continue;
        }
        qty := SellShares(s, qty, snap.holdings.vals[s]);
        if qty <= 0.0 {
          continue;
        }
      }
      planned := planned + [Plan(drift, Intent(s, side, Some(qty), None), quotes[s])];
    }
    planned := SortBy((p: Plan) => p.drift, planned);
  }

  lemma UnitIsPositive(snap: Snapshot, quotes: map<Symbol, real>, s: Symbol)
    requires s in quotes && quotes[s] > 0.0 && snap.usdKrw > 0.0
    ensures UnitPrice(snap, quotes, s) > 0.0
  {
    MulPositive(quotes[s], FxFor(s, snap.usdKrw));
  }

  // ---------------------------------------------------------------- filling every plan at its price

  function FilledHolding(have: real, p: Plan): real
    requires p.intent.quantity.Some?
  {
    if p.intent.side == Buy then have + p.intent.quantity.value else have - p.intent.quantity.value
  }

  /** The account after an order fills in full, at the quoted price and without cost. */
  function Filled(snap: Snapshot, p: Plan): Snapshot
    requires p.intent.quantity.Some?
  {
    var s, qty := p.intent.symbol, p.intent.quantity.value;
    var value := qty * (p.price * FxFor(s, snap.usdKrw));
    snap.(cash := if p.intent.side == Buy then snap.cash - value else snap.cash + value,
          holdings := KeepPositive(Put(snap.holdings, s, FilledHolding(snap.holdings.Get(s), p))))
  }

  ghost predicate AllSized(ps: seq<Plan>) {
    forall i :: 0 <= i < |ps| ==> ps[i].intent.quantity.Some?
  }

  function FilledAll(snap: Snapshot, ps: seq<Plan>, n: nat): Snapshot
    requires n <= |ps| && AllSized(ps)
  {
    if n == 0 then snap else Filled(FilledAll(snap, ps, n - 1), ps[n - 1])
  }
}
