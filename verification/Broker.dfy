/** Symbols, account snapshots and order intents (src/tqt/execution/broker.py, src/tqt/universe.py). */
module Broker {
  import opened Wrappers
  import opened OrderedDict
  import opened Costs

  /** KR symbols are six digits; everything else is a US ticker. */
  function CountryOf(s: Symbol): Country {
    if |s| == 6 && forall i :: 0 <= i < 6 ==> '0' <= s[i] <= '9' then KR else US
  }

  function FxFor(s: Symbol, usdKrw: real): real {
    if CountryOf(s) == US then usdKrw else 1.0
  }

  /** Holdings with their average prices; a position's currency follows from its symbol. */
  datatype Snapshot = Snapshot(cash: real, holdings: Dict, avgPrice: map<Symbol, real>, usdKrw: real, prices: map<Symbol, real>)
  {
    /** prices.get(symbol, pos.avg_price) */
    function MarkOf(s: Symbol): real {
      if s in prices then prices[s] else if s in avgPrice then avgPrice[s] else 0.0
    }

    /** The value in KRW of one unit. */
    function UnitOf(s: Symbol): real {
      MarkOf(s) * FxFor(s, usdKrw)
    }

    function UnitKrw(): map<Symbol, real> {
      map s | s in holdings.vals :: UnitOf(s)
    }

    function PositionValueKrw(): real {
      Worth(holdings, UnitKrw())
    }

    function EquityKrw(): real {
      cash + PositionValueKrw()
    }

    /** weights().get(symbol, 0) */
    function Weight(s: Symbol): real {
      if EquityKrw() <= 0.0 || s !in holdings.vals then 0.0
      else MarkOf(s) * holdings.vals[s] * FxFor(s, usdKrw) / EquityKrw()
    }
  }

  datatype Intent = Intent(symbol: Symbol, side: Side, quantity: Option<real>, orderAmount: Option<real>)
}
