/** Dictionaries of target weights and what they add up to. */
module Weights {
  import opened OrderedDict

  function Ones(d: Dict): map<Symbol, real> {
    map s | s in d.vals :: 1.0
  }

  /** sum(d.values()) */
  function Total(d: Dict): real {
    Worth(d, Ones(d))
  }

  /** Putting a weight changes the total by the change of that weight. */
  lemma TotalOfPut(d: Dict, k: Symbol, v: real)
    ensures Total(Put(d, k, v)) == Total(d) + v - d.Get(k)
  {
    var put := Put(d, k, v);
    WorthOfPut(d, Ones(put), k, v);
    SameWorth(d, Ones(d), Ones(put));
  }

  lemma TotalOfEmpty()
    ensures Total(EMPTY) == 0.0
  {
  }

  lemma {:induction false} SumIsNonNegative(ks: seq<Symbol>, vals: map<Symbol, real>, ones: map<Symbol, real>)
    requires forall k :: k in ks ==> k in vals && vals[k] >= 0.0
    requires forall k :: k in ones ==> ones[k] == 1.0
    ensures WorthOver(ks, vals, ones) >= 0.0
  {
    if |ks| > 0 { SumIsNonNegative(ks[..|ks| - 1], vals, ones); }
  }

  lemma TotalIsNonNegative(d: Dict)
    requires NonNegative(d)
    ensures Total(d) >= 0.0
  {
    forall k | k in d.keys ensures d.vals[k] >= 0.0 { assert d.Get(k) >= 0.0; }
    SumIsNonNegative(d.keys, d.vals, Ones(d));
  }

  /** Weights a portfolio can hold without borrowing or selling short. */
  ghost predicate Unleveraged(d: Dict) {
    NonNegative(d) && Total(d) <= 1.0
  }
}
