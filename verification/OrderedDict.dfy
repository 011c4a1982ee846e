/** Python dictionaries from symbols to numbers: iteration follows insertion order. */
module OrderedDict {

  type Symbol = string

  datatype RawDict = RawDict(keys: seq<Symbol>, vals: map<Symbol, real>)
  {
    ghost predicate Valid() {
      && (forall i, j :: 0 <= i < j < |keys| ==> keys[i] != keys[j])
      && (forall k :: k in keys <==> k in vals)
    }

    /** d.get(k, 0) */
    function Get(k: Symbol): real {
      if k in vals then vals[k] else 0.0
    }
  }

  type Dict = d: RawDict | d.Valid() witness RawDict([], map[])

  const EMPTY: Dict := RawDict([], map[])

  /** d[k] = v: an existing key keeps its place, a new one goes last. */
  function Put(d: Dict, k: Symbol, v: real): Dict {
    RawDict(if k in d.vals then d.keys else d.keys + [k], d.vals[k := v])
  }

  lemma PutGet(d: Dict, k: Symbol, v: real)
    ensures Put(d, k, v).Get(k) == v
    ensures forall s :: s != k ==> Put(d, k, v).Get(s) == d.Get(s)
    ensures forall s :: s in Put(d, k, v).vals <==> s == k || s in d.vals
  {
  }

  lemma AbsentIsZero(d: Dict, k: Symbol)
    requires k !in d.vals
    ensures d.Get(k) == 0.0
  {
  }

  ghost predicate NonNegative(d: Dict) {
    forall s :: d.Get(s) >= 0.0
  }

  /** The keys among the first n whose value is positive, in order. */
  function PositiveKeys(d: Dict, n: nat): (r: seq<Symbol>)
    requires n <= |d.keys|
    ensures forall k :: k in r <==> k in d.keys[..n] && d.vals[k] > 0.0
    ensures forall i, j :: 0 <= i < j < |r| ==> r[i] != r[j]
  {
    if n == 0 then []
    else
      var rest := PositiveKeys(d, n - 1);
      assert d.keys[..n] == d.keys[..n - 1] + [d.keys[n - 1]];
      if d.vals[d.keys[n - 1]] > 0.0 then rest + [d.keys[n - 1]] else rest
  }

  /** {k: v for k, v in d.items() if v > 0} */
  function KeepPositive(d: Dict): (r: Dict)
    ensures forall s :: r.Get(s) == if d.Get(s) > 0.0 then d.Get(s) else 0.0
    ensures forall s :: s in r.vals ==> s in d.vals && r.vals[s] > 0.0
  {
    var ks := PositiveKeys(d, |d.keys|);
    assert d.keys[..|d.keys|] == d.keys;
    RawDict(ks, map k | k in ks :: d.vals[k])
  }

  /** What `qty` units of `s` are worth; a symbol without a price counts nothing. */
  function Mark(prices: map<Symbol, real>, s: Symbol, qty: real): real {
    if s in prices then prices[s] * qty else 0.0
  }

  lemma MarkIs(prices: map<Symbol, real>, s: Symbol, qty: real)
    ensures s in prices ==> Mark(prices, s, qty) == prices[s] * qty
    ensures s !in prices ==> Mark(prices, s, qty) == 0.0
  {
  }

  /** Value of the listed symbols, added from the left as the source's loop does. */
  function WorthOver(ks: seq<Symbol>, vals: map<Symbol, real>, prices: map<Symbol, real>): real
    requires forall k :: k in ks ==> k in vals
  {
    if |ks| == 0 then 0.0
    else
      var k := ks[|ks| - 1];
      WorthOver(ks[..|ks| - 1], vals, prices) + Mark(prices, k, vals[k])
  }

  function Worth(d: Dict, prices: map<Symbol, real>): real {
    WorthOver(d.keys, d.vals, prices)
  }

  lemma {:induction false} WorthOverAgrees(ks: seq<Symbol>, u: map<Symbol, real>, v: map<Symbol, real>, prices: map<Symbol, real>)
    requires forall k :: k in ks ==> k in u && k in v && u[k] == v[k]
    ensures WorthOver(ks, u, prices) == WorthOver(ks, v, prices)
  {
    if |ks| > 0 {
      WorthOverAgrees(ks[..|ks| - 1], u, v, prices);
    }
  }

  lemma {:induction false} WorthOverOfUpdate(ks: seq<Symbol>, vals: map<Symbol, real>, prices: map<Symbol, real>, k: Symbol, v: real)
    requires forall x :: x in ks ==> x in vals
    requires forall i, j :: 0 <= i < j < |ks| ==> ks[i] != ks[j]
    requires k in ks
    ensures WorthOver(ks, vals[k := v], prices)
         == WorthOver(ks, vals, prices) + Mark(prices, k, v) - Mark(prices, k, vals[k])
  {
    hide Mark;
    var n := |ks| - 1;
    if ks[n] == k {
      WorthOverAgrees(ks[..n], vals, vals[k := v], prices);
    } else {
      WorthOverOfUpdate(ks[..n], vals, prices, k, v);
    }
  }

  lemma NothingIsWorthNothing(prices: map<Symbol, real>, k: Symbol)
    ensures Mark(prices, k, 0.0) == 0.0
  {
  }

  /** Changing one holding changes the total by that holding's change alone. */
  lemma WorthOfPut(d: Dict, prices: map<Symbol, real>, k: Symbol, v: real)
    ensures Worth(Put(d, k, v), prices) == Worth(d, prices) + Mark(prices, k, v) - Mark(prices, k, d.Get(k))
  {
    hide Mark;
    if k in d.vals {
      WorthOverOfUpdate(d.keys, d.vals, prices, k, v);
    } else {
      var ks := d.keys + [k];
      assert ks[..|ks| - 1] == d.keys;
      WorthOverAgrees(d.keys, d.vals, d.vals[k := v], prices);
      NothingIsWorthNothing(prices, k);
    }
  }

  lemma {:induction false} WorthOverPositive(d: Dict, prices: map<Symbol, real>, n: nat)
    requires n <= |d.keys| && NonNegative(d)
    ensures WorthOver(PositiveKeys(d, n), d.vals, prices) == WorthOver(d.keys[..n], d.vals, prices)
  {
    hide RawDict.Get, Mark, WorthOver, NonNegative, PositiveKeys;
    OnePositiveKeyMore(d, n);
    if n == 0 {
      NothingListed(d.vals, prices);
    } else {
      WorthOverPositive(d, prices, n - 1);
      OneMoreKept(d, prices, n);
    }
  }

  lemma OnePositiveKeyMore(d: Dict, n: nat)
    requires n <= |d.keys|
    ensures n == 0 ==> PositiveKeys(d, n) == [] && d.keys[..n] == []
    ensures n > 0 ==> var k := d.keys[n - 1]; PositiveKeys(d, n) == PositiveKeys(d, n - 1) + if d.vals[k] > 0.0 then [k] else []
  {
  }

  lemma OneMoreKept(d: Dict, prices: map<Symbol, real>, n: nat)
    requires 0 < n <= |d.keys| && NonNegative(d)
    requires PositiveKeys(d, n) == PositiveKeys(d, n - 1) + if d.vals[d.keys[n - 1]] > 0.0 then [d.keys[n - 1]] else []
    requires WorthOver(PositiveKeys(d, n - 1), d.vals, prices) == WorthOver(d.keys[..n - 1], d.vals, prices)
    ensures WorthOver(PositiveKeys(d, n), d.vals, prices) == WorthOver(d.keys[..n], d.vals, prices)
  {
    hide RawDict.Get, Mark, WorthOver, NonNegative, PositiveKeys;
    var k := d.keys[n - 1];
    assert d.keys[..n] == d.keys[..n - 1] + [k];
    WorthOverOneMore(d.keys[..n - 1], d.vals, prices, k);
    if d.vals[k] > 0.0 {
      WorthOverOneMore(PositiveKeys(d, n - 1), d.vals, prices, k);
    } else {
      assert PositiveKeys(d, n) == PositiveKeys(d, n - 1);
      HeldIsZero(d, k);
      NothingIsWorthNothing(prices, k);
    }
  }

  lemma NothingListed(vals: map<Symbol, real>, prices: map<Symbol, real>)
    ensures WorthOver([], vals, prices) == 0.0
  {
  }

  lemma WorthOverOneMore(ks: seq<Symbol>, vals: map<Symbol, real>, prices: map<Symbol, real>, k: Symbol)
    requires k in vals && forall x :: x in ks ==> x in vals
    ensures WorthOver(ks + [k], vals, prices) == WorthOver(ks, vals, prices) + Mark(prices, k, vals[k])
  {
    hide Mark;
    assert (ks + [k])[..|ks|] == ks;
  }

  lemma HeldIsZero(d: Dict, k: Symbol)
    requires NonNegative(d) && k in d.vals && d.vals[k] <= 0.0
    ensures d.vals[k] == 0.0
  {
    assert d.Get(k) >= 0.0;
  }

  /** Dropping empty holdings does not change the total. */
  lemma WorthOfKeepPositive(d: Dict, prices: map<Symbol, real>)
    requires NonNegative(d)
    ensures Worth(KeepPositive(d), prices) == Worth(d, prices)
  {
    var kept := KeepPositive(d);
    WorthOverPositive(d, prices, |d.keys|);
    assert d.keys[..|d.keys|] == d.keys;
    WorthOverAgrees(kept.keys, kept.vals, d.vals, prices);
  }

  lemma {:induction false} WorthOverPricesAgree(ks: seq<Symbol>, vals: map<Symbol, real>, p: map<Symbol, real>, q: map<Symbol, real>)
    requires forall k :: k in ks ==> k in vals && k in p && k in q && p[k] == q[k]
    ensures WorthOver(ks, vals, p) == WorthOver(ks, vals, q)
  {
    if |ks| > 0 { WorthOverPricesAgree(ks[..|ks| - 1], vals, p, q); }
  }

  /** Worth depends only on the prices of what is held. */
  lemma SameWorth(d: Dict, p: map<Symbol, real>, q: map<Symbol, real>)
    requires forall k :: k in d.vals ==> k in p && k in q && p[k] == q[k]
    ensures Worth(d, p) == Worth(d, q)
  {
    WorthOverPricesAgree(d.keys, d.vals, p, q);
  }
}
