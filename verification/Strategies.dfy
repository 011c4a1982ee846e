/**
 The four strategies (src/tqt/strategy/momentum.py, src/tqt/strategy/base.py), from the momentum scores of
 their symbols on.
 */
module Strategies {
  import opened Wrappers
  import opened RealFacts
  import opened OrderedDict
  import opened Sorting
  import opened Weights

  // ---------------------------------------------------------------- ranking

  datatype Scored = Scored(score: real, symbol: Symbol)

  /** x > y as Python tuples. */
  predicate Beats(x: Scored, y: Scored) {
    x.score > y.score || (x.score == y.score && Before(y.symbol, x.symbol))
  }

  lemma BeatsIsTotal(x: Scored, y: Scored)
    ensures x == y <==> !Beats(x, y) && !Beats(y, x)
    ensures !(Beats(x, y) && Beats(y, x))
  {
    BeforeIsTotal(x.symbol, y.symbol);
  }

  lemma BeatsIsTransitive(x: Scored, y: Scored, z: Scored)
    requires Beats(x, y) && Beats(y, z)
    ensures Beats(x, z)
  {
    if x.score == y.score && y.score == z.score { BeforeIsTransitive(z.symbol, y.symbol, x.symbol); }
  }

  ghost predicate Descending(ss: seq<Scored>) {
    forall i, j :: 0 <= i < j < |ss| ==> Beats(ss[i], ss[j])
  }

  function InsertRanked(ss: seq<Scored>, x: Scored): (r: seq<Scored>)
    ensures |r| == |ss| + 1
  {
    var n := |ss| - 1;
    if n >= 0 && Beats(x, ss[n]) then InsertRanked(ss[..n], x) + [ss[n]] else ss + [x]
  }

  /** scores.sort(reverse=True) */
  function Ranked(ss: seq<Scored>): (r: seq<Scored>)
    ensures |r| == |ss|
  {
    if |ss| == 0 then [] else InsertRanked(Ranked(ss[..|ss| - 1]), ss[|ss| - 1])
  }

  lemma {:induction false} InsertRankedIs(ss: seq<Scored>, x: Scored)
    requires Descending(ss) && x !in ss
    ensures Descending(InsertRanked(ss, x))
    ensures forall y :: y in InsertRanked(ss, x) <==> y == x || y in ss
  {
    var n := |ss| - 1;
    if n < 0 {
    } else if Beats(x, ss[n]) {
      InsertRankedIs(ss[..n], x);
      assert ss == ss[..n] + [ss[n]];
      var r := InsertRanked(ss[..n], x);
      forall y | y in r ensures Beats(y, ss[n]) {}
    } else {
      BeatsIsTotal(x, ss[n]);
      forall i | 0 <= i < n ensures Beats(ss[i], x) { BeatsIsTransitive(ss[i], ss[n], x); }
    }
  }

  lemma {:induction false} RankedIs(ss: seq<Scored>)
    requires Distinct(ss)
    ensures Descending(Ranked(ss))
    ensures forall y :: y in Ranked(ss) <==> y in ss
  {
    hide Beats;
    if |ss| > 0 {
      var n := |ss| - 1;
      assert ss == ss[..n] + [ss[n]];
      RankedIs(ss[..n]);
      InsertRankedIs(Ranked(ss[..n]), ss[n]);
    }
  }

  /** s[:n], with Python's reading of a negative n. */
  function Slice<T>(s: seq<T>, n: int): seq<T> {
    if n >= 0 then s[..if n <= |s| then n else |s|]
    else s[..if -n <= |s| then |s| + n else 0]
  }

  ghost function Rivals(ss: seq<Scored>, x: Scored): set<Scored> {
    set y | y in ss && Beats(y, x)
  }

  lemma {:induction false} SizeOfDistinct<T>(s: seq<T>)
    requires Distinct(s)
    ensures |set x | x in s| == |s|
  {
    if |s| > 0 {
      var n := |s| - 1;
      SizeOfDistinct(s[..n]);
      assert (set x | x in s) == (set x | x in s[..n]) + {s[n]};
    }
  }

  lemma DescendingIsDistinct(ss: seq<Scored>)
    requires Descending(ss)
    ensures Distinct(ss)
  {
    forall i, j | 0 <= i < j < |ss| ensures ss[i] != ss[j] { BeatsIsTotal(ss[i], ss[j]); }
  }

  /** A score is among the first n of the ranking exactly when fewer than n others beat it. */
  lemma InTopIff(ss: seq<Scored>, x: Scored, n: nat)
    requires Distinct(ss) && x in ss
    ensures x in Slice(Ranked(ss), n) <==> |Rivals(ss, x)| < n
  {
    hide Beats, Ranked;
    var r := Ranked(ss);
    RankedIs(ss);
    DescendingIsDistinct(r);
    var i :| 0 <= i < |r| && r[i] == x;
    forall y ensures y in Rivals(ss, x) <==> y in r[..i] {
      if y in ss {
        var j :| 0 <= j < |r| && r[j] == y;
        BeatsIsTotal(x, y);
        assert j < i ==> r[..i][j] == y;
      }
    }
    assert Rivals(ss, x) == set y | y in r[..i];
    SizeOfDistinct(r[..i]);
    if x in Slice(r, n) {
      var j :| 0 <= j < |Slice(r, n)| && Slice(r, n)[j] == x;
      assert r[j] == r[i];
    }
  }

  // ---------------------------------------------------------------- from symbols to scores

  /** The scores of those listed symbols that have enough history for one. */
  function Scores(listed: seq<Symbol>, momentum: map<Symbol, real>): seq<Scored> {
    if |listed| == 0 then []
    else
      var n := |listed| - 1;
      var s := listed[n];
      Scores(listed[..n], momentum) + if s in momentum then [Scored(momentum[s], s)] else []
  }

  lemma {:induction false} ScoresAre(listed: seq<Symbol>, momentum: map<Symbol, real>)
    ensures forall x :: x in Scores(listed, momentum)
                   <==> x.symbol in listed && x.symbol in momentum && momentum[x.symbol] == x.score
    ensures Distinct(listed) ==> Distinct(Scores(listed, momentum))
  {
    if |listed| > 0 {
      var n := |listed| - 1;
      assert listed == listed[..n] + [listed[n]];
      ScoresAre(listed[..n], momentum);
      assert Distinct(listed) ==> listed[n] !in listed[..n];
    }
  }

  function Symbols(ss: seq<Scored>): seq<Symbol> {
    seq(|ss|, i requires 0 <= i < |ss| => ss[i].symbol)
  }

  /** [.. if r > floor] */
  function Above(ss: seq<Scored>, floor: real): seq<Scored> {
    if |ss| == 0 then []
    else
      var last := ss[|ss| - 1];
      Above(ss[..|ss| - 1], floor) + if last.score > floor then [last] else []
  }

  lemma {:induction false} AboveIs(ss: seq<Scored>, floor: real)
    ensures forall x :: x in Above(ss, floor) <==> x in ss && x.score > floor
    ensures |Above(ss, floor)| <= |ss|
    ensures Distinct(ss) ==> Distinct(Above(ss, floor))
  {
    if |ss| > 0 {
      var n := |ss| - 1;
      assert ss == ss[..n] + [ss[n]];
      AboveIs(ss[..n], floor);
      assert Distinct(ss) ==> ss[n] !in ss[..n];
    }
  }

  /** Scores taken from one table name every symbol once. */
  lemma SymbolsAre(ss: seq<Scored>, momentum: map<Symbol, real>)
    requires Distinct(ss)
    requires forall x :: x in ss ==> x.symbol in momentum && momentum[x.symbol] == x.score
    ensures Distinct(Symbols(ss)) && |Symbols(ss)| == |ss|
    ensures forall s :: s in Symbols(ss) <==> s in momentum && Scored(momentum[s], s) in ss
  {
    forall s ensures s in Symbols(ss) <==> s in momentum && Scored(momentum[s], s) in ss {
      if s in momentum && Scored(momentum[s], s) in ss {
        var i :| 0 <= i < |ss| && ss[i] == Scored(momentum[s], s);
        assert Symbols(ss)[i] == s;
      }
    }
    forall i, j | 0 <= i < j < |ss| ensures ss[i].symbol != ss[j].symbol {
      assert ss[i] in ss && ss[j] in ss;
    }
  }

  // ---------------------------------------------------------------- weights

  /** 1 / n */
  function Fraction(n: int): real
    requires n != 0
  {
    1.0 / n as real
  }

  /** dict.fromkeys(symbols[:n], each) */
  function Equally(symbols: seq<Symbol>, n: nat, each: real): Dict
    requires n <= |symbols|
  {
    if n == 0 then EMPTY else Put(Equally(symbols, n - 1, each), symbols[n - 1], each)
  }

  lemma {:induction false} EquallyEntries(symbols: seq<Symbol>, n: nat, each: real)
    requires n <= |symbols|
    ensures forall s :: Equally(symbols, n, each).Get(s) == if s in symbols[..n] then each else 0.0
  {
    hide Put, RawDict.Get;
    if n == 0 {
      NothingHeld();
    } else {
      EquallyEntries(symbols, n - 1, each);
      assert symbols[..n] == symbols[..n - 1] + [symbols[n - 1]];
      PutGet(Equally(symbols, n - 1, each), symbols[n - 1], each);
    }
  }

  lemma NothingHeld()
    ensures forall s :: EMPTY.Get(s) == 0.0
  {
  }

  lemma {:induction false} EquallyTotal(symbols: seq<Symbol>, n: nat, each: real)
    requires n <= |symbols| && Distinct(symbols)
    ensures Total(Equally(symbols, n, each)) == n as real * each
  {
    hide Total, Put, RawDict.Get;
    if n == 0 {
      TotalOfEmpty();
    } else {
      EquallyTotal(symbols, n - 1, each);
      EquallyEntries(symbols, n - 1, each);
      assert symbols[n - 1] !in symbols[..n - 1];
      TotalOfPut(Equally(symbols, n - 1, each), symbols[n - 1], each);
      assert n as real * each == (n - 1) as real * each + each;
    }
  }

  /** n shares of 1/m */
  function Parts(n: nat, m: nat): real
    requires 0 < m
  {
    n as real * Fraction(m)
  }

  lemma PartsAre(n: nat, m: nat)
    requires 0 < m && n <= m
    ensures 0.0 <= Parts(n, m) <= 1.0
    ensures n == m ==> Parts(n, m) == 1.0
    ensures Fraction(m) > 0.0
  {
    var each := Fraction(m);
    QuotientTimes(1.0, m as real);
    MulMono(each, n as real, m as real);
    MulNonNegative(n as real, each);
  }

  lemma PartsTotal(symbols: seq<Symbol>, m: nat)
    requires Distinct(symbols) && 0 < m
    ensures Total(Equally(symbols, |symbols|, Fraction(m))) == Parts(|symbols|, m)
  {
    hide Total, Equally, Fraction, RawDict.Valid;
    EquallyTotal(symbols, |symbols|, Fraction(m));
  }

  /** Shares of 1/m each, held by exactly these symbols. */
  ghost predicate EqualShares(d: Dict, symbols: seq<Symbol>, m: int)
    requires m != 0
  {
    forall s :: d.Get(s) == if s in symbols then Fraction(m) else 0.0
  }

  lemma EquallyIs(symbols: seq<Symbol>, m: nat)
    requires Distinct(symbols) && 0 < m && |symbols| <= m
    ensures EqualShares(Equally(symbols, |symbols|, Fraction(m)), symbols, m)
    ensures Unleveraged(Equally(symbols, |symbols|, Fraction(m)))
    ensures |symbols| == m ==> Total(Equally(symbols, |symbols|, Fraction(m))) == 1.0
  {
    hide Total, Fraction, Equally, EqualShares, Unleveraged, Parts;
    PartsAre(|symbols|, m);
    PartsTotal(symbols, m);
    EqualSharesAre(symbols, m);
    EqualSharesAreUnleveraged(Equally(symbols, |symbols|, Fraction(m)), symbols, m);
  }

  lemma EqualSharesAreUnleveraged(d: Dict, symbols: seq<Symbol>, m: int)
    requires m != 0 && EqualShares(d, symbols, m) && Fraction(m) > 0.0 && Total(d) <= 1.0
    ensures Unleveraged(d)
  {
    hide Total, Fraction;
  }

  lemma EqualSharesAre(symbols: seq<Symbol>, m: int)
    requires m != 0
    ensures EqualShares(Equally(symbols, |symbols|, Fraction(m)), symbols, m)
  {
    hide Fraction, Equally;
    EquallyEntries(symbols, |symbols|, Fraction(m));
    assert symbols[..|symbols|] == symbols;
  }

  // ---------------------------------------------------------------- the safe asset

  /** max(scored) */
  function BestOf(ss: seq<Scored>): Scored
    requires |ss| > 0
  {
    var last := ss[|ss| - 1];
    if |ss| == 1 then last
    else
      var before := BestOf(ss[..|ss| - 1]);
      if Beats(last, before) then last else before
  }

  /** `_safe_weights`: the best safe asset by trailing return, or the first listed when none has a history. */
  function SafeAsset(candidates: seq<Symbol>, trailing: map<Symbol, real>): Option<Symbol> {
    var scored := Scores(candidates, trailing);
    if |candidates| == 0 then None
    else if |scored| == 0 then Some(candidates[0])
    else Some(BestOf(scored).symbol)
  }

  /** The loop and the max() of `_safe_weights`. */
  method FindSafeAsset(candidates: seq<Symbol>, trailing: map<Symbol, real>) returns (safe: Option<Symbol>)
    ensures safe == SafeAsset(candidates, trailing)
  {
    if |candidates| == 0 {
      return None;
    }
    var scored := CollectScores(candidates, trailing);
    if |scored| == 0 {
      return Some(candidates[0]);
    }
    hide Beats;
    var best := scored[0];
    for i := 1 to |scored|
      invariant best == BestOf(scored[..i])
    {
      assert scored[..i + 1][..i] == scored[..i];
      if Beats(scored[i], best) {
        best := scored[i];
      }
    }
    assert scored[..|scored|] == scored;
    return Some(best.symbol);
  }

  /** The source's loop over listed symbols. */
  method CollectScores(listed: seq<Symbol>, momentum: map<Symbol, real>) returns (scores: seq<Scored>)
    ensures scores == Scores(listed, momentum)
  {
    scores := [];
    for i := 0 to |listed|
      invariant scores == Scores(listed[..i], momentum)
    {
      assert listed[..i + 1][..i] == listed[..i];
      if listed[i] in momentum {
        scores := scores + [Scored(momentum[listed[i]], listed[i])];
      }
    }
    assert listed[..|listed|] == listed;
  }

  lemma HasScore(listed: seq<Symbol>, momentum: map<Symbol, real>, s: Symbol)
    requires s in listed && s in momentum
    ensures |Scores(listed, momentum)| > 0
  {
    ScoresAre(listed, momentum);
    assert Scored(momentum[s], s) in Scores(listed, momentum);
  }

  lemma {:induction false} BestOfIs(ss: seq<Scored>)
    requires |ss| > 0
    ensures BestOf(ss) in ss && forall x :: x in ss ==> x.score <= BestOf(ss).score
  {
    var n := |ss| - 1;
    assert ss == ss[..n] + [ss[n]];
    if n > 0 { BestOfIs(ss[..n]); }
  }

  /** No listed safe asset with a history did better than the one chosen. */
  lemma SafeAssetIsBest(candidates: seq<Symbol>, trailing: map<Symbol, real>, s: Symbol)
    requires s in candidates
    ensures SafeAsset(candidates, trailing).Some? && SafeAsset(candidates, trailing).value in candidates
    ensures s in trailing ==>
              var best := SafeAsset(candidates, trailing).value;
              best in trailing && trailing[best] >= trailing[s]
  {
    var scored := Scores(candidates, trailing);
    ScoresAre(candidates, trailing);
    if |scored| > 0 { BestOfIs(scored); }
    if s in trailing {
      HasScore(candidates, trailing, s);
      assert Scored(trailing[s], s) in scored;
    }
  }

  /** weights.update(_safe_weights(..., rest)) */
  function ParkRest(weights: Dict, safe: Option<Symbol>, rest: real): Dict {
    if rest <= 0.0 || safe.None? then weights else Put(weights, safe.value, rest)
  }

  /** Parking the rest invests everything unless it overwrites a weight: that much then stays in cash. */
  lemma ParkingIs(weights: Dict, safe: Option<Symbol>)
    requires Unleveraged(weights)
    ensures Unleveraged(ParkRest(weights, safe, 1.0 - Total(weights)))
    ensures safe.Some? ==>
              Total(ParkRest(weights, safe, 1.0 - Total(weights)))
              == if Total(weights) < 1.0 then 1.0 - weights.Get(safe.value) else 1.0
  {
    hide Total;
    if safe.Some? {
      var rest := 1.0 - Total(weights);
      TotalOfPut(weights, safe.value, rest);
      assert weights.Get(safe.value) >= 0.0;
      if rest > 0.0 {
        forall s ensures Put(weights, safe.value, rest).Get(s) >= 0.0 { assert weights.Get(s) >= 0.0; }
      }
    }
  }

  lemma EmptyIsUnleveraged()
    ensures Unleveraged(EMPTY) && Total(EMPTY) == 0.0
  {
    TotalOfEmpty();
  }

  // ---------------------------------------------------------------- buy and hold

  function BuyAndHold(available: seq<Symbol>): Dict {
    if |available| == 0 then EMPTY else Equally(available, |available|, Fraction(|available|))
  }

  /** Fully invested whenever anything is available, in equal parts. */
  lemma BuyAndHoldIsUnleveraged(available: seq<Symbol>)
    requires Distinct(available)
    ensures Unleveraged(BuyAndHold(available))
    ensures |available| > 0 ==> Total(BuyAndHold(available)) == 1.0
    ensures |available| > 0 ==> EqualShares(BuyAndHold(available), available, |available|)
  {
    hide Total, Equally, Fraction, Unleveraged, EqualShares;
    EmptyIsUnleveraged();
    if |available| > 0 { EquallyIs(available, |available|); }
  }

  // ---------------------------------------------------------------- Faber's timing

  /** The candidates that trade above their moving average, in order. */
  function InTrend(candidates: seq<Symbol>, up: set<Symbol>): seq<Symbol> {
    if |candidates| == 0 then []
    else
      var last := candidates[|candidates| - 1];
      InTrend(candidates[..|candidates| - 1], up) + if last in up then [last] else []
  }

  lemma {:induction false} InTrendIs(candidates: seq<Symbol>, up: set<Symbol>)
    ensures forall s :: s in InTrend(candidates, up) <==> s in candidates && s in up
    ensures |InTrend(candidates, up)| <= |candidates|
    ensures Distinct(candidates) ==> Distinct(InTrend(candidates, up))
  {
    if |candidates| > 0 {
      var n := |candidates| - 1;
      assert candidates == candidates[..n] + [candidates[n]];
      InTrendIs(candidates[..n], up);
      assert Distinct(candidates) ==> candidates[n] !in candidates[..n];
    }
  }

  function Faber(candidates: seq<Symbol>, up: set<Symbol>, safe: Option<Symbol>): Dict {
    if |candidates| == 0 then EMPTY
    else
      var held := InTrend(candidates, up);
      var weights := Equally(held, |held|, Fraction(|candidates|));
      ParkRest(weights, safe, 1.0 - Total(weights))
  }

  /** FaberTiming.target_weights, from the trend test on. */
  method FaberWeights(candidates: seq<Symbol>, up: set<Symbol>, safe: Option<Symbol>) returns (weights: Dict)
    ensures weights == Faber(candidates, up, safe)
  {
    hide Total, ParkRest, Fraction, Put;
    if |candidates| == 0 {
      return EMPTY;
    }
    var held: seq<Symbol> := [];
    for i := 0 to |candidates|
      invariant held == InTrend(candidates[..i], up)
    {
      assert candidates[..i + 1][..i] == candidates[..i];
      if candidates[i] in up {
        held := held + [candidates[i]];
      }
    }
    assert candidates[..|candidates|] == candidates;
    weights := FillEqually(held, Fraction(|candidates|));
    weights := ParkRest(weights, safe, 1.0 - Total(weights));
  }

  /** for sym in picked: weights[sym] = each */
  method FillEqually(picked: seq<Symbol>, each: real) returns (weights: Dict)
    ensures weights == Equally(picked, |picked|, each)
  {
    weights := EMPTY;
    for i := 0 to |picked|
      invariant weights == Equally(picked, i, each)
    {
      weights := Put(weights, picked[i], each);
    }
  }

  /**
   Each candidate holds its slot exactly while it is in trend; Faber never borrows, and with a safe asset
   outside the candidates it is fully invested.
   */
  lemma FaberIsUnleveraged(candidates: seq<Symbol>, up: set<Symbol>, safe: Option<Symbol>)
    requires Distinct(candidates) && |candidates| > 0
    ensures Unleveraged(Faber(candidates, up, safe))
    ensures forall s :: Some(s) != safe ==>
              Faber(candidates, up, safe).Get(s) == if s in candidates && s in up then Fraction(|candidates|) else 0.0
    ensures safe.Some? && safe.value !in candidates ==> Total(Faber(candidates, up, safe)) == 1.0
  {
    hide Total, Equally, Fraction, Unleveraged, InTrend;
    InTrendIs(candidates, up);
    var held := InTrend(candidates, up);
    EquallyIs(held, |candidates|);
    ParkingIs(Equally(held, |held|, Fraction(|candidates|)), safe);
  }

  // ---------------------------------------------------------------- dual momentum

  function Picked(scores: seq<Scored>, topN: int, floor: real): seq<Symbol> {
    Symbols(Above(Slice(Ranked(scores), topN), floor))
  }

  lemma PickedNeedsTopN(scores: seq<Scored>, topN: int, floor: real)
    ensures |Picked(scores, topN, floor)| > 0 ==> topN != 0
  {
  }

  /** What is picked, before the rest is parked. */
  function PickedWeights(picked: seq<Symbol>, topN: int): Dict {
    if topN != 0 then Equally(picked, |picked|, Fraction(topN)) else EMPTY
  }

  function DualMomentum(risk: seq<Symbol>, momentum: map<Symbol, real>, topN: int, floor: real, safe: Option<Symbol>): Dict {
    var scores := Scores(risk, momentum);
    if |scores| == 0 then EMPTY
    else
      var picked := Picked(scores, topN, floor);
      var weights := PickedWeights(picked, topN);
      ParkRest(weights, safe, 1.0 - Total(weights))
  }

  /** DualMomentum.target_weights, from the total returns on. */
  method DualMomentumWeights(risk: seq<Symbol>, momentum: map<Symbol, real>, topN: int, floor: real, safe: Option<Symbol>)
    returns (weights: Dict)
    ensures weights == DualMomentum(risk, momentum, topN, floor, safe)
  {
    hide Total, ParkRest, Fraction, Put, Picked, Scores;
    var scores := CollectScores(risk, momentum);
    if |scores| == 0 {
      return EMPTY;
    }
    var picked := Picked(scores, topN, floor);
    weights := EMPTY;
    PickedNeedsTopN(scores, topN, floor);
    if |picked| > 0 {
      weights := FillEqually(picked, Fraction(topN));
    } else if topN != 0 {
      NothingPicked(picked, Fraction(topN));
    }
    weights := ParkRest(weights, safe, 1.0 - Total(weights));
  }

  /** How many leading scores [:top_n] lets through at most: a negative top_n counts from the end. */
  function Admitted(topN: int, n: nat): nat {
    if topN >= 0 then topN else if n + topN > 0 then n + topN else 0
  }

  lemma SliceAdmits<T>(s: seq<T>, n: int)
    ensures Slice(s, n) == Slice(s, Admitted(n, |s|))
  {
  }

  /** A scored symbol above the floor that fewer than n others beat. */
  ghost predicate Leads(scores: seq<Scored>, momentum: map<Symbol, real>, s: Symbol, n: nat, floor: real) {
    && s in momentum
    && Scored(momentum[s], s) in scores
    && momentum[s] > floor
    && |Rivals(scores, Scored(momentum[s], s))| < n
  }

  /** Picked: above the floor, and beaten by fewer others than top_n lets through. */
  lemma PickedIff(risk: seq<Symbol>, momentum: map<Symbol, real>, topN: int, floor: real)
    requires Distinct(risk)
    ensures var scores := Scores(risk, momentum); var n := Admitted(topN, |scores|);
            && Distinct(Picked(scores, topN, floor)) && |Picked(scores, topN, floor)| <= n
            && (forall s :: s in Picked(scores, topN, floor) <==> Leads(scores, momentum, s, n, floor))
  {
    hide Scores, Ranked, Above, Symbols, Beats;
    var scores := Scores(risk, momentum);
    var n := Admitted(topN, |scores|);
    ScoresAre(risk, momentum);
    RankedIs(scores);
    DescendingIsDistinct(Ranked(scores));
    SliceAdmits(Ranked(scores), topN);
    var top := Slice(Ranked(scores), n);
    assert forall x :: x in top ==> x in Ranked(scores);
    AboveIs(top, floor);
    SymbolsAre(Above(top, floor), momentum);
    forall s | s in risk && s in momentum
      ensures Scored(momentum[s], s) in top <==> |Rivals(scores, Scored(momentum[s], s))| < n
    {
      InTopIff(scores, Scored(momentum[s], s), n);
    }
  }

  /** Parking the rest in an asset that is not held yet brings the total to 1, from whatever is below it. */
  lemma ParkingFills(weights: Dict, safe: Symbol)
    requires weights.Get(safe) == 0.0 && Total(weights) <= 1.0
    ensures Total(ParkRest(weights, Some(safe), 1.0 - Total(weights))) == 1.0
  {
    hide Total;
    TotalOfPut(weights, safe, 1.0 - Total(weights));
  }

  lemma PartsOfNegative(n: nat, m: int)
    requires m < 0
    ensures n as real * Fraction(m) <= 0.0 && Fraction(m) < 0.0
  {
    QuotientTimes(1.0, (-m) as real);
    assert Fraction(m) == -(1.0 / (-m) as real);
    MulNonNegative(n as real, -Fraction(m));
  }

  lemma PickedWeightsAre(picked: seq<Symbol>, topN: int)
    requires Distinct(picked) && (topN >= 0 ==> |picked| <= topN)
    ensures Total(PickedWeights(picked, topN)) <= 1.0
    ensures topN != 0 ==> EqualShares(PickedWeights(picked, topN), picked, topN)
    ensures topN >= 0 || |picked| == 0 ==> Unleveraged(PickedWeights(picked, topN))
  {
    hide Total, Equally, Fraction, EqualShares, Unleveraged;
    EmptyIsUnleveraged();
    if topN > 0 {
      EquallyIs(picked, topN);
      UnleveragedIsBelow(PickedWeights(picked, topN));
    } else if topN < 0 {
      EqualSharesAre(picked, topN);
      EquallyTotal(picked, |picked|, Fraction(topN));
      PartsOfNegative(|picked|, topN);
      if |picked| == 0 { NothingPicked(picked, Fraction(topN)); }
    }
  }

  lemma UnleveragedIsBelow(d: Dict)
    requires Unleveraged(d)
    ensures Total(d) <= 1.0
  {
  }

  lemma NothingPicked(picked: seq<Symbol>, each: real)
    requires |picked| == 0
    ensures Equally(picked, |picked|, each) == EMPTY
  {
  }

  /**
   Dual momentum, for every top_n: 1/top_n goes to exactly the risk assets that clear the floor and are beaten
   by fewer others than top_n lets through, and nothing to anything else but the safe asset. With a safe asset
   outside the risk set the weights sum to 1; for a top_n that is not negative they never need leverage.
   */
  lemma DualMomentumIs(risk: seq<Symbol>, momentum: map<Symbol, real>, topN: int, floor: real, safe: Option<Symbol>)
    requires Distinct(risk)
    ensures var scores := Scores(risk, momentum);
            forall s :: Some(s) != safe ==>
                          DualMomentum(risk, momentum, topN, floor, safe).Get(s)
                          == if Leads(scores, momentum, s, Admitted(topN, |scores|), floor) then Fraction(topN) else 0.0
    ensures topN >= 0 ==> Unleveraged(DualMomentum(risk, momentum, topN, floor, safe))
    ensures |Scores(risk, momentum)| > 0 && safe.Some? && safe.value !in risk ==>
              Total(DualMomentum(risk, momentum, topN, floor, safe)) == 1.0
  {
    hide Total, Unleveraged, DualMomentum, Rivals, Fraction, Scores, RawDict.Get;
    var scores := Scores(risk, momentum);
    forall s | Some(s) != safe
      ensures DualMomentum(risk, momentum, topN, floor, safe).Get(s)
           == if Leads(scores, momentum, s, Admitted(topN, |scores|), floor) then Fraction(topN) else 0.0
    {
      DualMomentumShare(risk, momentum, topN, floor, safe, s);
    }
    DualMomentumTotal(risk, momentum, topN, floor, safe);
  }

  lemma PickedShare(picked: seq<Symbol>, topN: int, s: Symbol)
    requires Distinct(picked) && (topN >= 0 ==> |picked| <= topN)
    ensures PickedWeights(picked, topN).Get(s) == if s in picked then Fraction(topN) else 0.0
  {
    hide Equally, Fraction, RawDict.Get, RawDict.Valid;
    if topN == 0 {
      NothingHeld();
    } else {
      EquallyEntries(picked, |picked|, Fraction(topN));
      assert picked[..|picked|] == picked;
    }
  }

  lemma ParkingLeaves(weights: Dict, safe: Option<Symbol>, rest: real, s: Symbol)
    requires Some(s) != safe
    ensures ParkRest(weights, safe, rest).Get(s) == weights.Get(s)
  {
  }

  lemma DualMomentumShare(risk: seq<Symbol>, momentum: map<Symbol, real>, topN: int, floor: real, safe: Option<Symbol>, s: Symbol)
    requires Distinct(risk) && Some(s) != safe
    ensures var scores := Scores(risk, momentum);
            DualMomentum(risk, momentum, topN, floor, safe).Get(s)
            == if Leads(scores, momentum, s, Admitted(topN, |scores|), floor) then Fraction(topN) else 0.0
  {
    hide Total, Fraction, Picked, Scores, Rivals, PickedWeights, ParkRest, RawDict.Get, RawDict.Valid;
    PickedIff(risk, momentum, topN, floor);
    NothingHeld();
    var scores := Scores(risk, momentum);
    if |scores| > 0 {
      var picked := Picked(scores, topN, floor);
      PickedShare(picked, topN, s);
      var weights := PickedWeights(picked, topN);
      ParkingLeaves(weights, safe, 1.0 - Total(weights), s);
    }
  }

  lemma DualMomentumTotal(risk: seq<Symbol>, momentum: map<Symbol, real>, topN: int, floor: real, safe: Option<Symbol>)
    requires Distinct(risk)
    ensures topN >= 0 ==> Unleveraged(DualMomentum(risk, momentum, topN, floor, safe))
    ensures |Scores(risk, momentum)| > 0 && safe.Some? && safe.value !in risk ==>
              Total(DualMomentum(risk, momentum, topN, floor, safe)) == 1.0
  {
    hide Total, Fraction, Unleveraged, Picked, Scores, Rivals, PickedWeights, ParkRest, RawDict.Get, RawDict.Valid;
    EmptyIsUnleveraged();
    PickedIff(risk, momentum, topN, floor);
    var scores := Scores(risk, momentum);
    ScoresAre(risk, momentum);
    if |scores| > 0 {
      var picked := Picked(scores, topN, floor);
      var weights := PickedWeights(picked, topN);
      PickedWeightsAre(picked, topN);
      if topN >= 0 { ParkingIs(weights, safe); }
      if safe.Some? && safe.value !in risk {
        PickedShare(picked, topN, safe.value);
        assert safe.value !in picked;
        ParkingFills(weights, safe.value);
      }
    }
  }

  lemma HasMember(picked: seq<Symbol>)
    ensures |picked| > 0 ==> exists s :: s in picked
  {
    if |picked| > 0 { assert picked[0] in picked; }
  }

  /** The best score leads the ranking of any length. */
  lemma BestLeads(risk: seq<Symbol>, momentum: map<Symbol, real>, s: Symbol, floor: real) returns (best: Symbol)
    requires Distinct(risk) && s in risk && s in momentum && momentum[s] > floor
    ensures best in risk && forall n: nat :: n > 0 ==> Leads(Scores(risk, momentum), momentum, best, n, floor)
  {
    hide Scores, Ranked, Rivals;
    var scores := Scores(risk, momentum);
    ScoresAre(risk, momentum);
    HasScore(risk, momentum, s);
    RankedIs(scores);
    var top := Ranked(scores)[0];
    assert top in scores && Scored(momentum[s], s) in Ranked(scores);
    assert Slice(Ranked(scores), 1) == [top];
    InTopIff(scores, top, 1);
    best := top.symbol;
  }

  /**
   Exactly when dual momentum needs no short sale, for every top_n and a safe asset outside the risk set: top_n
   is not negative, or cuts off all the scores, or no risk asset clears the floor. Then it needs no leverage either.
   */
  lemma DualMomentumIsLongIff(risk: seq<Symbol>, momentum: map<Symbol, real>, topN: int, floor: real, safe: Option<Symbol>)
    requires Distinct(risk) && (safe.Some? ==> safe.value !in risk)
    ensures var holds := topN >= 0 || -topN >= |Scores(risk, momentum)| || forall s :: s in risk && s in momentum ==> momentum[s] <= floor;
            && (NonNegative(DualMomentum(risk, momentum, topN, floor, safe)) <==> holds)
            && (Unleveraged(DualMomentum(risk, momentum, topN, floor, safe)) <==> holds)
  {
    hide Total, Fraction, Scores, Rivals, Picked, Equally;
    var scores := Scores(risk, momentum);
    var n := Admitted(topN, |scores|);
    ScoresAre(risk, momentum);
    PickedIff(risk, momentum, topN, floor);
    DualMomentumIs(risk, momentum, topN, floor, safe);
    if topN < 0 && n > 0 && exists s :: s in risk && s in momentum && momentum[s] > floor {
      var s :| s in risk && s in momentum && momentum[s] > floor;
      var best := BestLeads(risk, momentum, s, floor);
      PartsOfNegative(1, topN);
      assert DualMomentum(risk, momentum, topN, floor, safe).Get(best) == Fraction(topN);
    } else if topN < 0 {
      var picked := Picked(scores, topN, floor);
      HasMember(picked);
      PickedWeightsAre(picked, topN);
      ParkingIs(PickedWeights(picked, topN), safe);
      EmptyIsUnleveraged();
    }
  }

  /** A negative top_n would sell short: two rising assets and top_n = -1 give a weight of -1. */
  lemma NegativeTopNSellsShort(momentum: map<Symbol, real>)
    requires momentum == map["A" := 2.0, "B" := 1.0]
    ensures DualMomentum(["A", "B"], momentum, -1, 0.0, None).Get("A") == -1.0
  {
    hide Total, Scores, Ranked, Above, Equally;
    var a := Scored(2.0, "A");
    RankedPair(momentum);
    assert Slice([a, Scored(1.0, "B")], -1) == [a];
    AboveAll(a);
    assert Symbols([a]) == ["A"];
    assert Fraction(-1) == -1.0;
    EqualSharesAre(["A"], -1);
  }

  lemma RankedPair(momentum: map<Symbol, real>)
    requires momentum == map["A" := 2.0, "B" := 1.0]
    ensures Scores(["A", "B"], momentum) == [Scored(2.0, "A"), Scored(1.0, "B")]
    ensures Ranked(Scores(["A", "B"], momentum)) == [Scored(2.0, "A"), Scored(1.0, "B")]
  {
    hide Scores, Ranked;
    ScoredPair(momentum);
    var a, b := Scored(2.0, "A"), Scored(1.0, "B");
    RankedInOrder(a, b);
  }

  lemma ScoredPair(momentum: map<Symbol, real>)
    requires momentum == map["A" := 2.0, "B" := 1.0]
    ensures Scores(["A", "B"], momentum) == [Scored(2.0, "A"), Scored(1.0, "B")]
  {
    assert ["A"][..0] == [] && ["A", "B"][..1] == ["A"];
    assert Scores(["A"], momentum) == [Scored(2.0, "A")];
  }

  lemma RankedInOrder(a: Scored, b: Scored)
    requires Beats(a, b)
    ensures Ranked([a, b]) == [a, b]
  {
    hide Beats;
    BeatsIsTotal(a, b);
    assert [a][..0] == [] && [a, b][..1] == [a];
    assert Ranked([a]) == InsertRanked([], a) == [a];
    assert Ranked([a, b]) == InsertRanked([a], b);
  }

  lemma AboveAll(x: Scored)
    requires x.score > 0.0
    ensures Above([x], 0.0) == [x]
  {
    assert [x][..0] == [];
  }

  // ---------------------------------------------------------------- VAA

  /** `_breadth_threshold`; round(n / 3) has no ties to break. */
  function BreadthThreshold(explicit: Option<int>, n: nat): int {
    if explicit.Some? && explicit.value != 0 then explicit.value
    else if (n + 1) / 3 >= 1 then (n + 1) / 3 else 1
  }

  /** By default the threshold is the whole number nearest to a third of the universe, and never out of reach; zero asks for the default. */
  lemma BreadthIsNearestThird(n: nat, k: int)
    requires n > 0
    ensures var b := BreadthThreshold(None, n); 1 <= b <= n && (k >= 1 ==> Abs((3 * b - n) as real) <= Abs((3 * k - n) as real))
    ensures BreadthThreshold(None, 4) == 1 && BreadthThreshold(None, 12) == 4
    ensures BreadthThreshold(Some(k), n) == if k == 0 then BreadthThreshold(None, n) else k
  {
  }

  /** An error stands for the division by zero when nothing is picked. */
  function Vaa(risk: seq<Symbol>, momentum: map<Symbol, real>, topN: int, explicit: Option<int>, safe: Option<Symbol>)
    : Result<Dict, string>
  {
    var scores := Scores(risk, momentum);
    if |scores| == 0 then Ok(EMPTY)
    else if |scores| - |Above(scores, 0.0)| >= BreadthThreshold(explicit, |scores|) then Ok(ParkRest(EMPTY, safe, 1.0))
    else
      var picked := Symbols(Slice(Ranked(scores), topN));
      if |picked| == 0 then Err("division by zero") else Ok(Equally(picked, |picked|, Fraction(|picked|)))
  }

  /** The scored symbols that do not rise. */
  ghost function Fallers(listed: seq<Symbol>, momentum: map<Symbol, real>): set<Symbol> {
    set s | s in listed && s in momentum && momentum[s] <= 0.0
  }

  lemma {:induction false} FallersCount(listed: seq<Symbol>, momentum: map<Symbol, real>)
    requires Distinct(listed)
    ensures |Fallers(listed, momentum)| == |Scores(listed, momentum)| - |Above(Scores(listed, momentum), 0.0)|
  {
    hide Scores, Above, Fallers;
    if |listed| == 0 {
      NoFallers(momentum);
    } else {
      assert listed == listed[..|listed| - 1] + [listed[|listed| - 1]];
      FallersCount(listed[..|listed| - 1], momentum);
      OneMoreFaller(listed, momentum);
      OneMoreScore(listed, momentum);
    }
  }

  lemma NoFallers(momentum: map<Symbol, real>)
    ensures Fallers([], momentum) == {} && Scores([], momentum) == [] && Above([], 0.0) == []
  {
  }

  lemma OneMoreFaller(listed: seq<Symbol>, momentum: map<Symbol, real>)
    requires |listed| > 0 && Distinct(listed)
    ensures var s, before := listed[|listed| - 1], Fallers(listed[..|listed| - 1], momentum);
            |Fallers(listed, momentum)| == |before| + if s in momentum && momentum[s] <= 0.0 then 1 else 0
  {
    var n := |listed| - 1;
    var s, before := listed[n], Fallers(listed[..n], momentum);
    assert listed == listed[..n] + [s];
    assert s !in listed[..n];
    if s in momentum && momentum[s] <= 0.0 {
      assert Fallers(listed, momentum) == before + {s};
    } else {
      assert Fallers(listed, momentum) == before;
    }
  }

  lemma OneMoreScore(listed: seq<Symbol>, momentum: map<Symbol, real>)
    requires |listed| > 0
    ensures var s, before, now := listed[|listed| - 1], Scores(listed[..|listed| - 1], momentum), Scores(listed, momentum);
            && |now| == |before| + (if s in momentum then 1 else 0)
            && |Above(now, 0.0)| == |Above(before, 0.0)| + if s in momentum && momentum[s] > 0.0 then 1 else 0
  {
    var s, before := listed[|listed| - 1], Scores(listed[..|listed| - 1], momentum);
    if s in momentum { assert (before + [Scored(momentum[s], s)])[..|before|] == before; } else { assert before + [] == before; }
  }

  /**
   What VAA answers: nothing without a score; everything in the safe asset, if there is one, when at least the
   threshold of its scored symbols do not rise; and else equal parts of exactly the symbols that are beaten by fewer
   others than the slice lets through.
   */
  lemma VaaIs(risk: seq<Symbol>, momentum: map<Symbol, real>, topN: int, explicit: Option<int>, safe: Option<Symbol>, s: Symbol)
    requires Distinct(risk)
    ensures var scores := Scores(risk, momentum); var r := Vaa(risk, momentum, topN, explicit, safe);
            var n := Admitted(topN, |scores|);
            if |scores| == 0 then r == Ok(EMPTY)
            else if |Fallers(risk, momentum)| >= BreadthThreshold(explicit, |scores|)
            then r.Ok? && r.value.Get(s) == if safe == Some(s) then 1.0 else 0.0
            else
              r.Ok? ==>
                && n > 0 && (n <= |scores| ==> |r.value.keys| == n) && (n > |scores| ==> |r.value.keys| == |scores|)
                && r.value.Get(s) == if s in momentum && Scored(momentum[s], s) in scores && |Rivals(scores, Scored(momentum[s], s))| < n
                                     then 1.0 / |r.value.keys| as real else 0.0
  {
    hide Beats, Above, Scores, Ranked, Fraction, Rivals, Fallers, Equally, RawDict.Get, RawDict.Valid;
    var scores := Scores(risk, momentum);
    FallersCount(risk, momentum);
    ScoresAre(risk, momentum);
    SafeAlone(safe, s);
    if |scores| > 0 && |Fallers(risk, momentum)| < BreadthThreshold(explicit, |scores|) {
      RankedIs(scores);
      DescendingIsDistinct(Ranked(scores));
      SliceAdmits(Ranked(scores), topN);
      var n := Admitted(topN, |scores|);
      var top := Slice(Ranked(scores), n);
      assert forall x :: x in top ==> x in Ranked(scores);
      SymbolsAre(top, momentum);
      if |top| > 0 {
        EqualPart(Symbols(top), s);
        if s in momentum && Scored(momentum[s], s) in scores { InTopIff(scores, Scored(momentum[s], s), n); }
      }
    }
  }

  lemma SafeAlone(safe: Option<Symbol>, s: Symbol)
    ensures ParkRest(EMPTY, safe, 1.0).Get(s) == if safe == Some(s) then 1.0 else 0.0
  {
  }

  lemma EqualPart(symbols: seq<Symbol>, s: Symbol)
    requires Distinct(symbols) && |symbols| > 0
    ensures var d := Equally(symbols, |symbols|, Fraction(|symbols|));
            |d.keys| == |symbols| && d.Get(s) == if s in symbols then 1.0 / |symbols| as real else 0.0
  {
    hide Equally, RawDict.Get, RawDict.Valid;
    EqualSharesAre(symbols, |symbols|);
    EquallyKeys(symbols, |symbols|, Fraction(|symbols|));
  }

  lemma {:induction false} EquallyKeys(symbols: seq<Symbol>, n: nat, each: real)
    requires n <= |symbols| && Distinct(symbols)
    ensures Equally(symbols, n, each).keys == symbols[..n]
  {
    hide RawDict.Get, Put;
    if n > 0 {
      EquallyKeys(symbols, n - 1, each);
      assert symbols[..n] == symbols[..n - 1] + [symbols[n - 1]];
      PutAppends(Equally(symbols, n - 1, each), symbols[n - 1], each);
    }
  }

  lemma PutAppends(d: Dict, k: Symbol, v: real)
    requires k !in d.keys
    ensures Put(d, k, v).keys == d.keys + [k]
  {
  }

  /** VAA, where it returns at all, never borrows; it fails exactly when it should invest but picks nothing. */
  lemma VaaIsUnleveraged(risk: seq<Symbol>, momentum: map<Symbol, real>, topN: int, explicit: Option<int>, safe: Option<Symbol>)
    requires Distinct(risk)
    ensures var scores := Scores(risk, momentum);
            Vaa(risk, momentum, topN, explicit, safe).Err? <==>
              && |scores| > 0
              && |scores| - |Above(scores, 0.0)| < BreadthThreshold(explicit, |scores|)
              && (topN == 0 || -topN >= |scores|)
    ensures Vaa(risk, momentum, topN, explicit, safe).Ok? ==> Unleveraged(Vaa(risk, momentum, topN, explicit, safe).value)
  {
    hide Total, Equally, Fraction, ParkRest, Unleveraged, Above, Scores, Ranked;
    EmptyIsUnleveraged();
    ParkingIs(EMPTY, safe);
    var scores := Scores(risk, momentum);
    ScoresAre(risk, momentum);
    RankedIs(scores);
    DescendingIsDistinct(Ranked(scores));
    var top := Slice(Ranked(scores), topN);
    assert forall x :: x in top ==> x in Ranked(scores);
    SymbolsAre(top, momentum);
    if |top| > 0 { EquallyIs(Symbols(top), |top|); }
  }

  /** With its defaults (one pick, threshold from the universe's size) VAA never holds a risk asset that is not rising. */
  lemma VaaHoldsOnlyRisers(risk: seq<Symbol>, momentum: map<Symbol, real>, safe: Option<Symbol>, s: Symbol)
    requires Distinct(risk) && Some(s) != safe
    ensures Vaa(risk, momentum, 1, None, safe).Ok?
    ensures Vaa(risk, momentum, 1, None, safe).value.Get(s) != 0.0 ==>
              s in risk && s in momentum && momentum[s] > 0.0
              && forall t :: t in risk && t in momentum ==> momentum[t] <= momentum[s]
  {
    hide Fraction, Above, Scores, Ranked;
    var scores := Scores(risk, momentum);
    if |scores| > 0 {
      ScoresAre(risk, momentum);
      AboveIs(scores, 0.0);
      RankedIs(scores);
      var best := Ranked(scores)[0];
      assert Slice(Ranked(scores), 1) == [best];
      assert Symbols([best]) == [best.symbol];
      assert best in scores;
      EqualSharesAre([best.symbol], 1);
      forall t | t in risk && t in momentum ensures momentum[t] <= best.score {
        assert Scored(momentum[t], t) in Ranked(scores);
      }
      if |scores| - |Above(scores, 0.0)| < BreadthThreshold(None, |scores|) {
        assert BreadthThreshold(None, |scores|) <= |scores|;
        var riser := Above(scores, 0.0)[0];
        assert riser in Above(scores, 0.0) && riser in Ranked(scores);
        assert best.score > 0.0;
      }
    }
  }
}
