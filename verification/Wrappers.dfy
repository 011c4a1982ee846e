/** Option and Result, and the few facts about real numbers that the models share. */
module Wrappers {
  datatype Option<+T> = None | Some(value: T)

  datatype Result<+T, +E> = Ok(value: T) | Err(error: E)
}

module RealFacts {
  function Abs(x: real): real {
    if x < 0.0 then -x else x
  }

  function Min(x: real, y: real): real {
    if x < y then x else y
  }

  function Max(x: real, y: real): real {
    if x < y then y else x
  }

  /** Python's int(x): truncation towards zero. */
  function Truncate(x: real): int {
    if x >= 0.0 then x.Floor else -((-x).Floor)
  }

  predicate IsWhole(x: real) {
    x == x.Floor as real
  }

  lemma WholeOfInt(i: int)
    ensures IsWhole(i as real)
  {
  }

  lemma WholeSum(x: real, y: real)
    requires IsWhole(x) && IsWhole(y)
    ensures IsWhole(x + y) && IsWhole(x - y)
  {
    WholeOfInt(x.Floor + y.Floor);
    WholeOfInt(x.Floor - y.Floor);
  }

  lemma MulMono(a: real, x: real, y: real)
    requires 0.0 <= a && x <= y
    ensures a * x <= a * y
  {
  }

  lemma MulPositive(a: real, b: real)
    requires 0.0 < a && 0.0 < b
    ensures 0.0 < a * b
  {
  }

  lemma MulNonNegative(a: real, b: real)
    requires 0.0 <= a && 0.0 <= b
    ensures 0.0 <= a * b
  {
  }

  lemma DivMono(x: real, y: real, a: real)
    requires 0.0 < a && x <= y
    ensures x / a <= y / a
  {
    assert x / a - y / a == (x - y) / a;
  }

  lemma QuotientTimes(x: real, a: real)
    requires a > 0.0
    ensures (x / a) * a == x
    ensures x >= 0.0 ==> x / a >= 0.0
    ensures x < 0.0 ==> x / a < 0.0
  {
  }

  lemma TruncateIsBelow(x: real)
    requires x >= 0.0
    ensures 0.0 <= Truncate(x) as real <= x
  {
  }

  lemma BelowOne(rest: real, unit: real)
    requires 0.0 <= rest < unit
    ensures Truncate(rest / unit) == 0
  {
    var x := rest / unit;
    QuotientTimes(rest, unit);
    if x >= 1.0 { MulMono(unit, 1.0, x); }
    ProperFractionTruncates(x);
  }

  lemma ProperFractionTruncates(x: real)
    requires 0.0 <= x < 1.0
    ensures Truncate(x) == 0
  {
  }

  /** Buying x units, or as many whole ones, leaves less than one unit's price of the amount. */
  lemma WithinOneUnit(x: real, unit: real, q: real, amount: real)
    requires unit > 0.0 && x >= 0.0 && x * unit == amount && (q == x || q == Truncate(x) as real)
    ensures 0.0 <= amount - unit * q < unit && q >= 0.0
  {
    Remainder(x, unit, q, amount);
  }

  lemma Remainder(x: real, unit: real, q: real, amount: real)
    requires unit > 0.0 && x * unit == amount && 0.0 <= x - q < 1.0
    ensures 0.0 <= amount - unit * q < unit
  {
    var r := x - q;
    FractionOf(unit, r);
    assert amount - unit * q == unit * r;
  }

  lemma FractionOf(unit: real, r: real)
    requires unit > 0.0 && 0.0 <= r < 1.0
    ensures 0.0 <= unit * r < unit
  {
    MulNonNegative(unit, r);
    MulPositive(unit, 1.0 - r);
    assert unit - unit * r == unit * (1.0 - r);
  }

  /** As many units as the amount pays for: all of it if they are divisible, else the whole ones, towards zero. */
  ghost predicate Fills(amount: real, unit: real, q: real, divisible: bool) {
    var rest := amount - unit * q;
    if divisible then rest == 0.0
    else IsWhole(q) && Abs(rest) < unit && (amount >= 0.0 ==> rest >= 0.0) && (amount <= 0.0 ==> rest <= 0.0)
  }

  lemma QuotientFills(amount: real, unit: real, q: real, divisible: bool)
    requires unit > 0.0 && q == if divisible then amount / unit else Truncate(amount / unit) as real
    ensures Fills(amount, unit, q, divisible)
  {
    hide IsWhole, Truncate;
    QuotientTimes(amount, unit);
    if !divisible {
      WholeOfInt(Truncate(amount / unit));
      if amount >= 0.0 {
        WithinOneUnit(amount / unit, unit, q, amount);
      } else {
        OppositeFills(amount / unit, unit, q, amount);
      }
    }
  }

  lemma OppositeFills(x: real, unit: real, q: real, amount: real)
    requires unit > 0.0 && amount < 0.0 && x < 0.0 && x * unit == amount && q == Truncate(x) as real
    ensures -unit < amount - unit * q <= 0.0
  {
    var y, p := -x, -q;
    assert p == Truncate(y) as real;
    hide Truncate;
    Opposite(x, unit);
    Opposite(q, unit);
    WithinOneUnit(y, unit, p, -amount);
  }

  lemma Opposite(x: real, unit: real)
    ensures (-x) * unit == -(x * unit) && unit * (-x) == -(unit * x)
  {
  }

  /** There is only one such number of units. */
  lemma FillsOnce(amount: real, unit: real, p: real, q: real, divisible: bool)
    requires unit > 0.0 && Fills(amount, unit, p, divisible) && Fills(amount, unit, q, divisible)
    ensures p == q
  {
    var a, b := unit * p, unit * q;
    RestsAreClose(amount, a, b, unit, divisible);
    hide IsWhole, Abs;
    if p < q { ApartByUnit(unit, p, q, a, b, divisible); }
    if q < p { ApartByUnit(unit, q, p, b, a, divisible); }
  }

  lemma RestsAreClose(amount: real, a: real, b: real, unit: real, exact: bool)
    requires if exact then amount - a == amount - b == 0.0
             else
               && Abs(amount - a) < unit && Abs(amount - b) < unit
               && (amount >= 0.0 ==> amount - a >= 0.0 && amount - b >= 0.0)
               && (amount <= 0.0 ==> amount - a <= 0.0 && amount - b <= 0.0)
    ensures Abs(a - b) < unit || (exact && a == b)
  {
  }

  lemma ApartByUnit(unit: real, p: real, q: real, a: real, b: real, divisible: bool)
    requires unit > 0.0 && p < q && a == unit * p && b == unit * q && (divisible || (IsWhole(p) && IsWhole(q)))
    ensures a != b && (!divisible ==> !(Abs(a - b) < unit) && !(Abs(b - a) < unit))
  {
    hide IsWhole;
    TimesDifference(unit, q - p, q, p);
    MulPositive(unit, q - p);
    if !divisible {
      WholesApart(p, q);
      MulMono(unit, 1.0, q - p);
    }
  }

  lemma TimesDifference(a: real, r: real, x: real, y: real)
    requires r == x - y
    ensures a * r == a * x - a * y
  {
  }

  lemma WholesApart(x: real, y: real)
    requires IsWhole(x) && IsWhole(y) && x < y
    ensures y - x >= 1.0
  {
    assert x.Floor < y.Floor;
  }
}
