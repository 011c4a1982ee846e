/** Tick sizes and price rounding (src/tqt/tick.py). */
module Tick {
  import opened Wrappers
  import opened RealFacts
  import opened Costs

  /** A price band: its exclusive upper bound, and its tick. The top band is open. */
  datatype Band = Band(upper: Option<real>, tick: real)

  type Table = seq<Band>

  const KRX_STOCK_TICKS: Table := [
    Band(Some(2000.0), 1.0), Band(Some(5000.0), 5.0), Band(Some(20000.0), 10.0), Band(Some(50000.0), 50.0),
    Band(Some(200000.0), 100.0), Band(Some(500000.0), 500.0), Band(None, 1000.0)]

  const KRX_ETF_TICKS: Table := [Band(Some(2000.0), 1.0), Band(None, 5.0)]

  /** v is a multiple of t. */
  predicate OnGrid(v: real, t: real)
    requires t > 0.0
  {
    IsWhole(v / t)
  }

  predicate Covers(b: Band, price: real) {
    b.upper.None? || price < b.upper.value
  }

  /** Bands ascend, the last is open, and each inner edge is a multiple of the ticks on both its sides. */
  ghost predicate WellFormed(table: Table) {
    && |table| > 0 && table[|table| - 1].upper.None?
    && (forall i :: 0 <= i < |table| ==> table[i].tick > 0.0)
    && (forall i :: 0 <= i < |table| - 1 ==>
          && table[i].upper.Some? && table[i].upper.value > 0.0
          && OnGrid(table[i].upper.value, table[i].tick)
          && OnGrid(table[i].upper.value, table[i + 1].tick))
    && (forall i, j :: 0 <= i < j < |table| - 1 ==> table[i].upper.value < table[j].upper.value)
  }

  /** The first band that covers the price. */
  function BandOf(table: Table, price: real): (i: nat)
    requires |table| > 0 && table[|table| - 1].upper.None?
    ensures i < |table| && Covers(table[i], price)
    ensures forall j :: 0 <= j < i ==> !Covers(table[j], price)
  {
    if Covers(table[0], price) then 0 else 1 + BandOf(table[1..], price)
  }

  function TickSize(table: Table, price: real): real
    requires WellFormed(table)
  {
    table[BandOf(table, price)].tick
  }

  predicate IsValidTick(table: Table, price: real)
    requires WellFormed(table)
  {
    assert TickSize(table, price) > 0.0;
    OnGrid(price, TickSize(table, price))
  }

  datatype Rounding = RoundUp | RoundDown | HalfEven

  function Ceil(x: real): int {
    -((-x).Floor)
  }

  /** Decimal.quantize(1) under ROUND_UP (away from zero), ROUND_DOWN (towards it) or the default half-even. */
  function Quantize(x: real, mode: Rounding): int {
    match mode
    case RoundDown => Truncate(x)
    case RoundUp => if x >= 0.0 then Ceil(x) else x.Floor
    case HalfEven =>
      var below := x - x.Floor as real;
      if below < 0.5 then x.Floor
      else if below > 0.5 then x.Floor + 1
      else if x.Floor % 2 == 0 then x.Floor else x.Floor + 1
  }

  function Snap(price: real, t: real, mode: Rounding): real
    requires t > 0.0
  {
    Quantize(price / t, mode) as real * t
  }

  /** round_to_tick for a KR symbol; the side is optional. */
  function RoundToTick(table: Table, price: real, side: Option<Side>): real
    requires WellFormed(table)
  {
    var t := TickSize(table, price);
    var rounded := Snap(price, t, if side == Some(Buy) then RoundUp else if side == Some(Sell) then RoundDown else HalfEven);
    var t2 := TickSize(table, rounded);
    if t2 != t then Snap(rounded, t2, if side == Some(Buy) then RoundUp else RoundDown) else rounded
  }

  // ---------------------------------------------------------------- multiples

  lemma GridOf(k: int, t: real)
    requires t > 0.0
    ensures OnGrid(k as real * t, t) && (k as real * t) / t == k as real
  {
    assert (k as real * t) / t == k as real;
    WholeOfInt(k);
  }

  lemma GridIndex(v: real, t: real) returns (k: int)
    requires t > 0.0 && OnGrid(v, t)
    ensures v == k as real * t && v / t == k as real
  {
    k := (v / t).Floor;
    assert (v / t) * t == v;
  }

  /** The least multiple at or above a non-negative price. */
  lemma SnapUpIsLeast(p: real, t: real, v: real)
    requires t > 0.0 && p >= 0.0
    ensures OnGrid(Snap(p, t, RoundUp), t) && p <= Snap(p, t, RoundUp)
    ensures OnGrid(v, t) && v >= p ==> v >= Snap(p, t, RoundUp)
  {
    hide Snap, OnGrid;
    QuotientTimes(p, t);
    var c := SnapUpIs(p, t);
    GridOf(c, t);
    TimesMono(p / t, c as real, t);
    if OnGrid(v, t) && v >= p { NextOnGrid(p, t, v, c); }
  }

  /** The first multiple from a price on is no greater than any multiple from it on. */
  lemma NextOnGrid(p: real, t: real, v: real, c: int)
    requires t > 0.0 && OnGrid(v, t) && v >= p && (c - 1) as real < p / t
    ensures v >= c as real * t
  {
    hide OnGrid;
    var k := GridIndex(v, t);
    DivMono(p, v, t);
    NoIntegerBetween(p / t, c, k);
    TimesMono(c as real, k as real, t);
  }

  lemma SnapUpIs(p: real, t: real) returns (c: int)
    requires t > 0.0 && p >= 0.0
    ensures Snap(p, t, RoundUp) == c as real * t && (c - 1) as real < p / t <= c as real
  {
    QuotientTimes(p, t);
    c := Ceil(p / t);
  }

  lemma NoIntegerBetween(x: real, c: int, k: int)
    requires (c - 1) as real < x <= k as real
    ensures c <= k
  {
  }

  lemma TimesMono(a: real, b: real, t: real)
    requires t > 0.0 && a <= b
    ensures a * t <= b * t
  {
    MulMono(t, a, b);
  }

  /** The greatest multiple at or below a non-negative price. */
  lemma SnapDownIsGreatest(p: real, t: real, v: real)
    requires t > 0.0 && p >= 0.0
    ensures OnGrid(Snap(p, t, RoundDown), t) && 0.0 <= Snap(p, t, RoundDown) <= p
    ensures OnGrid(v, t) && v <= p ==> v <= Snap(p, t, RoundDown)
  {
    var x := p / t;
    QuotientTimes(p, t);
    var c := Truncate(x);
    assert Snap(p, t, RoundDown) == c as real * t;
    assert 0 <= c && c as real <= x < (c + 1) as real;
    hide Truncate, Snap, OnGrid;
    GridOf(c, t);
    TimesMono(c as real, x, t);
    TimesMono(0.0, c as real, t);
    if OnGrid(v, t) && v <= p {
      var k := GridIndex(v, t);
      DivMono(v, p, t);
      assert k <= c;
      TimesMono(k as real, c as real, t);
    }
  }

  /** A price already on the grid stays where it is. */
  lemma SnapKeepsGrid(p: real, t: real, mode: Rounding)
    requires t > 0.0 && p >= 0.0 && OnGrid(p, t)
    ensures Snap(p, t, mode) == p
  {
    var k := GridIndex(p, t);
    assert Quantize(k as real, mode) == k;
  }

  // ---------------------------------------------------------------- bands

  /** A price lies in the band whose edges enclose it. */
  lemma BandIs(table: Table, p: real, i: nat)
    requires WellFormed(table) && i < |table| && Covers(table[i], p)
    requires i > 0 ==> p >= table[i - 1].upper.value
    ensures BandOf(table, p) == i
  {
    forall j | 0 <= j < i ensures !Covers(table[j], p) {
      if j < i - 1 { assert table[j].upper.value < table[i - 1].upper.value; }
    }
  }

  lemma SameBand(table: Table, p: real, v: real)
    requires WellFormed(table) && Covers(table[BandOf(table, p)], v)
    requires v >= p || (BandOf(table, p) > 0 ==> v >= table[BandOf(table, p) - 1].upper.value)
    ensures BandOf(table, v) == BandOf(table, p)
  {
    if BandOf(table, p) > 0 { LowerEdge(table, p); }
    BandIs(table, v, BandOf(table, p));
  }

  /** The upper edge of a band lies in the next one. */
  lemma EdgeBand(table: Table, i: nat)
    requires WellFormed(table) && i < |table| - 1
    ensures BandOf(table, table[i].upper.value) == i + 1
  {
    if i + 1 < |table| - 1 { assert table[i].upper.value < table[i + 1].upper.value; }
    BandIs(table, table[i].upper.value, i + 1);
  }

  lemma LowerEdge(table: Table, p: real)
    requires WellFormed(table) && BandOf(table, p) > 0
    ensures var i := BandOf(table, p); table[i - 1].upper.Some? && 0.0 < table[i - 1].upper.value <= p && OnGrid(table[i - 1].upper.value, table[i].tick)
  {
    assert !Covers(table[BandOf(table, p) - 1], p);
  }

  // ---------------------------------------------------------------- the two sides

  ghost predicate LeastValidFrom(table: Table, p: real, r: real)
    requires WellFormed(table)
  {
    IsValidTick(table, r) && r >= p && forall v :: v >= p && IsValidTick(table, v) ==> v >= r
  }

  ghost predicate GreatestValidTo(table: Table, p: real, r: real)
    requires WellFormed(table)
  {
    IsValidTick(table, r) && 0.0 <= r <= p && forall v :: v <= p && IsValidTick(table, v) ==> v <= r
  }

  /** Snapping up stays in the band or lands on its upper edge, which is valid on both sides. */
  lemma UpIsValid(table: Table, p: real)
    requires WellFormed(table) && p >= 0.0
    ensures IsValidTick(table, Snap(p, TickSize(table, p), RoundUp))
  {
    hide Snap, OnGrid;
    var i, t := BandOf(table, p), TickSize(table, p);
    var c := Snap(p, t, RoundUp);
    SnapUpIsLeast(p, t, p);
    if i < |table| - 1 {
      var e := table[i].upper.value;
      SnapUpIsLeast(p, t, e);
      if c < e { SameBand(table, p, c); } else { EdgeBand(table, i); }
    } else {
      SameBand(table, p, c);
    }
  }

  /** BUY rounds to the least valid price at or above. */
  lemma BuyIsLeastValid(table: Table, p: real)
    requires WellFormed(table) && p >= 0.0
    ensures LeastValidFrom(table, p, RoundToTick(table, p, Some(Buy)))
  {
    hide Snap, OnGrid;
    var i, t := BandOf(table, p), TickSize(table, p);
    var c := Snap(p, t, RoundUp);
    SnapUpIsLeast(p, t, p);
    UpIsValid(table, p);
    SnapKeepsGrid(c, TickSize(table, c), RoundUp);
    forall v | v >= p && IsValidTick(table, v) ensures v >= c {
      if Covers(table[i], v) {
        SameBand(table, p, v);
        SnapUpIsLeast(p, t, v);
      } else {
        SnapUpIsLeast(p, t, table[i].upper.value);
      }
    }
  }

  /** SELL rounds to the greatest valid price at or below, and never leaves the band. */
  lemma SellIsGreatestValid(table: Table, p: real)
    requires WellFormed(table) && p >= 0.0
    ensures GreatestValidTo(table, p, RoundToTick(table, p, Some(Sell)))
    ensures RoundToTick(table, p, Some(Sell)) == Snap(p, TickSize(table, p), RoundDown)
  {
    hide Snap, OnGrid;
    var i, t := BandOf(table, p), TickSize(table, p);
    var c := Snap(p, t, RoundDown);
    SnapDownIsGreatest(p, t, p);
    if i > 0 {
      LowerEdge(table, p);
      SnapDownIsGreatest(p, t, table[i - 1].upper.value);
    }
    SameBand(table, p, c);
    forall v | v <= p && IsValidTick(table, v) ensures v <= c {
      if i > 0 && v < table[i - 1].upper.value {
      } else if v >= 0.0 || i == 0 {
        SameBand(table, p, v);
        SnapDownIsGreatest(p, t, v);
      }
    }
  }

  /** Both roundings are monotone and leave a valid price alone, so rounding twice is rounding once. */
  lemma RoundingIsMonotoneAndIdempotent(table: Table, p: real, q: real, side: Side)
    requires WellFormed(table) && 0.0 <= p <= q
    ensures RoundToTick(table, p, Some(side)) <= RoundToTick(table, q, Some(side))
    ensures IsValidTick(table, p) <==> RoundToTick(table, p, Some(side)) == p
    ensures RoundToTick(table, RoundToTick(table, p, Some(side)), Some(side)) == RoundToTick(table, p, Some(side))
  {
    hide RoundToTick, IsValidTick;
    if side == Buy {
      BuyIsLeastValid(table, p);
      BuyIsLeastValid(table, q);
      BuyIsLeastValid(table, RoundToTick(table, p, Some(Buy)));
    } else {
      SellIsGreatestValid(table, p);
      SellIsGreatestValid(table, q);
      SellIsGreatestValid(table, RoundToTick(table, p, Some(Sell)));
    }
  }

  // ---------------------------------------------------------------- no side

  lemma ScaleNearer(p: real, t: real, x: real, k: real)
    requires t > 0.0 && x * t == p
    ensures x - k <= k + 1.0 - x ==> p - k * t <= (k + 1.0) * t - p
    ensures x - k >= k + 1.0 - x ==> p - k * t >= (k + 1.0) * t - p
  {
    var a, b := x - k, k + 1.0 - x;
    assert p - k * t == t * a && (k + 1.0) * t - p == t * b;
    if a <= b { MulMono(t, a, b); }
    if b <= a { MulMono(t, b, a); }
  }

  /** Half-even picks the nearer neighbour. */
  lemma HalfEvenIsNearer(p: real, t: real)
    requires t > 0.0 && p >= 0.0
    ensures var r, f, c := Snap(p, t, HalfEven), Snap(p, t, RoundDown), Snap(p, t, RoundUp);
            (r == f && p - f <= c - p) || (r == c && c - p <= p - f)
  {
    var x := p / t;
    QuotientTimes(p, t);
    var k := HalfEvenIs(x);
    var f, c := Snap(p, t, RoundDown), Snap(p, t, RoundUp);
    assert f == k as real * t;
    hide Quantize;
    if x != k as real {
      assert c == (k + 1) as real * t;
      ScaleNearer(p, t, x, k as real);
    }
  }

  /** To the floor or the next integer, whichever is nearer. */
  lemma HalfEvenIs(x: real) returns (k: int)
    requires x >= 0.0
    ensures Quantize(x, RoundDown) == k && k as real <= x < (k + 1) as real
    ensures Quantize(x, RoundUp) == if x == k as real then k else k + 1
    ensures var h := Quantize(x, HalfEven); (h == k && x - k as real <= 0.5) || (h == k + 1 && x - k as real >= 0.5)
  {
    k := x.Floor;
  }

  /** Without a side the result is a valid price, and no valid price is nearer. */
  lemma PlainIsNearestValid(table: Table, p: real, v: real)
    requires WellFormed(table) && p >= 0.0
    ensures IsValidTick(table, RoundToTick(table, p, None))
    ensures IsValidTick(table, v) ==> Abs(RoundToTick(table, p, None) - p) <= Abs(v - p)
  {
    hide Snap, OnGrid;
    var i, t := BandOf(table, p), TickSize(table, p);
    var r := Snap(p, t, HalfEven);
    HalfEvenIsNearer(p, t);
    SellIsGreatestValid(table, p);
    BuyIsLeastValid(table, p);
    UpIsValid(table, p);
    SnapUpIsLeast(p, t, p);
    BuyIsSnapUp(table, p);
    assert IsValidTick(table, r);
    SnapKeepsGrid(r, TickSize(table, r), RoundDown);
  }

  lemma BuyIsSnapUp(table: Table, p: real)
    requires WellFormed(table) && p >= 0.0
    ensures RoundToTick(table, p, Some(Buy)) == Snap(p, TickSize(table, p), RoundUp)
  {
    hide Snap, OnGrid;
    var c := Snap(p, TickSize(table, p), RoundUp);
    SnapUpIsLeast(p, TickSize(table, p), p);
    UpIsValid(table, p);
    SnapKeepsGrid(c, TickSize(table, c), RoundUp);
  }

  // ---------------------------------------------------------------- the two tables

  lemma OnGridByIndex(v: real, t: real, k: int)
    requires t > 0.0 && v == k as real * t
    ensures OnGrid(v, t)
  {
    GridOf(k, t);
  }

  /** Both published tables have every band edge on the grid of both neighbours. */
  lemma KrxTablesAreWellFormed()
    ensures WellFormed(KRX_STOCK_TICKS) && WellFormed(KRX_ETF_TICKS)
  {
    StockTicksAreWellFormed();
    EtfTicksAreWellFormed();
  }

  lemma EtfTicksAreWellFormed()
    ensures WellFormed(KRX_ETF_TICKS)
  {
    hide OnGrid;
    OnGridByIndex(2000.0, 1.0, 2000);
    OnGridByIndex(2000.0, 5.0, 400);
  }

  lemma StockTicksAreWellFormed()
    ensures WellFormed(KRX_STOCK_TICKS)
  {
    hide OnGrid;
    OnGridByIndex(2000.0, 1.0, 2000);
    OnGridByIndex(2000.0, 5.0, 400);
    OnGridByIndex(5000.0, 5.0, 1000);
    OnGridByIndex(5000.0, 10.0, 500);
    OnGridByIndex(20000.0, 10.0, 2000);
    OnGridByIndex(20000.0, 50.0, 400);
    OnGridByIndex(50000.0, 50.0, 1000);
    OnGridByIndex(50000.0, 100.0, 500);
    OnGridByIndex(200000.0, 100.0, 2000);
    OnGridByIndex(200000.0, 500.0, 400);
    OnGridByIndex(500000.0, 500.0, 1000);
    OnGridByIndex(500000.0, 1000.0, 500);
  }
}
