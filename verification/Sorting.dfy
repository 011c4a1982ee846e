/** Python's stable sort by a real-valued key, on lists without repetitions. */
module Sorting {
  ghost predicate Distinct<T>(ss: seq<T>) {
    forall i, j :: 0 <= i < j < |ss| ==> ss[i] != ss[j]
  }

  ghost predicate Ascending<T>(rank: T -> real, ss: seq<T>) {
    forall i, j :: 0 <= i < j < |ss| ==> rank(ss[i]) <= rank(ss[j])
  }

  /** Insertion after every element that does not rank higher: equal ranks keep their order. */
  function InsertBy<T(!new)>(rank: T -> real, ss: seq<T>, s: T): (r: seq<T>)
    ensures |r| == |ss| + 1
    ensures forall x :: x in r <==> x == s || x in ss
    ensures Distinct(ss) && s !in ss ==> Distinct(r)
    ensures Ascending(rank, ss) ==> Ascending(rank, r)
  {
    var n := |ss| - 1;
    if n < 0 || rank(ss[n]) <= rank(s) then ss + [s]
    else
      var r := InsertBy(rank, ss[..n], s);
      InsertedBefore(rank, ss, s, r);
      r + [ss[n]]
  }

  /** The last element stays last when something that ranks below it goes in before it. */
  lemma InsertedBefore<T(!new)>(rank: T -> real, ss: seq<T>, s: T, r: seq<T>)
    requires |ss| > 0 && rank(s) < rank(ss[|ss| - 1])
    requires var init := ss[..|ss| - 1];
             && |r| == |init| + 1
             && (forall x :: x in r <==> x == s || x in init)
             && (Distinct(init) && s !in init ==> Distinct(r))
             && (Ascending(rank, init) ==> Ascending(rank, r))
    ensures forall x :: x in r + [ss[|ss| - 1]] <==> x == s || x in ss
    ensures Distinct(ss) && s !in ss ==> Distinct(r + [ss[|ss| - 1]])
    ensures Ascending(rank, ss) ==> Ascending(rank, r + [ss[|ss| - 1]])
  {
    var n := |ss| - 1;
    assert ss == ss[..n] + [ss[n]];
    if Distinct(ss) && s !in ss { assert ss[n] !in ss[..n] && ss[n] !in r; }
    if Ascending(rank, ss) {
      forall x | x in r ensures rank(x) <= rank(ss[n]) {
        if x != s { assert x in ss[..n]; }
      }
    }
  }

  function SortBy<T(!new)>(rank: T -> real, ss: seq<T>): (r: seq<T>)
    ensures |r| == |ss|
    ensures forall x :: x in r <==> x in ss
    ensures Distinct(ss) ==> Distinct(r)
    ensures Ascending(rank, r)
  {
    if |ss| == 0 then []
    else
      var n := |ss| - 1;
      assert ss == ss[..n] + [ss[n]];
      InsertBy(rank, SortBy(rank, ss[..n]), ss[n])
  }

  // ---------------------------------------------------------------- names

  /** Python's order on strings. */
  predicate Before(a: string, b: string) {
    |b| > 0 && (|a| == 0 || a[0] < b[0] || (a[0] == b[0] && Before(a[1..], b[1..])))
  }

  lemma {:induction false} BeforeIsTotal(a: string, b: string)
    ensures a == b <==> !Before(a, b) && !Before(b, a)
    ensures !(Before(a, b) && Before(b, a))
  {
    if |a| > 0 && |b| > 0 {
      BeforeIsTotal(a[1..], b[1..]);
      assert a == [a[0]] + a[1..] && b == [b[0]] + b[1..];
    }
  }

  lemma {:induction false} BeforeIsTransitive(a: string, b: string, c: string)
    requires Before(a, b) && Before(b, c)
    ensures Before(a, c)
  {
    if |a| > 0 && a[0] == b[0] && b[0] == c[0] { BeforeIsTransitive(a[1..], b[1..], c[1..]); }
  }

  ghost predicate InNameOrder(names: seq<string>) {
    forall i, j :: 0 <= i < j < |names| ==> Before(names[i], names[j])
  }

  function InsertName(names: seq<string>, s: string): seq<string> {
    var n := |names| - 1;
    if n < 0 then [s]
    else if names[n] == s then names
    else if Before(s, names[n]) then InsertName(names[..n], s) + [names[n]]
    else names + [s]
  }

  /** sorted(set(names)) */
  function SortedNames(names: seq<string>): seq<string> {
    if |names| == 0 then [] else InsertName(SortedNames(names[..|names| - 1]), names[|names| - 1])
  }

  lemma {:induction false} InsertNameIs(names: seq<string>, s: string)
    requires InNameOrder(names)
    ensures InNameOrder(InsertName(names, s))
    ensures forall x :: x in InsertName(names, s) <==> x == s || x in names
  {
    hide Before;
    var n := |names| - 1;
    if n >= 0 {
      assert names == names[..n] + [names[n]];
      BeforeIsTotal(s, names[n]);
      if Before(s, names[n]) {
        InsertNameIs(names[..n], s);
        forall x | x in InsertName(names[..n], s) ensures Before(x, names[n]) {}
      } else if names[n] != s {
        forall i | 0 <= i < n ensures Before(names[i], s) { BeforeIsTransitive(names[i], names[n], s); }
      }
    }
  }

  lemma {:induction false} SortedNamesAre(names: seq<string>)
    ensures InNameOrder(SortedNames(names)) && Distinct(SortedNames(names))
    ensures forall x :: x in SortedNames(names) <==> x in names
  {
    hide Before, InsertName;
    if |names| > 0 {
      var n := |names| - 1;
      assert names == names[..n] + [names[n]];
      SortedNamesAre(names[..n]);
      InsertNameIs(SortedNames(names[..n]), names[n]);
    }
    InOrderIsDistinct(SortedNames(names));
  }

  lemma InOrderIsDistinct(names: seq<string>)
    requires InNameOrder(names)
    ensures Distinct(names)
  {
    hide Before;
    forall i, j | 0 <= i < j < |names| ensures names[i] != names[j] { BeforeIsTotal(names[i], names[j]); }
  }
}
