/** The local cache against the remote series: when it has gaps, when it is stale, and what every run keeps. */
module CandleTheorems {
  import opened Wrappers
  import opened CandleSync

  // ---------------------------------------------------------------- what a batch writes

  /** Index of the first bar a batch of this length covers. */
  function Start(remote: Remote, batch: seq<Candle>): int {
    |remote| - |batch|
  }

  /** Every written row carries the remote values, and nothing else changes. */
  ghost predicate Landed(remote: Remote, s: Series, from: int, t: Series) {
    && (forall i :: 0 <= from <= i < |remote| ==> remote[i].ts in t && t[remote[i].ts].values == remote[i].values)
    && (forall ts :: ts in t && (forall i :: 0 <= from <= i < |remote| ==> remote[i].ts != ts) ==> ts in s && t[ts] == s[ts])
    && (forall ts :: ts in s ==> ts in t)
  }

  lemma {:induction false} UpsertAllIs(s: Series, batch: seq<Candle>)
    requires forall c, d :: c in batch && d in batch && c.ts == d.ts ==> c == d
    ensures forall c :: c in batch ==> c.ts in UpsertAll(s, batch) && UpsertAll(s, batch)[c.ts].values == c.values
    ensures forall ts :: ts in UpsertAll(s, batch) && (forall c :: c in batch ==> c.ts != ts) ==> ts in s && UpsertAll(s, batch)[ts] == s[ts]
    ensures forall ts :: ts in s ==> ts in UpsertAll(s, batch)
  {
    if |batch| > 0 {
      var n := |batch| - 1;
      UpsertAllIs(s, batch[..n]);
      assert forall c :: c in batch <==> c in batch[..n] || c == batch[n];
    }
  }

  /** The last currency that the candles of a timestamp name, or what was known before them. */
  function LatestCurrency(known: Option<string>, batch: seq<Candle>, ts: int): Option<string> {
    if |batch| == 0 then known
    else
      var c := batch[|batch| - 1];
      if c.ts == ts && c.currency.Some? then c.currency else LatestCurrency(known, batch[..|batch| - 1], ts)
  }

  /** A row's currency is the last one named for it: a candle that names none never erases what is known. */
  lemma {:induction false} CurrencyIsKept(s: Series, batch: seq<Candle>, ts: int)
    requires ts in UpsertAll(s, batch)
    ensures UpsertAll(s, batch)[ts].currency == LatestCurrency(if ts in s then s[ts].currency else None, batch, ts)
  {
    if |batch| > 0 {
      var n := |batch| - 1;
      if ts in UpsertAll(s, batch[..n]) { CurrencyIsKept(s, batch[..n], ts); } else { NothingNamed(s, batch[..n], ts); }
    }
  }

  lemma {:induction false} NothingNamed(s: Series, batch: seq<Candle>, ts: int)
    requires ts !in UpsertAll(s, batch)
    ensures ts !in s && LatestCurrency(None, batch, ts) == None
  {
    if |batch| > 0 { NothingNamed(s, batch[..|batch| - 1], ts); }
  }

  lemma BatchLands(remote: Remote, s: Series, batch: seq<Candle>)
    requires Ascending(remote) && NewestBars(remote, batch)
    ensures Landed(remote, s, Start(remote, batch), UpsertAll(s, batch))
  {
    hide UpsertAll, NewestBars;
    var from, t := Start(remote, batch), UpsertAll(s, batch);
    BatchIs(remote, batch);
    UpsertAllIs(s, batch);
    forall ts | ts in t && (forall i :: 0 <= from <= i < |remote| ==> remote[i].ts != ts) ensures ts in s && t[ts] == s[ts] {
      forall c | c in batch ensures c.ts != ts { var i := InBatch(remote, batch, c); }
    }
  }

  lemma BatchIs(remote: Remote, batch: seq<Candle>)
    requires Ascending(remote) && NewestBars(remote, batch)
    ensures 0 <= Start(remote, batch) <= |remote|
    ensures forall i :: Start(remote, batch) <= i < |remote| ==> remote[i] in batch
    ensures forall c, d :: c in batch && d in batch && c.ts == d.ts ==> c == d
  {
    var from := Start(remote, batch);
    forall i | from <= i < |remote| ensures remote[i] in batch {
      assert remote[from..][i - from] == remote[i];
    }
    forall c, d | c in batch && d in batch && c.ts == d.ts ensures c == d {
      var i := InBatch(remote, batch, c);
      var j := InBatch(remote, batch, d);
    }
  }

  lemma InBatch(remote: Remote, batch: seq<Candle>, c: Candle) returns (i: nat)
    requires NewestBars(remote, batch) && c in batch
    ensures Start(remote, batch) <= i < |remote| && remote[i] == c
  {
    var from := Start(remote, batch);
    var j :| 0 <= j < |remote[from..]| && remote[from..][j] == c;
    i := from + j;
  }

  // ---------------------------------------------------------------- gaps

  /** Only remote bars are held, and every remote bar between two held ones is held. */
  ghost predicate NoGap(remote: Remote, s: Series) {
    Known(remote, s) && Contiguous(remote, s)
  }

  ghost predicate Known(remote: Remote, s: Series) {
    forall ts :: ts in s ==> exists i :: 0 <= i < |remote| && remote[i].ts == ts
  }

  ghost predicate Contiguous(remote: Remote, s: Series) {
    forall i, j, k :: 0 <= i <= j <= k < |remote| && remote[i].ts in s && remote[k].ts in s ==> remote[j].ts in s
  }

  /** How many remote bars are newer than a timestamp. */
  function NewerThan(remote: Remote, ts: int): (n: nat)
    ensures n <= |remote|
  {
    if |remote| == 0 || remote[|remote| - 1].ts <= ts then 0
    else 1 + NewerThan(remote[..|remote| - 1], ts)
  }

  lemma {:induction false} NewerThanIs(remote: Remote, ts: int)
    requires Ascending(remote)
    ensures forall i :: 0 <= i < |remote| ==> (remote[i].ts > ts <==> i >= |remote| - NewerThan(remote, ts))
  {
    if |remote| > 0 && remote[|remote| - 1].ts > ts {
      NewerThanIs(remote[..|remote| - 1], ts);
    }
  }

  /** The position of the newest held bar. */
  lemma HeldNewest(remote: Remote, s: Series, hi: int) returns (h: nat)
    requires Ascending(remote) && NoGap(remote, s) && IsMax(hi, s.Keys)
    ensures h < |remote| && remote[h].ts == hi && h == |remote| - NewerThan(remote, hi) - 1
    ensures forall i :: h < i < |remote| ==> remote[i].ts !in s
  {
    h :| 0 <= h < |remote| && remote[h].ts == hi;
    NewerThanIs(remote, hi);
    if h + 1 < |remote| { assert remote[h].ts < remote[h + 1].ts; }
    forall i | h < i < |remote| ensures remote[i].ts !in s {
      assert remote[h].ts < remote[i].ts;
    }
  }

  /** The fetched stretch reaches back to the newest held bar, unless the cap cuts it short. */
  lemma BatchReaches(remote: Remote, s: Series, hi: int, maxBars: nat, full: bool, batch: seq<Candle>)
    requires Ascending(remote) && NoGap(remote, s) && IsMax(hi, s.Keys) && Collected(remote, s, maxBars, full, batch)
    ensures |batch| >= NewerThan(remote, hi) || |batch| == maxBars
    ensures |batch| > NewerThan(remote, hi) || |batch| == maxBars
  {
    var h := HeldNewest(remote, s, hi);
    MaxIsNewest(s, hi);
    NewerThanIs(remote, hi);
  }

  /** A stretch that joins what is held, or is empty, leaves no gap. */
  lemma JoinedHasNoGap(remote: Remote, s: Series, hi: int, h: nat, from: int, t: Series)
    requires Ascending(remote) && NoGap(remote, s) && IsMax(hi, s.Keys) && Landed(remote, s, from, t)
    requires h < |remote| && remote[h].ts == hi && 0 <= from && (from <= h + 1 || from == |remote|)
    ensures NoGap(remote, t)
  {
    forall i | 0 <= i < |remote| ensures remote[i].ts in t <==> remote[i].ts in s || i >= from { HeldOrFetched(remote, s, from, t, i); }
    forall i, j, k | 0 <= i <= j <= k < |remote| && remote[i].ts in t && remote[k].ts in t ensures remote[j].ts in t {
      if j < from {
        assert remote[i].ts in s && remote[h].ts in s;
        if from == |remote| { assert remote[k].ts in s; }
      }
    }
  }

  /** A stretch that starts beyond the first missing bar leaves that bar out. */
  lemma DisjointHasGap(remote: Remote, s: Series, hi: int, h: nat, from: int, t: Series)
    requires Ascending(remote) && IsMax(hi, s.Keys) && Landed(remote, s, from, t)
    requires h + 1 < from < |remote| && remote[h].ts == hi && remote[h + 1].ts !in s
    ensures !NoGap(remote, t)
  {
    HeldOrFetched(remote, s, from, t, h + 1);
    assert remote[h].ts in t && remote[|remote| - 1].ts in t;
  }

  /**
   Exactly when a successful sync leaves the cache without gaps: when the bars newer than the newest one
   held fit under the cap (or the cap is zero and nothing is fetched).
   */
  lemma NoGapIff(remote: Remote, s: Series, hi: int, maxBars: nat, full: bool, batch: seq<Candle>)
    requires Ascending(remote) && NoGap(remote, s) && IsMax(hi, s.Keys) && Collected(remote, s, maxBars, full, batch)
    ensures NoGap(remote, UpsertAll(s, batch)) <==> NewerThan(remote, hi) <= maxBars || maxBars == 0
  {
    hide NewestBars, FarEnough, UpsertAll, NoGap, Landed;
    var h := HeldNewest(remote, s, hi);
    BatchReaches(remote, s, hi, maxBars, full, batch);
    BatchLands(remote, s, batch);
    BatchFits(remote, batch);
    if NewerThan(remote, hi) <= maxBars || maxBars == 0 {
      JoinedHasNoGap(remote, s, hi, h, Start(remote, batch), UpsertAll(s, batch));
    } else {
      DisjointHasGap(remote, s, hi, h, Start(remote, batch), UpsertAll(s, batch));
    }
  }

  lemma BatchFits(remote: Remote, batch: seq<Candle>)
    requires NewestBars(remote, batch)
    ensures |batch| <= |remote|
  {
  }

  /** A bar held afterwards was held before or lies in the fetched stretch. */
  lemma HeldOrFetched(remote: Remote, s: Series, from: int, t: Series, i: int)
    requires Ascending(remote) && Landed(remote, s, from, t) && 0 <= i < |remote| && 0 <= from
    ensures remote[i].ts in t <==> remote[i].ts in s || i >= from
  {
    if remote[i].ts in t && i < from {
      forall j | 0 <= from <= j < |remote| ensures remote[j].ts != remote[i].ts { assert remote[i].ts < remote[j].ts; }
    }
  }

  // ---------------------------------------------------------------- stale values

  /** Every held bar has the remote values. */
  ghost predicate ValuesAgree(remote: Remote, s: Series) {
    forall i :: 0 <= i < |remote| && remote[i].ts in s ==> s[remote[i].ts].values == remote[i].values
  }

  /** ... except possibly the newest held one, which may have been stored while it was still forming. */
  ghost predicate AgreeButNewest(remote: Remote, s: Series) {
    forall i :: 0 <= i < |remote| && remote[i].ts in s && !IsMax(remote[i].ts, s.Keys) ==>
      s[remote[i].ts].values == remote[i].values
  }

  lemma TimestampsDiffer(remote: Remote, i: int, j: int)
    requires Ascending(remote) && 0 <= i < |remote| && 0 <= j < |remote| && i != j
    ensures remote[i].ts != remote[j].ts
  {
  }

  /** A sync that reaches past the newest held bar rewrites it; one that is cut off at or before it does not. */
  lemma StaleBarIsRepairedIff(remote: Remote, s: Series, hi: int, maxBars: nat, full: bool, batch: seq<Candle>)
    requires Ascending(remote) && NoGap(remote, s) && IsMax(hi, s.Keys) && Collected(remote, s, maxBars, full, batch)
    requires AgreeButNewest(remote, s)
    ensures NewerThan(remote, hi) < maxBars ==> ValuesAgree(remote, UpsertAll(s, batch))
    ensures !ValuesAgree(remote, s) ==> (ValuesAgree(remote, UpsertAll(s, batch)) <==> NewerThan(remote, hi) < maxBars)
  {
    hide NewestBars, FarEnough, UpsertAll;
    var h := HeldNewest(remote, s, hi);
    var from, t := Start(remote, batch), UpsertAll(s, batch);
    BatchReaches(remote, s, hi, maxBars, full, batch);
    BatchLands(remote, s, batch);
    BatchFits(remote, batch);
    forall i | 0 <= i < |remote| && remote[i].ts in s && i != h ensures s[remote[i].ts].values == remote[i].values {
      TimestampsDiffer(remote, i, h);
    }
    forall i | 0 <= i < |remote| && remote[i].ts in t && i < from ensures remote[i].ts in s && t[remote[i].ts] == s[remote[i].ts] {
      forall j | 0 <= from <= j < |remote| ensures remote[j].ts != remote[i].ts { assert remote[i].ts < remote[j].ts; }
    }
    if NewerThan(remote, hi) < maxBars {
      assert from <= h;
    } else if !ValuesAgree(remote, s) {
      assert from > h;
      assert s[remote[h].ts].values != remote[h].values;
      assert remote[h].ts in t;
    }
  }

  // ---------------------------------------------------------------- every run

  /** The remote series grows at its end; only its newest bar may still change. */
  ghost predicate Grows(old_: Remote, now: Remote) {
    && Ascending(now) && |old_| <= |now|
    && (forall i :: 0 <= i < |old_| ==> now[i].ts == old_[i].ts)
    && (forall i :: 0 <= i < |old_| - 1 ==> now[i].values == old_[i].values)
  }

  datatype State = State(remote: Remote, held: Series)

  /** A successful sync under a cap. */
  ghost predicate Synced(a: State, b: State, maxBars: nat, full: bool, batch: seq<Candle>) {
    b.remote == a.remote && Collected(a.remote, a.held, maxBars, full, batch) && b.held == UpsertAll(a.held, batch)
  }

  /** What a sync must allow for to leave no gap: the bars newer than the newest held one, or nothing at all. */
  ghost predicate Roomy(a: State, maxBars: nat) {
    Newest(a.held).None? || NewerThan(a.remote, Newest(a.held).value) <= maxBars || maxBars == 0
  }

  /** ... and to rewrite the newest held bar too: one bar more. */
  ghost predicate Ample(a: State, maxBars: nat) {
    Newest(a.held).None? || NewerThan(a.remote, Newest(a.held).value) < maxBars
  }

  /** The series grows, or a sync fails and writes nothing. */
  ghost predicate Waits(a: State, b: State) {
    (Grows(a.remote, b.remote) && b.held == a.held) || b == a
  }

  ghost predicate RoomySync(a: State, b: State) {
    exists maxBars: nat, full: bool, batch :: Synced(a, b, maxBars, full, batch) && Roomy(a, maxBars)
  }

  ghost predicate AmpleSync(a: State, b: State) {
    exists maxBars: nat, full: bool, batch :: Synced(a, b, maxBars, full, batch) && Ample(a, maxBars)
  }

  /** A store that starts empty, under growth, failed syncs and successful ones that allow for what is new. */
  ghost predicate RoomyRun(run: seq<State>) {
    && |run| > 0 && Ascending(run[0].remote) && run[0].held == map[]
    && (forall i :: 0 <= i < |run| - 1 ==> Waits(run[i], run[i + 1]) || RoomySync(run[i], run[i + 1]))
  }

  ghost predicate AmpleRun(run: seq<State>) {
    && |run| > 0 && Ascending(run[0].remote) && run[0].held == map[]
    && (forall i :: 0 <= i < |run| - 1 ==> Waits(run[i], run[i + 1]) || AmpleSync(run[i], run[i + 1]))
  }

  /** No gaps; every held bar agrees with the remote one, but for the newest if the remote end moved on since. */
  ghost predicate CacheInv(st: State) {
    Ascending(st.remote) && NoGap(st.remote, st.held) && AgreeButNewest(st.remote, st.held)
  }

  lemma HeldIsOld(a: State, b: State, i: int)
    requires NoGap(a.remote, a.held) && Grows(a.remote, b.remote) && 0 <= i < |b.remote| && b.remote[i].ts in a.held
    ensures i < |a.remote|
  {
    var j :| 0 <= j < |a.remote| && a.remote[j].ts == b.remote[i].ts;
    assert b.remote[j].ts == b.remote[i].ts;
  }

  lemma GrowthKeepsNoGap(a: State, b: State)
    requires NoGap(a.remote, a.held) && Grows(a.remote, b.remote) && b.held == a.held
    ensures NoGap(b.remote, b.held)
  {
    GrowthKeepsKnown(a, b);
    hide Known, Contiguous, Grows;
    assert Contiguous(b.remote, b.held) by {
      forall i, j, k | 0 <= i <= j <= k < |b.remote| && b.remote[i].ts in b.held && b.remote[k].ts in b.held
        ensures b.remote[j].ts in b.held
      {
        StillBetween(a, b, i, j, k);
      }
      Between(b.remote, b.held);
    }
  }

  lemma Between(remote: Remote, s: Series)
    requires forall i, j, k :: 0 <= i <= j <= k < |remote| && remote[i].ts in s && remote[k].ts in s ==> remote[j].ts in s
    ensures Contiguous(remote, s)
  {
  }

  lemma GrowthKeepsKnown(a: State, b: State)
    requires Known(a.remote, a.held) && Grows(a.remote, b.remote) && b.held == a.held
    ensures Known(b.remote, b.held)
  {
    forall ts | ts in b.held ensures exists i :: 0 <= i < |b.remote| && b.remote[i].ts == ts {
      var i :| 0 <= i < |a.remote| && a.remote[i].ts == ts;
      assert b.remote[i].ts == ts;
    }
  }

  lemma StillBetween(a: State, b: State, i: nat, j: nat, k: nat)
    requires NoGap(a.remote, a.held) && Grows(a.remote, b.remote) && b.held == a.held
    requires i <= j <= k < |b.remote| && b.remote[i].ts in b.held && b.remote[k].ts in b.held
    ensures b.remote[j].ts in b.held
  {
    hide Known;
    HeldIsOld(a, b, k);
    SameStamp(a.remote, b.remote, i);
    SameStamp(a.remote, b.remote, j);
    SameStamp(a.remote, b.remote, k);
    hide Grows;
  }

  lemma SameStamp(old_: Remote, now: Remote, i: nat)
    requires Grows(old_, now) && i < |old_|
    ensures now[i].ts == old_[i].ts
  {
  }

  /** The only held bar that can still change is the newest remote bar of its time, so the newest held one. */
  lemma GrowthKeepsCache(a: State, b: State)
    requires CacheInv(a) && Grows(a.remote, b.remote) && b.held == a.held
    ensures CacheInv(b)
  {
    hide NoGap, IsMax;
    GrowthKeepsNoGap(a, b);
    forall i | 0 <= i < |b.remote| && b.remote[i].ts in b.held && !IsMax(b.remote[i].ts, b.held.Keys)
      ensures b.held[b.remote[i].ts].values == b.remote[i].values
    {
      HeldIsOld(a, b, i);
      LastIsMax(a);
      assert a.remote[i].ts == b.remote[i].ts;
    }
  }

  lemma LastIsMax(a: State)
    requires Ascending(a.remote) && NoGap(a.remote, a.held) && |a.remote| > 0
    ensures a.remote[|a.remote| - 1].ts in a.held ==> IsMax(a.remote[|a.remote| - 1].ts, a.held.Keys)
  {
    forall ts | ts in a.held ensures ts <= a.remote[|a.remote| - 1].ts {
      var j :| 0 <= j < |a.remote| && a.remote[j].ts == ts;
    }
  }

  lemma SyncKeepsNoGap(a: State, b: State, maxBars: nat, full: bool, batch: seq<Candle>)
    requires Ascending(a.remote) && NoGap(a.remote, a.held) && Synced(a, b, maxBars, full, batch) && Roomy(a, maxBars)
    ensures Ascending(b.remote) && NoGap(b.remote, b.held)
  {
    hide UpsertAll, FarEnough, NoGap, Ascending;
    if hi :| IsMax(hi, a.held.Keys) {
      MaxIsNewest(a.held, hi);
      NoGapIff(a.remote, a.held, hi, maxBars, full, batch);
    } else {
      EmptySeries(a.held);
      FirstSync(a.remote, batch);
    }
  }

  lemma SyncKeepsCache(a: State, b: State, maxBars: nat, full: bool, batch: seq<Candle>)
    requires CacheInv(a) && Synced(a, b, maxBars, full, batch) && Ample(a, maxBars)
    ensures CacheInv(b) && ValuesAgree(b.remote, b.held)
  {
    hide UpsertAll, FarEnough, NoGap, Ascending;
    SyncKeepsNoGap(a, b, maxBars, full, batch);
    if hi :| IsMax(hi, a.held.Keys) {
      MaxIsNewest(a.held, hi);
      StaleBarIsRepairedIff(a.remote, a.held, hi, maxBars, full, batch);
    } else {
      EmptySeries(a.held);
      FirstSync(a.remote, batch);
    }
  }

  lemma {:induction false} EmptySeries(s: Series)
    requires forall hi :: !IsMax(hi, s.Keys)
    ensures s == map[]
  {
    if s != map[] { var hi := GreatestKey(s.Keys); }
  }

  lemma OneOf<T>(s: set<T>) returns (t: T)
    requires s != {}
    ensures t in s
  {
    t :| t in s;
  }

  lemma {:induction false} GreatestKey(keys: set<int>) returns (hi: int)
    requires keys != {}
    ensures IsMax(hi, keys)
    decreases keys
  {
    hi := OneOf(keys);
    var rest := keys - {hi};
    if rest != {} {
      var top := GreatestKey(rest);
      assert keys == rest + {hi};
      hi := if top > hi then top else hi;
    }
  }

  lemma FirstSync(remote: Remote, batch: seq<Candle>)
    requires Ascending(remote) && NewestBars(remote, batch)
    ensures NoGap(remote, UpsertAll(map[], batch)) && ValuesAgree(remote, UpsertAll(map[], batch))
  {
    hide UpsertAll;
    BatchLands(remote, map[], batch);
    BatchFits(remote, batch);
    var from, t := Start(remote, batch), UpsertAll(map[], batch);
    forall i | 0 <= i < |remote| ensures remote[i].ts in t <==> i >= from { HeldOrFetched(remote, map[], from, t, i); }
  }

  /**
   Over every run of a store that starts empty, the cache is a gapless stretch of the remote series, as long as
   each successful sync allows for the bars newer than the newest held one.
   */
  lemma {:induction false} EveryRunIsGapless(run: seq<State>, n: nat)
    requires RoomyRun(run) && n < |run|
    ensures Ascending(run[n].remote) && NoGap(run[n].remote, run[n].held)
  {
    hide Synced, NoGap, Roomy, Grows, Ascending;
    if n == 0 {
      EmptyCacheIsFine(run[0].remote);
    } else {
      EveryRunIsGapless(run, n - 1);
      var a, b := run[n - 1], run[n];
      if Waits(a, b) {
        if b != a { GrowthKeepsNoGap(a, b); GrowthAscends(a, b); }
      } else {
        var maxBars: nat, full: bool, batch :| Synced(a, b, maxBars, full, batch) && Roomy(a, maxBars);
        SyncKeepsNoGap(a, b, maxBars, full, batch);
      }
    }
  }

  lemma GrowthAscends(a: State, b: State)
    requires Grows(a.remote, b.remote)
    ensures Ascending(b.remote)
  {
  }

  /**
   If each successful sync allows for one bar more than that, every held value is the remote one right after it,
   and only the newest held bar can fall behind until the next.
   */
  lemma {:induction false} EveryRunIsCurrent(run: seq<State>, n: nat)
    requires AmpleRun(run) && n < |run|
    ensures CacheInv(run[n])
    ensures n > 0 && AmpleSync(run[n - 1], run[n]) ==> ValuesAgree(run[n].remote, run[n].held)
  {
    hide CacheInv, Synced, ValuesAgree, Ample, Grows, Ascending;
    if n == 0 {
      EmptyCacheIsFine(run[0].remote);
    } else {
      EveryRunIsCurrent(run, n - 1);
      var a, b := run[n - 1], run[n];
      if maxBars: nat, full: bool, batch :| Synced(a, b, maxBars, full, batch) && Ample(a, maxBars) {
        SyncKeepsCache(a, b, maxBars, full, batch);
      } else if b != a {
        GrowthKeepsCache(a, b);
      }
    }
  }

  /** The cache a new store starts with. */
  lemma EmptyCacheIsFine(remote: Remote)
    requires Ascending(remote)
    ensures NoGap(remote, map[]) && CacheInv(State(remote, map[]))
  {
  }
}
