/**
 Candle history as a local cache of a growing remote series: the paging loop of src/tqt/toss/client.py, the
 upsert of src/tqt/data/store.py and the incremental sync of src/tqt/data/ingest.py.
 Timestamps are integers in the order the ISO strings sort; a paging cursor is a position in the series.
 */
module CandleSync {
  import opened Wrappers

  const MAX_CANDLES_PER_CALL := 200

  datatype Values = Values(open: real, high: real, low: real, close: real, volume: real)

  datatype Candle = Candle(ts: int, values: Values, currency: Option<string>)

  datatype Page = Page(candles: seq<Candle>, nextBefore: Option<nat>)

  /** The remote end: a page for a cursor and a count, or the error message of a failed fetch. */
  type Server = (Option<nat>, nat) -> Result<Page, string>

  type Remote = seq<Candle>

  ghost predicate Ascending(remote: Remote) {
    forall i, j :: 0 <= i < j < |remote| ==> remote[i].ts < remote[j].ts
  }

  /** A page holds the newest bars before the cursor, at most `count` and at least one if there are any. */
  ghost predicate HonestPage(remote: Remote, before: Option<nat>, count: nat, page: Page) {
    var end := if before.Some? then before.value else |remote|;
    var n := |page.candles|;
    && n <= count && n <= end <= |remote| && (end > 0 ==> n > 0)
    && (forall c :: c in page.candles <==> c in remote[end - n..end])
    && (if end - n > 0 then page.nextBefore == Some(end - n) else page.nextBefore in {None, Some(0)})
  }

  /** Whatever the server answers without failing is an honest page of the remote series. */
  ghost predicate Honest(remote: Remote, server: Server) {
    forall before: Option<nat>, count: nat ::
      count > 0 && server(before, count).Ok? && (before.Some? ==> before.value <= |remote|) ==>
        HonestPage(remote, before, count, server(before, count).value)
  }

  function Earliest(cs: seq<Candle>): (ts: int)
    requires |cs| > 0
    ensures exists c :: c in cs && c.ts == ts
    ensures forall c :: c in cs ==> ts <= c.ts
  {
    if |cs| == 1 then cs[0].ts
    else
      var rest := Earliest(cs[1..]);
      assert forall c :: c in cs <==> c == cs[0] || c in cs[1..];
      if cs[0].ts < rest then cs[0].ts else rest
  }

  /** The batch is the newest bars of the remote series, as many as it has entries. */
  ghost predicate NewestBars(remote: Remote, batch: seq<Candle>) {
    && |batch| <= |remote|
    && forall c :: c in batch <==> c in remote[|remote| - |batch|..]
  }

  /** Paging went far enough: to the start of the series, to the cap, or past the stop. */
  ghost predicate FarEnough(remote: Remote, batch: seq<Candle>, maxBars: nat, stopAt: Option<int>) {
    || |batch| == |remote|
    || |batch| == maxBars
    || (stopAt.Some? && 0 < |batch| <= |remote| && remote[|remote| - |batch|].ts <= stopAt.value)
  }

  /** Where paging of an honest series stands: what is collected, the cursor, and the cursors already used. */
  ghost predicate Paged(remote: Remote, batch: seq<Candle>, before: Option<nat>, seen: set<nat>) {
    && NewestBars(remote, batch)
    && (before.None? ==> batch == [] && seen == {})
    && (before.Some? ==> before.value == |remote| - |batch| && forall c :: c in seen ==> c >= before.value)
  }

  /** iter_candles, collected: it ends for every server, and for an honest one it returns a newest stretch. */
  method IterCandles(server: Server, maxBars: nat, stopAt: Option<int>, ghost remote: Remote) returns (r: Result<seq<Candle>, string>)
    ensures Ascending(remote) && Honest(remote, server) && r.Ok? ==>
              NewestBars(remote, r.value) && |r.value| <= maxBars && FarEnough(remote, r.value, maxBars, stopAt)
  {
    hide Earliest, NewestBars, HonestPage, Ascending, Honest;
    var batch: seq<Candle> := [];
    var fetched := 0;
    var before: Option<nat> := None;
    var seen: set<nat> := {};
    ghost var honest := Ascending(remote) && Honest(remote, server);
    NothingPaged(remote);
    while fetched < maxBars
      invariant fetched == |batch|
      invariant honest ==> fetched <= maxBars && Paged(remote, batch, before, seen)
      decreases maxBars - fetched
    {
      var count := if MAX_CANDLES_PER_CALL < maxBars - fetched then MAX_CANDLES_PER_CALL else maxBars - fetched;
      var answer := server(before, count);
      if answer.Err? {
        return Err(answer.error);
      }
      var page := answer.value;
      if honest { PageKeeps(remote, server, batch, before, seen, count); }
      if page.candles == [] {
        return Ok(batch);
      }
      batch := batch + page.candles;
      fetched := fetched + |page.candles|;
      if stopAt.Some? && Earliest(page.candles) <= stopAt.value {
        return Ok(batch);
      }
      if page.nextBefore.None? || page.nextBefore.value in seen {
        return Ok(batch);
      }
      seen := seen + {page.nextBefore.value};
      before := page.nextBefore;
    }
    return Ok(batch);
  }

  lemma NothingPaged(remote: Remote)
    ensures Paged(remote, [], None, {})
  {
    assert remote[|remote|..] == [];
  }

  /** One honest page: it extends the stretch, its cursor is new, and an empty one means the start is reached. */
  lemma PageKeeps(remote: Remote, server: Server, batch: seq<Candle>, before: Option<nat>, seen: set<nat>, count: nat)
    requires Ascending(remote) && Honest(remote, server) && Paged(remote, batch, before, seen)
    requires count > 0 && server(before, count).Ok?
    ensures var page := server(before, count).value; var now := batch + page.candles;
            && NewestBars(remote, now) && |page.candles| <= count
            && (page.candles == [] ==> |batch| == |remote|)
            && (page.candles != [] ==> |now| > 0 && Earliest(page.candles) == remote[|remote| - |now|].ts)
            && (page.nextBefore.None? ==> |now| == |remote|)
            && (page.candles != [] && page.nextBefore.Some? ==>
                  && page.nextBefore.value !in seen
                  && Paged(remote, now, page.nextBefore, seen + {page.nextBefore.value}))
  {
    hide Earliest, Ascending, Honest, NewestBars;
    var page := server(before, count).value;
    PageIsHonest(remote, server, batch, before, seen, count);
    PageExtends(remote, batch, seen, page, count);
  }

  lemma PageExtends(remote: Remote, batch: seq<Candle>, seen: set<nat>, page: Page, count: nat)
    requires Ascending(remote) && NewestBars(remote, batch) && |batch| <= |remote|
    requires HonestPage(remote, Some(|remote| - |batch|), count, page)
    requires forall c :: c in seen ==> c >= |remote| - |batch|
    ensures var now := batch + page.candles;
            && NewestBars(remote, now) && |page.candles| <= count
            && (page.candles == [] ==> |batch| == |remote|)
            && (page.candles != [] ==> |now| > 0 && Earliest(page.candles) == remote[|remote| - |now|].ts)
            && (page.nextBefore.None? ==> |now| == |remote|)
            && (page.candles != [] && page.nextBefore.Some? ==>
                  && page.nextBefore.value !in seen
                  && Paged(remote, now, page.nextBefore, seen + {page.nextBefore.value}))
  {
    hide Earliest, Ascending, NewestBars;
    if page.candles != [] {
      OneMorePage(remote, batch, page.candles, |remote| - |batch|);
      NewestIsShort(remote, batch + page.candles);
    } else {
      assert batch + page.candles == batch;
      NewestIsShort(remote, batch);
    }
  }

  lemma NewestIsShort(remote: Remote, batch: seq<Candle>)
    requires NewestBars(remote, batch)
    ensures |batch| <= |remote|
  {
  }

  /** The page asked for is the honest page that ends where the stretch begins. */
  lemma PageIsHonest(remote: Remote, server: Server, batch: seq<Candle>, before: Option<nat>, seen: set<nat>, count: nat)
    requires Honest(remote, server) && Paged(remote, batch, before, seen)
    requires count > 0 && server(before, count).Ok?
    ensures |batch| <= |remote| && HonestPage(remote, Some(|remote| - |batch|), count, server(before, count).value)
    ensures NewestBars(remote, batch) && forall c :: c in seen ==> c >= |remote| - |batch|
  {
    if before.None? { assert HonestPage(remote, None, count, server(before, count).value); }
  }

  /** The page just before a newest stretch extends it, and starts at its own earliest bar. */
  lemma OneMorePage(remote: Remote, batch: seq<Candle>, page: seq<Candle>, end: nat)
    requires Ascending(remote) && NewestBars(remote, batch) && end == |remote| - |batch|
    requires 0 < |page| <= end && forall c :: c in page <==> c in remote[end - |page|..end]
    ensures NewestBars(remote, batch + page)
    ensures Earliest(page) == remote[|remote| - |batch + page|].ts
  {
    var start := end - |page|;
    assert remote[start..] == remote[start..end] + remote[end..];
    assert remote[start] in remote[start..end];
    var c :| c in page && c.ts == Earliest(page);
    var i :| start <= i < end && remote[i] == c;
  }

  // ---------------------------------------------------------------- the store

  datatype Row = Row(values: Values, currency: Option<string>)

  type Series = map<int, Row>

  /** ON CONFLICT DO UPDATE: prices are replaced; a missing currency keeps the stored one. */
  function Upsert(s: Series, c: Candle): Series {
    s[c.ts := Row(c.values, if c.currency.None? && c.ts in s then s[c.ts].currency else c.currency)]
  }

  function UpsertAll(s: Series, batch: seq<Candle>): Series {
    if |batch| == 0 then s else Upsert(UpsertAll(s, batch[..|batch| - 1]), batch[|batch| - 1])
  }

  ghost predicate IsMax(ts: int, keys: set<int>) {
    ts in keys && forall t :: t in keys ==> t <= ts
  }

  ghost predicate IsMin(ts: int, keys: set<int>) {
    ts in keys && forall t :: t in keys ==> ts <= t
  }

  /** The earliest and the latest of the keys, or neither if there are none. */
  ghost predicate RangeIs(lo: Option<int>, hi: Option<int>, keys: set<int>) {
    && (lo.None? <==> keys == {}) && (hi.None? <==> keys == {})
    && (lo.Some? ==> IsMin(lo.value, keys))
    && (hi.Some? ==> IsMax(hi.value, keys))
  }

  datatype SyncResult = SyncResult(written: nat, earliest: Option<int>, latest: Option<int>, error: Option<string>)

  class Store {
    var candles: map<string, Series>

    constructor ()
      ensures candles == map[]
    {
      candles := map[];
    }

    function SeriesOf(name: string): Series
      reads this
    {
      if name in candles then candles[name] else map[]
    }

    /** upsert_candles: one transaction, so either every row is written or none. */
    method UpsertCandles(name: string, batch: seq<Candle>) returns (written: nat)
      modifies this
      ensures written == |batch|
      ensures SeriesOf(name) == UpsertAll(old(SeriesOf(name)), batch)
      ensures candles - {name} == old(candles) - {name}
    {
      if |batch| == 0 {
        return 0;
      }
      var s := SeriesOf(name);
      for i := 0 to |batch|
        invariant s == UpsertAll(old(SeriesOf(name)), batch[..i])
        invariant candles == old(candles)
      {
        assert batch[..i + 1][..i] == batch[..i];
        s := Upsert(s, batch[i]);
      }
      assert batch[..|batch|] == batch;
      candles := candles[name := s];
      written := |batch|;
    }

    /** candle_range: earliest and latest timestamp held, if any. */
    method CandleRange(name: string) returns (lo: Option<int>, hi: Option<int>)
      ensures RangeIs(lo, hi, SeriesOf(name).Keys)
    {
      lo, hi := RangeOf(SeriesOf(name).Keys);
    }
  }

  method PickAny<T>(s: set<T>) returns (t: T)
    requires s != {}
    ensures t in s
  {
    t :| t in s;
  }

  /** SELECT MIN(ts), MAX(ts). */
  method RangeOf(keys: set<int>) returns (lo: Option<int>, hi: Option<int>)
    ensures RangeIs(lo, hi, keys)
  {
    lo, hi := None, None;
    var rest := keys;
    ghost var done: set<int> := {};
    while rest != {}
      invariant done + rest == keys
      invariant RangeIs(lo, hi, done)
      decreases rest
    {
      var ts := PickAny(rest);
      rest := rest - {ts};
      done := done + {ts};
      lo := if lo.None? || ts < lo.value then Some(ts) else lo;
      hi := if hi.None? || ts > hi.value then Some(ts) else hi;
    }
    assert done == keys;
  }

  class Ingestor {
    const store: Store

    constructor (store: Store)
      ensures this.store == store
    {
      this.store := store;
    }

    /** sync_symbol: resume from the latest bar held, collect everything, and only then write. */
    method SyncSymbol(name: string, server: Server, maxBars: nat, full: bool, ghost remote: Remote) returns (r: SyncResult)
      modifies store
      ensures r.error.Some? ==> store.candles == old(store.candles)
      ensures r.error.None? && Ascending(remote) && Honest(remote, server) ==>
                exists batch :: Collected(remote, old(store.SeriesOf(name)), maxBars, full, batch)
                                && store.SeriesOf(name) == UpsertAll(old(store.SeriesOf(name)), batch) && r.written == |batch|
      ensures RangeIs(r.earliest, r.latest, store.SeriesOf(name).Keys) && (r.error.Some? ==> r.written == 0)
      ensures store.candles - {name} == old(store.candles) - {name}
    {
      var lo, hi := store.CandleRange(name);
      var stopAt := if full then None else hi;
      var batch := IterCandles(server, maxBars, stopAt, remote);
      if batch.Err? {
        return SyncResult(0, lo, hi, Some(batch.error));
      }
      if hi.Some? { MaxIsNewest(store.SeriesOf(name), hi.value); }
      hide RangeIs;
      assert Ascending(remote) && Honest(remote, server) ==>
          Collected(remote, old(store.SeriesOf(name)), maxBars, full, batch.value);
      var written := store.UpsertCandles(name, batch.value);
      var lo2, hi2 := store.CandleRange(name);
      r := SyncResult(written, lo2, hi2, None);
    }
  }

  /** The latest timestamp held, if any. */
  ghost function Newest(s: Series): Option<int> {
    if ts :| IsMax(ts, s.Keys) then Some(ts) else None
  }

  lemma MaxIsNewest(s: Series, ts: int)
    requires IsMax(ts, s.Keys)
    ensures Newest(s) == Some(ts)
  {
  }

  /** What one successful fetch brings home, given what was already held. */
  ghost predicate Collected(remote: Remote, s: Series, maxBars: nat, full: bool, batch: seq<Candle>) {
    && NewestBars(remote, batch) && |batch| <= maxBars
    && FarEnough(remote, batch, maxBars, if full then None else Newest(s))
  }
}
