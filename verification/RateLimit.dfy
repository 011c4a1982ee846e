/**
 The client-side token-bucket limiter (src/tqt/toss/ratelimit.py). Every method body that the source
 runs under a bucket's lock is one step; the clock and the KST time of day are read by the caller.
 */
module RateLimit {
  import opened Wrappers
  import opened RealFacts

  /** The peak throttle: its rate and its window, in KST minutes of the day, both ends included. */
  datatype Peak = Peak(tps: real, from: real, until: real)

  datatype Group = Group(tps: real, peak: Option<Peak>)
  {
    function LimitAt(kst: real): real {
      match peak
      case None => tps
      case Some(p) => if p.from <= kst <= p.until then p.tps else tps
    }

    /** The largest limit the group documents at any time of day. */
    function Documented(): real {
      if peak.Some? then Max(tps, peak.value.tps) else tps
    }
  }

  const AT_OPEN := (540.0, 550.0)

  const GROUPS: map<string, Group> := map[
    "AUTH" := Group(5.0, None), "ACCOUNT" := Group(1.0, None), "ASSET" := Group(5.0, None),
    "STOCK" := Group(5.0, None), "STOCK_ALL" := Group(1.0, None), "STOCK_TRADING_TREND" := Group(10.0, None),
    "MARKET_INFO" := Group(3.0, None), "MARKET_DATA" := Group(15.0, None), "MARKET_DATA_CHART" := Group(20.0, None),
    "RANKING" := Group(5.0, None), "MARKET_INDICATOR_PRICE" := Group(10.0, None), "MARKET_INDICATOR" := Group(10.0, None),
    "MARKET_INDICATOR_CHART" := Group(5.0, None), "ORDER" := Group(10.0, Some(Peak(10.0, AT_OPEN.0, AT_OPEN.1))),
    "ORDER_HISTORY" := Group(5.0, None), "ORDER_INFO" := Group(6.0, Some(Peak(3.0, AT_OPEN.0, AT_OPEN.1))),
    "CONDITIONAL_ORDER" := Group(5.0, None), "CONDITIONAL_ORDER_HISTORY" := Group(10.0, None)]

  function GroupNamed(name: string): Group {
    if name in GROUPS then GROUPS[name] else Group(1.0, None)
  }

  const SAFETY_FACTOR := 0.85

  datatype Bucket = Bucket(tokens: real, updated: real, serverLimit: Option<real>)

  function FreshBucket(g: Group, now: real): Bucket {
    Bucket(g.tps, now, None)
  }

  /** The limit in force: documented for the time of day, narrowed by what the server last said. */
  function Limit(g: Group, b: Bucket, kst: real): real {
    match b.serverLimit
    case None => g.LimitAt(kst)
    case Some(s) => if s == 0.0 then g.LimitAt(kst) else Min(g.LimitAt(kst), s)
  }

  function Rate(g: Group, safety: real, b: Bucket, kst: real): real {
    Max(Limit(g, b, kst) * safety, 0.05)
  }

  /** The ceiling of one acquire: the burst allowance, never below one token or below the request. */
  function Ceiling(g: Group, b: Bucket, kst: real, n: real): real {
    Max(Max(Limit(g, b, kst), 1.0), n)
  }

  function Refilled(g: Group, safety: real, b: Bucket, now: real, kst: real, n: real): real {
    Min(Ceiling(g, b, kst, n), b.tokens + Max(now - b.updated, 0.0) * Rate(g, safety, b, kst))
  }

  /** Does one pass of acquire's loop grant the request? */
  predicate Grants(g: Group, safety: real, b: Bucket, now: real, kst: real, n: real) {
    Refilled(g, safety, b, now, kst, n) >= n
  }

  function AfterPass(g: Group, safety: real, b: Bucket, now: real, kst: real, n: real): Bucket {
    var tokens := Refilled(g, safety, b, now, kst, n);
    b.(updated := now, tokens := if tokens >= n then tokens - n else tokens)
  }

  /** How long a refused pass sleeps. */
  function SleepFor(g: Group, safety: real, b: Bucket, now: real, kst: real, n: real): real {
    Max((n - Refilled(g, safety, b, now, kst, n)) / Rate(g, safety, b, kst), 0.005)
  }

  /** When a lone caller is granted: at its first pass, or right after the sleep of that pass, `late` seconds late. */
  function GrantedAt(g: Group, safety: real, b: Bucket, first: real, kst: real, n: real, late: real): real {
    if Grants(g, safety, b, first, kst, n) then first else first + SleepFor(g, safety, b, first, kst, n) + late
  }

  function AfterObserve(safety: real, b: Bucket, limit: real): Bucket {
    b.(serverLimit := Some(limit), tokens := Min(b.tokens, limit * safety))
  }

  function AfterPenalty(b: Bucket, now: real, retryAfter: Option<real>): Bucket {
    b.(tokens := 0.0,
       updated := if retryAfter.Some? && retryAfter.value > 0.0 then now + retryAfter.value else b.updated)
  }

  ghost predicate SameElsewhere(name: string, before: map<string, Bucket>, after: map<string, Bucket>) {
    after - {name} == before - {name}
  }

  /** The registry of buckets: each is created on first use, and each step changes only its own. */
  class RateLimiter {
    const safety: real
    var buckets: map<string, Bucket>
    var waitedSeconds: real

    constructor (safety: real)
      ensures this.safety == safety && buckets == map[] && waitedSeconds == 0.0
    {
      this.safety, buckets, waitedSeconds := safety, map[], 0.0;
    }

    /** The bucket as `_bucket` would return it. */
    function BucketOf(name: string, now: real): Bucket
      reads this
    {
      if name in buckets then buckets[name] else FreshBucket(GroupNamed(name), now)
    }

    /** One locked pass of acquire's loop; `waited` is what the caller has slept so far. */
    method Pass(name: string, n: real, now: real, kst: real, waited: real) returns (granted: bool, sleepFor: real)
      modifies this
      ensures var g := GroupNamed(name); var b := old(BucketOf(name, now));
              && granted == Grants(g, safety, b, now, kst, n)
              && buckets == old(buckets)[name := AfterPass(g, safety, b, now, kst, n)]
              && (!granted ==> sleepFor == SleepFor(g, safety, b, now, kst, n))
              && waitedSeconds == old(waitedSeconds) + if granted then waited else 0.0
      ensures BucketOf(name, now) == StepOf(GroupNamed(name), safety, old(BucketOf(name, now)), Event(now, kst, Acquire(n)))
    {
      hide Refilled, Rate;
      var g := GroupNamed(name);
      var b := BucketOf(name, now);
      var tokens := Refilled(g, safety, b, now, kst, n);
      granted := tokens >= n;
      sleepFor := 0.0;
      if granted {
        tokens := tokens - n;
        waitedSeconds := waitedSeconds + waited;
      } else {
        RateIsPositive(g, safety, b, kst);
        sleepFor := Max((n - tokens) / Rate(g, safety, b, kst), 0.005);
      }
      buckets := buckets[name := b.(updated := now, tokens := tokens)];
    }

    /** observe_headers; None stands for a header that is missing or does not parse. */
    method ObserveHeaders(name: string, limit: Option<real>, now: real)
      modifies this`buckets
      ensures buckets == if limit.Some? && limit.value > 0.0
                         then old(buckets)[name := AfterObserve(safety, old(BucketOf(name, now)), limit.value)]
                         else old(buckets)
      ensures limit.None? || limit.value <= 0.0 ==> buckets == old(buckets)
      ensures limit.Some? ==>
                BucketOf(name, now) == StepOf(GroupNamed(name), safety, old(BucketOf(name, now)), Event(now, 0.0, Observe(limit.value)))
    {
      if limit.None? || limit.value <= 0.0 {
        return;
      }
      buckets := buckets[name := AfterObserve(safety, BucketOf(name, now), limit.value)];
    }

    method Penalize(name: string, retryAfter: Option<real>, now: real)
      modifies this`buckets
      ensures buckets == old(buckets)[name := AfterPenalty(old(BucketOf(name, now)), now, retryAfter)]
      ensures BucketOf(name, now) == StepOf(GroupNamed(name), safety, old(BucketOf(name, now)), Event(now, 0.0, Penalty(retryAfter)))
    {
      buckets := buckets[name := AfterPenalty(BucketOf(name, now), now, retryAfter)];
    }

    /**
     acquire, for a caller nobody else interferes with while the documented limit stays the same.
     Pass i reads the time of day kst(i), and its sleep lasts oversleep(i) longer than asked.
     */
    method AcquireAlone(name: string, n: real, start: real, kst: nat -> real, oversleep: nat -> real)
      returns (totalWait: real, passes: nat, now: real)
      requires n >= 0.0
      requires forall i: nat :: GroupNamed(name).LimitAt(kst(i)) == GroupNamed(name).LimitAt(kst(0)) && oversleep(i) >= 0.0
      modifies this
      ensures 1 <= passes <= 2
      ensures passes == 1 <==> old(Grants(GroupNamed(name), safety, BucketOf(name, start), start, kst(0), n))
      ensures now == old(GrantedAt(GroupNamed(name), safety, BucketOf(name, start), start, kst(0), n, oversleep(0)))
      ensures passes == 1 ==> totalWait == 0.0 && now == start
      ensures passes == 2 ==> totalWait == old(SleepFor(GroupNamed(name), safety, BucketOf(name, start), start, kst(0), n))
                              && now == start + totalWait + oversleep(0)
      ensures waitedSeconds == old(waitedSeconds) + totalWait
      ensures SameElsewhere(name, old(buckets), buckets)
    {
      totalWait, passes, now := 0.0, 0, start;
      var granted := false;
      ghost var b0 := BucketOf(name, start);
      ghost var g := GroupNamed(name);
      while !granted
        invariant passes <= 2 && (passes == 2 ==> granted)
        invariant passes == 0 ==> !granted && totalWait == 0.0 && now == start && buckets == old(buckets)
        invariant passes == 1 && granted ==> Grants(g, safety, b0, start, kst(0), n) && totalWait == 0.0 && now == start
        invariant passes == 2 || (passes == 1 && !granted) ==> !Grants(g, safety, b0, start, kst(0), n)
        invariant passes == 2 || (passes == 1 && !granted) ==> totalWait == SleepFor(g, safety, b0, start, kst(0), n)
        invariant passes == 2 || (passes == 1 && !granted) ==> now == start + totalWait + oversleep(0)
        invariant passes == 1 && !granted ==> BucketOf(name, now) == AfterPass(g, safety, b0, start, kst(0), n)
        invariant granted ==> passes >= 1 && waitedSeconds == old(waitedSeconds) + totalWait
        invariant !granted ==> waitedSeconds == old(waitedSeconds)
        invariant SameElsewhere(name, old(buckets), buckets)
        decreases 2 - passes, !granted
      {
        hide Rate, Refilled, SleepFor, Ceiling, Grants, AfterPass;
        if passes == 1 {
          SecondPassGrants(g, safety, b0, start, now, kst(0), kst(1), n);
        }
        var sleepFor;
        granted, sleepFor := Pass(name, n, now, kst(passes), totalWait);
        if !granted {
          totalWait := totalWait + sleepFor;
          now := now + sleepFor + oversleep(passes);
        }
        passes := passes + 1;
      }
    }
  }

  // ---------------------------------------------------------------- progress

  lemma RateIsPositive(g: Group, safety: real, b: Bucket, kst: real)
    ensures Rate(g, safety, b, kst) >= 0.05
  {
  }

  /** After a refused pass, a pass that comes no sooner than the sleep asked for is granted. */
  lemma SecondPassGrants(g: Group, safety: real, b: Bucket, first: real, second: real, kst1: real, kst2: real, n: real)
    requires !Grants(g, safety, b, first, kst1, n)
    requires second >= first + SleepFor(g, safety, b, first, kst1, n)
    requires g.LimitAt(kst1) == g.LimitAt(kst2)
    ensures Grants(g, safety, AfterPass(g, safety, b, first, kst1, n), second, kst2, n)
  {
    hide Limit, Rate, Ceiling;
    var after := AfterPass(g, safety, b, first, kst1, n);
    SameRate(g, safety, b, after, kst1, kst2);
    RateIsPositive(g, safety, b, kst1);
    CeilingIsAbove(g, after, kst2, n);
    CatchesUp(Refilled(g, safety, b, first, kst1, n), Rate(g, safety, b, kst1), n, second - first, Ceiling(g, after, kst2, n));
  }

  /** Sleeping for the deficit at the refill rate makes up for the deficit. */
  lemma CatchesUp(tokens: real, rate: real, n: real, gap: real, ceiling: real)
    requires tokens < n && rate > 0.0 && gap >= Max((n - tokens) / rate, 0.005) && ceiling >= n
    ensures Min(ceiling, tokens + Max(gap, 0.0) * rate) >= n
  {
    QuotientTimes(n - tokens, rate);
    MulMono(rate, (n - tokens) / rate, gap);
  }

  lemma CeilingIsAbove(g: Group, b: Bucket, kst: real, n: real)
    ensures Ceiling(g, b, kst, n) >= n
  {
  }

  lemma SameRate(g: Group, safety: real, b: Bucket, c: Bucket, kst1: real, kst2: real)
    requires b.serverLimit == c.serverLimit && g.LimitAt(kst1) == g.LimitAt(kst2)
    ensures Rate(g, safety, b, kst1) == Rate(g, safety, c, kst2)
  {
    hide Limit;
    SameLimit(g, b, c, kst1, kst2);
  }

  lemma SameLimit(g: Group, b: Bucket, c: Bucket, kst1: real, kst2: real)
    requires b.serverLimit == c.serverLimit && g.LimitAt(kst1) == g.LimitAt(kst2)
    ensures Limit(g, b, kst1) == Limit(g, c, kst2)
  {
  }

  /**
   What a penalty's retry-after is worth: the first pass inside it forgets it. That pass is refused, and
   the next one after its own sleep is granted, however much of the retry-after is still to run.
   */
  lemma RetryAfterIsForgotten(g: Group, safety: real, b: Bucket, at: real, retryAfter: real, first: real, kst: real, n: real)
    requires n > 0.0 && retryAfter > 0.0 && at <= first <= at + retryAfter
    ensures var penalised := AfterPenalty(b, at, Some(retryAfter));
            var wait := Max(n / Rate(g, safety, b, kst), 0.005);
            && !Grants(g, safety, penalised, first, kst, n)
            && SleepFor(g, safety, penalised, first, kst, n) == wait
            && Grants(g, safety, AfterPass(g, safety, penalised, first, kst, n), first + wait, kst, n)
  {
    hide Limit;
    var penalised := AfterPenalty(b, at, Some(retryAfter));
    SameLimit(g, b, penalised, kst, kst);
    assert Rate(g, safety, penalised, kst) == Rate(g, safety, b, kst);
    assert 0.0 * Rate(g, safety, b, kst) == 0.0;
    assert Refilled(g, safety, penalised, first, kst, n) == 0.0;
    SecondPassGrants(g, safety, penalised, first, first + Max(n / Rate(g, safety, b, kst), 0.005), kst, kst, n);
  }

  /**
   Exactly when a lone caller honours a retry-after, whatever its sleeps overshoot: when its first pass plus the
   time its tokens take at the refill rate reaches the end of it. The retry-after itself plays no part.
   */
  lemma RetryAfterIsHonouredIff(g: Group, safety: real, b: Bucket, at: real, retryAfter: real, first: real, kst: real, n: real)
    requires n > 0.0 && retryAfter > 0.0 && at <= first
    ensures var penalised := AfterPenalty(b, at, Some(retryAfter));
            (forall late :: late >= 0.0 ==> GrantedAt(g, safety, penalised, first, kst, n, late) >= at + retryAfter)
            <==> first + Max(n / Rate(g, safety, b, kst), 0.005) >= at + retryAfter
  {
    hide Limit, Rate, Grants, SleepFor, Max;
    RateIsPositive(g, safety, b, kst);
    var penalised := AfterPenalty(b, at, Some(retryAfter));
    var wait := Max(n / Rate(g, safety, b, kst), 0.005);
    SomeWait(n / Rate(g, safety, b, kst));
    SleepIsPositive(g, safety, penalised, first, kst, n);
    if first <= at + retryAfter {
      RetryAfterIsForgotten(g, safety, b, at, retryAfter, first, kst, n);
      assert GrantedAt(g, safety, penalised, first, kst, n, 0.0) == first + wait;
    }
  }

  lemma SomeWait(x: real)
    ensures Max(x, 0.005) > 0.0
  {
  }

  lemma SleepIsPositive(g: Group, safety: real, b: Bucket, now: real, kst: real, n: real)
    ensures SleepFor(g, safety, b, now, kst, n) > 0.0
  {
    hide Rate, Refilled;
    RateIsPositive(g, safety, b, kst);
    SomeWait((n - Refilled(g, safety, b, now, kst, n)) / Rate(g, safety, b, kst));
  }

  /** A retry-after of a minute on the order group is over after a ninth of a second. */
  lemma RetryAfterIsOvertaken(b: Bucket, kst: real)
    requires b == FreshBucket(GroupNamed("ORDER"), 0.0)
    ensures GrantedAt(GroupNamed("ORDER"), SAFETY_FACTOR, AfterPenalty(b, 0.0, Some(60.0)), 0.0, kst, 1.0, 0.0) < 0.2
  {
    var g, penalised := GroupNamed("ORDER"), AfterPenalty(b, 0.0, Some(60.0));
    assert Rate(g, SAFETY_FACTOR, b, kst) == 8.5;
    RetryAfterIsForgotten(g, SAFETY_FACTOR, b, 0.0, 60.0, 0.0, kst, 1.0);
  }

  // ---------------------------------------------------------------- the window bound

  datatype Op = Acquire(n: real) | Observe(limit: real) | Penalty(retryAfter: Option<real>)

  /** One locked step on a bucket, at a clock reading and a KST time of day. */
  datatype Event = Event(at: real, kst: real, op: Op)

  function StepOf(g: Group, safety: real, b: Bucket, e: Event): Bucket {
    match e.op
    case Acquire(n) => AfterPass(g, safety, b, e.at, e.kst, n)
    case Observe(limit) => if limit > 0.0 then AfterObserve(safety, b, limit) else b
    case Penalty(retryAfter) => AfterPenalty(b, e.at, retryAfter)
  }

  /** The bucket after the first k steps of any interleaving. */
  function After(g: Group, safety: real, b: Bucket, tr: seq<Event>, k: nat): Bucket
    requires k <= |tr|
  {
    if k == 0 then b else StepOf(g, safety, After(g, safety, b, tr, k - 1), tr[k - 1])
  }

  function GrantOf(g: Group, safety: real, b: Bucket, e: Event): real {
    match e.op
    case Acquire(n) => if Grants(g, safety, b, e.at, e.kst, n) then n else 0.0
    case _ => 0.0
  }

  /** Tokens granted by the first k steps. */
  function Granted(g: Group, safety: real, b: Bucket, tr: seq<Event>, k: nat): real
    requires k <= |tr|
  {
    if k == 0 then 0.0
    else Granted(g, safety, b, tr, k - 1) + GrantOf(g, safety, After(g, safety, b, tr, k - 1), tr[k - 1])
  }

  ghost predicate Monotone(tr: seq<Event>) {
    && (forall i, j :: 0 <= i <= j < |tr| ==> tr[i].at <= tr[j].at)
    && (forall i :: 0 <= i < |tr| && tr[i].op.Acquire? ==> tr[i].op.n >= 0.0)
  }

  /** C and R bound the ceiling and the refill rate in force at every acquire of the trace. */
  ghost predicate BoundedBy(g: Group, safety: real, b: Bucket, tr: seq<Event>, c: real, r: real) {
    forall k :: 0 <= k < |tr| && tr[k].op.Acquire? ==>
      Ceiling(g, After(g, safety, b, tr, k), tr[k].kst, tr[k].op.n) <= c && Rate(g, safety, After(g, safety, b, tr, k), tr[k].kst) <= r
  }

  function AnyAcquire(tr: seq<Event>, k: nat): bool
    requires k <= |tr|
  {
    exists i :: 0 <= i < k && tr[i].op.Acquire?
  }

  /** Time of the last acquire among the first k steps, or of the first step if there is none. */
  function LastAcquire(tr: seq<Event>, k: nat): real
    requires k <= |tr| && |tr| > 0
  {
    if k == 0 then tr[0].at else if tr[k - 1].op.Acquire? then tr[k - 1].at else LastAcquire(tr, k - 1)
  }

  /** Tokens held plus tokens granted never outgrow C + R * elapsed, once the first acquire has capped the bucket. */
  ghost predicate InBudget(acquired: bool, b: Bucket, granted: real, last: real, start: real, c: real, r: real) {
    && b.tokens >= 0.0
    && (!acquired ==> granted == 0.0)
    && (acquired ==> b.updated >= last && b.tokens + granted <= c + r * (last - start))
  }

  /** One pass: what it holds and grants together is at most the ceiling, and at most what the refill added. */
  lemma PassIsBounded(g: Group, safety: real, b: Bucket, e: Event)
    requires b.tokens >= 0.0 && e.op.Acquire? && e.op.n >= 0.0
    ensures var after := AfterPass(g, safety, b, e.at, e.kst, e.op.n);
            && after.tokens >= 0.0 && after.updated == e.at
            && after.tokens + GrantOf(g, safety, b, e) <= Ceiling(g, b, e.kst, e.op.n)
            && after.tokens + GrantOf(g, safety, b, e) <= b.tokens + Max(e.at - b.updated, 0.0) * Rate(g, safety, b, e.kst)
  {
    hide Rate, Limit;
    RateIsPositive(g, safety, b, e.kst);
    MulNonNegative(Max(e.at - b.updated, 0.0), Rate(g, safety, b, e.kst));
  }

  lemma RefillFits(elapsed: real, rate: real, r: real, gap: real)
    requires 0.0 <= elapsed <= gap && 0.0 <= rate <= r
    ensures elapsed * rate <= r * gap
  {
    MulMono(elapsed, rate, r);
    MulMono(r, elapsed, gap);
  }

  lemma AcquireKeepsBudget(g: Group, safety: real, b: Bucket, e: Event, acquired: bool, granted: real, last: real, start: real, c: real, r: real)
    requires e.op.Acquire? && e.op.n >= 0.0 && start <= last <= e.at
    requires Ceiling(g, b, e.kst, e.op.n) <= c && Rate(g, safety, b, e.kst) <= r
    requires InBudget(acquired, b, granted, last, start, c, r)
    ensures InBudget(true, StepOf(g, safety, b, e), granted + GrantOf(g, safety, b, e), e.at, start, c, r)
  {
    hide Rate, Ceiling, AfterPass, GrantOf, Max;
    PassIsBounded(g, safety, b, e);
    RateIsPositive(g, safety, b, e.kst);
    var now := StepOf(g, safety, b, e).tokens + GrantOf(g, safety, b, e);
    if acquired {
      ElapsedSince(e.at, b.updated, last);
      RefillFits(Max(e.at - b.updated, 0.0), Rate(g, safety, b, e.kst), r, e.at - last);
      SpendingFits(b.tokens, granted, now, Max(e.at - b.updated, 0.0) * Rate(g, safety, b, e.kst), last, e.at, start, c, r);
    } else {
      MulNonNegative(r, e.at - start);
    }
  }

  lemma ElapsedSince(at: real, updated: real, last: real)
    requires last <= at && last <= updated
    ensures 0.0 <= Max(at - updated, 0.0) <= at - last
  {
  }

  lemma SpendingFits(tokens: real, granted: real, now: real, refill: real, last: real, at: real, start: real, c: real, r: real)
    requires tokens + granted <= c + r * (last - start) && now <= tokens + refill && refill <= r * (at - last)
    ensures now + granted <= c + r * (at - start)
  {
    assert r * (last - start) + r * (at - last) == r * (at - start);
  }

  lemma OtherStepsKeepBudget(g: Group, safety: real, b: Bucket, e: Event, acquired: bool, granted: real, last: real, start: real, c: real, r: real)
    requires !e.op.Acquire? && safety >= 0.0 && last <= e.at
    requires InBudget(acquired, b, granted, last, start, c, r)
    ensures GrantOf(g, safety, b, e) == 0.0
    ensures InBudget(acquired, StepOf(g, safety, b, e), granted, last, start, c, r)
  {
    if e.op.Observe? && e.op.limit > 0.0 { MulNonNegative(e.op.limit, safety); }
  }

  lemma {:induction false} LastAcquireIsPast(tr: seq<Event>, k: nat)
    requires |tr| > 0 && k < |tr| && Monotone(tr)
    ensures tr[0].at <= LastAcquire(tr, k) <= tr[k].at
  {
    if k > 0 { LastAcquireIsPast(tr, k - 1); }
  }

  lemma {:induction false} BudgetHolds(g: Group, safety: real, b: Bucket, tr: seq<Event>, k: nat, c: real, r: real)
    requires k <= |tr| && |tr| > 0 && Monotone(tr) && BoundedBy(g, safety, b, tr, c, r)
    requires b.tokens >= 0.0 && safety >= 0.0
    ensures InBudget(AnyAcquire(tr, k), After(g, safety, b, tr, k), Granted(g, safety, b, tr, k), LastAcquire(tr, k), tr[0].at, c, r)
  {
    hide InBudget, Ceiling, Rate, StepOf, GrantOf;
    if k == 0 {
      assert InBudget(false, b, 0.0, tr[0].at, tr[0].at, c, r) by { NothingSpent(b, tr[0].at, c, r); }
    } else {
      BudgetHolds(g, safety, b, tr, k - 1, c, r);
      LastAcquireIsPast(tr, k - 1);
      var before, e := After(g, safety, b, tr, k - 1), tr[k - 1];
      if e.op.Acquire? {
        AcquireKeepsBudget(g, safety, before, e, AnyAcquire(tr, k - 1), Granted(g, safety, b, tr, k - 1), LastAcquire(tr, k - 1), tr[0].at, c, r);
      } else {
        assert AnyAcquire(tr, k) <==> AnyAcquire(tr, k - 1);
        OtherStepsKeepBudget(g, safety, before, e, AnyAcquire(tr, k - 1), Granted(g, safety, b, tr, k - 1), LastAcquire(tr, k - 1), tr[0].at, c, r);
      }
    }
  }

  lemma NothingSpent(b: Bucket, start: real, c: real, r: real)
    requires b.tokens >= 0.0
    ensures InBudget(false, b, 0.0, start, start, c, r)
  {
  }

  /**
   The rate bound. From any bucket, however long it was idle and whatever was learned or penalised in
   between, the tokens granted in a window of length T are at most C + R*T.
   */
  lemma WindowBound(g: Group, safety: real, b: Bucket, tr: seq<Event>, c: real, r: real)
    requires |tr| > 0 && Monotone(tr) && BoundedBy(g, safety, b, tr, c, r) && c >= 0.0 && r >= 0.0
    requires b.tokens >= 0.0 && safety >= 0.0
    ensures Granted(g, safety, b, tr, |tr|) <= c + r * (tr[|tr| - 1].at - tr[0].at)
  {
    hide BoundedBy, Granted, After, AnyAcquire, InBudget;
    var n := |tr|;
    var start, end := tr[0].at, tr[n - 1].at;
    BudgetHolds(g, safety, b, tr, n, c, r);
    LastAcquireIsPast(tr, n - 1);
    SpentWithin(AnyAcquire(tr, n), After(g, safety, b, tr, n), Granted(g, safety, b, tr, n), LastAcquire(tr, n), start, end, c, r);
  }

  lemma SpentWithin(acquired: bool, b: Bucket, granted: real, last: real, start: real, end: real, c: real, r: real)
    requires InBudget(acquired, b, granted, last, start, c, r) && start <= last <= end && c >= 0.0 && r >= 0.0
    ensures granted <= c + r * (end - start)
  {
    if acquired {
      assert granted <= c + r * (last - start);
      assert r * (end - start) == r * (last - start) + r * (end - last);
      MulNonNegative(r, end - last);
    } else {
      assert granted == 0.0;
      MulNonNegative(r, end - start);
      assert r * (end - start) >= 0.0;
    }
  }

  lemma LimitIsDocumented(g: Group, safety: real, b: Bucket, kst: real)
    requires safety >= 0.0
    ensures Limit(g, b, kst) <= g.Documented()
    ensures Rate(g, safety, b, kst) <= Max(g.Documented() * safety, 0.05)
  {
    MulMono(safety, Limit(g, b, kst), g.Documented());
    assert Limit(g, b, kst) * safety <= g.Documented() * safety;
  }

  /** The documented table bounds every trace: no header can raise the limit above it. */
  lemma DocumentedBounds(g: Group, safety: real, b: Bucket, tr: seq<Event>, n: real)
    requires 0.0 <= safety
    requires forall k :: 0 <= k < |tr| && tr[k].op.Acquire? ==> tr[k].op.n <= n
    ensures BoundedBy(g, safety, b, tr, Max(Max(g.Documented(), 1.0), n), Max(g.Documented() * safety, 0.05))
  {
    hide Limit, Rate, Group.Documented;
    forall k | 0 <= k < |tr| && tr[k].op.Acquire?
      ensures Ceiling(g, After(g, safety, b, tr, k), tr[k].kst, tr[k].op.n) <= Max(Max(g.Documented(), 1.0), n)
      ensures Rate(g, safety, After(g, safety, b, tr, k), tr[k].kst) <= Max(g.Documented() * safety, 0.05)
    {
      LimitIsDocumented(g, safety, After(g, safety, b, tr, k), tr[k].kst);
    }
  }

  // ---------------------------------------------------------------- the throttle at the open

  /** The limit of every group is the same all day, one if it is not documented, but for ORDER_INFO: six, and three from 09:00 to 09:10. */
  lemma OnlyTheOpenIsThrottled(name: string, kst: real)
    ensures name !in GROUPS ==> GroupNamed(name).LimitAt(kst) == 1.0
    ensures name in GROUPS && name != "ORDER_INFO" ==> GroupNamed(name).LimitAt(kst) == GROUPS[name].tps
    ensures name == "ORDER_INFO" ==> GroupNamed(name).LimitAt(kst) == if 9.0 * 60.0 <= kst <= 9.0 * 60.0 + 10.0 then 3.0 else 6.0
  {
  }

  lemma LimitIsAtMost(g: Group, safety: real, b: Bucket, kst: real, limit: real)
    requires safety >= 0.0 && g.LimitAt(kst) <= limit
    ensures Limit(g, b, kst) <= limit && Rate(g, safety, b, kst) <= Max(limit * safety, 0.05)
  {
    hide Group.LimitAt;
    MulMono(safety, Limit(g, b, kst), limit);
    assert Limit(g, b, kst) * safety <= limit * safety;
  }

  /** Single requests within the first ten minutes of a session never exceed three at once plus three a second, less the margin. */
  lemma OpenIsThrottled(safety: real, b: Bucket, tr: seq<Event>)
    requires |tr| > 0 && Monotone(tr) && b.tokens >= 0.0 && safety >= 0.0
    requires forall k :: 0 <= k < |tr| && tr[k].op.Acquire? ==> tr[k].op.n <= 1.0 && 540.0 <= tr[k].kst <= 550.0
    ensures Granted(GroupNamed("ORDER_INFO"), safety, b, tr, |tr|)
         <= 3.0 + Max(3.0 * safety, 0.05) * (tr[|tr| - 1].at - tr[0].at)
  {
    hide Limit, Rate, Granted, After, GroupNamed;
    var g, r := GroupNamed("ORDER_INFO"), Max(3.0 * safety, 0.05);
    forall k | 0 <= k < |tr| && tr[k].op.Acquire?
      ensures Ceiling(g, After(g, safety, b, tr, k), tr[k].kst, tr[k].op.n) <= 3.0
      ensures Rate(g, safety, After(g, safety, b, tr, k), tr[k].kst) <= r
    {
      OnlyTheOpenIsThrottled("ORDER_INFO", tr[k].kst);
      LimitIsAtMost(g, safety, After(g, safety, b, tr, k), tr[k].kst, 3.0);
    }
    WindowBound(g, safety, b, tr, 3.0, r);
  }

  // ---------------------------------------------------------------- the burst

  /**
   A bucket that has rested long enough holds exactly the limit in force: the documented one of that time of day, or
   the last one a header said if that is lower; but never less than one token, nor than is asked for.
   */
  lemma RestedBucketIsFull(g: Group, safety: real, b: Bucket, now: real, kst: real, n: real, limit: real, refill: real)
    requires limit == if b.serverLimit.Some? && b.serverLimit.value != 0.0 && b.serverLimit.value < g.LimitAt(kst) then b.serverLimit.value
                      else g.LimitAt(kst)
    requires b.tokens >= 0.0 && now >= b.updated
    requires refill == (now - b.updated) * Rate(g, safety, b, kst) && refill >= limit && refill >= 1.0 && refill >= n
    ensures var held := Refilled(g, safety, b, now, kst, n);
            held >= limit && held >= 1.0 && held >= n && (held == limit || held == 1.0 || held == n)
  {
    hide Group.LimitAt, Rate;
    assert Limit(g, b, kst) == limit;
    hide Limit;
    var rested := Max(now - b.updated, 0.0);
    assert rested == now - b.updated;
    assert rested * Rate(g, safety, b, kst) == refill;
  }

  // ---------------------------------------------------------------- what is held is all there is

  /** Tokens held plus tokens granted since: never more than were held at first plus the refill of the time gone by. */
  ghost predicate Spent(b0: Bucket, b: Bucket, granted: real, now: real, r: real) {
    b.tokens >= 0.0 && b.updated >= now >= b0.updated && b.tokens + granted <= b0.tokens + r * (now - b0.updated)
  }

  /** The time of the last acquire among the first k steps, or when the bucket was last refilled if there is none. */
  function LastRefill(b: Bucket, tr: seq<Event>, k: nat): real
    requires k <= |tr|
  {
    if k == 0 then b.updated else if tr[k - 1].op.Acquire? then tr[k - 1].at else LastRefill(b, tr, k - 1)
  }

  lemma {:induction false} LastRefillIsPast(b: Bucket, tr: seq<Event>, k: nat)
    requires k < |tr| && Monotone(tr) && b.updated <= tr[0].at
    ensures b.updated <= LastRefill(b, tr, k) <= tr[k].at
  {
    if k > 0 { LastRefillIsPast(b, tr, k - 1); }
  }

  lemma {:induction false} SpendingIsBounded(g: Group, safety: real, b: Bucket, tr: seq<Event>, k: nat, r: real)
    requires k <= |tr| && |tr| > 0 && Monotone(tr) && b.tokens >= 0.0 && safety >= 0.0 && b.updated <= tr[0].at
    requires forall i :: 0 <= i < |tr| && tr[i].op.Acquire? ==> Rate(g, safety, After(g, safety, b, tr, i), tr[i].kst) <= r
    ensures Spent(b, After(g, safety, b, tr, k), Granted(g, safety, b, tr, k), LastRefill(b, tr, k), r)
  {
    hide Spent, Rate, StepOf, GrantOf;
    if k == 0 {
      NothingSpentYet(b, r);
    } else {
      SpendingIsBounded(g, safety, b, tr, k - 1, r);
      LastRefillIsPast(b, tr, k - 1);
      var before, e, last := After(g, safety, b, tr, k - 1), tr[k - 1], LastRefill(b, tr, k - 1);
      if e.op.Acquire? {
        AcquireSpends(g, safety, b, before, e, Granted(g, safety, b, tr, k - 1), last, r);
      } else {
        OthersSpendNothing(g, safety, b, before, e, Granted(g, safety, b, tr, k - 1), last, r);
      }
    }
  }

  lemma NothingSpentYet(b: Bucket, r: real)
    requires b.tokens >= 0.0
    ensures Spent(b, b, 0.0, b.updated, r)
  {
  }

  lemma AcquireSpends(g: Group, safety: real, b0: Bucket, b: Bucket, e: Event, granted: real, last: real, r: real)
    requires e.op.Acquire? && e.op.n >= 0.0 && last <= e.at && Rate(g, safety, b, e.kst) <= r && Spent(b0, b, granted, last, r)
    ensures Spent(b0, StepOf(g, safety, b, e), granted + GrantOf(g, safety, b, e), e.at, r)
  {
    hide Rate, Ceiling, AfterPass, GrantOf, Max;
    PassIsBounded(g, safety, b, e);
    RateIsPositive(g, safety, b, e.kst);
    ElapsedSince(e.at, b.updated, last);
    RefillFits(Max(e.at - b.updated, 0.0), Rate(g, safety, b, e.kst), r, e.at - last);
    TimesSplit(r, e.at, last, b0.updated);
  }

  lemma TimesSplit(r: real, end: real, mid: real, start: real)
    ensures r * (end - start) == r * (end - mid) + r * (mid - start)
  {
  }

  lemma OthersSpendNothing(g: Group, safety: real, b0: Bucket, b: Bucket, e: Event, granted: real, last: real, r: real)
    requires !e.op.Acquire? && safety >= 0.0 && last <= e.at && Spent(b0, b, granted, last, r)
    ensures GrantOf(g, safety, b, e) == 0.0 && Spent(b0, StepOf(g, safety, b, e), granted, last, r)
  {
    if e.op.Observe? && e.op.limit > 0.0 { MulNonNegative(e.op.limit, safety); }
  }

  /** A penalty empties the bucket: it then refills from the end of a retry-after above zero, and else from when it last did. */
  lemma PenaltyEmpties(g: Group, safety: real, b: Bucket, at: real, retryAfter: Option<real>, now: real, kst: real, n: real)
    ensures var from := if retryAfter.Some? && !(retryAfter.value <= 0.0) then at + retryAfter.value else b.updated;
            Refilled(g, safety, AfterPenalty(b, at, retryAfter), now, kst, n)
            == Min(Ceiling(g, b, kst, n), Max(now - from, 0.0) * Rate(g, safety, b, kst))
  {
    hide Limit;
    SameLimit(g, b, AfterPenalty(b, at, retryAfter), kst, kst);
  }

  /**
   A learned limit clips what is held: from the moment a header says `limit`, no more than that limit less the margin,
   plus the refill since the bucket was last refilled, is ever granted.
   */
  lemma LearnedLimitClips(g: Group, safety: real, b: Bucket, limit: real, tr: seq<Event>, r: real)
    requires |tr| > 0 && Monotone(tr) && b.tokens >= 0.0 && safety >= 0.0 && limit > 0.0 && b.updated <= tr[0].at && r >= 0.0
    requires var c := AfterObserve(safety, b, limit);
             forall i :: 0 <= i < |tr| && tr[i].op.Acquire? ==> Rate(g, safety, After(g, safety, c, tr, i), tr[i].kst) <= r
    ensures Granted(g, safety, AfterObserve(safety, b, limit), tr, |tr|) <= limit * safety + r * (tr[|tr| - 1].at - b.updated)
  {
    hide Rate, After, Granted, Spent, AfterObserve;
    var c, n := AfterObserve(safety, b, limit), |tr|;
    ClipIs(safety, b, limit);
    SpendingIsBounded(g, safety, c, tr, n, r);
    LastRefillIsPast(c, tr, n - 1);
    SpentBy(c, After(g, safety, c, tr, n), Granted(g, safety, c, tr, n), LastRefill(c, tr, n), r, tr[n - 1].at);
  }

  lemma ClipIs(safety: real, b: Bucket, limit: real)
    requires b.tokens >= 0.0 && safety >= 0.0 && limit > 0.0
    ensures 0.0 <= AfterObserve(safety, b, limit).tokens <= limit * safety && AfterObserve(safety, b, limit).updated == b.updated
  {
    MulNonNegative(limit, safety);
  }

  lemma SpentBy(b0: Bucket, b: Bucket, granted: real, now: real, r: real, end: real)
    requires Spent(b0, b, granted, now, r) && now <= end && r >= 0.0
    ensures granted <= b0.tokens + r * (end - b0.updated)
  {
    TimesSplit(r, end, now, b0.updated);
    MulNonNegative(r, end - now);
  }

  /** ... and the learned limit holds from then on, for as long as no other header says otherwise. */
  lemma {:induction false} LearnedLimitLasts(g: Group, safety: real, b: Bucket, limit: real, tr: seq<Event>, k: nat)
    requires k < |tr| && limit > 0.0 && safety >= 0.0 && b.serverLimit == Some(limit)
    requires forall i :: 0 <= i < k ==> !tr[i].op.Observe?
    ensures After(g, safety, b, tr, k).serverLimit == Some(limit)
    ensures Limit(g, After(g, safety, b, tr, k), tr[k].kst) <= limit
    ensures Rate(g, safety, After(g, safety, b, tr, k), tr[k].kst) <= Max(limit * safety, 0.05)
  {
    hide Refilled, Rate, Group.LimitAt;
    if k > 0 { LearnedLimitLasts(g, safety, b, limit, tr, k - 1); }
    RateOfLearned(g, safety, After(g, safety, b, tr, k), tr[k].kst, limit);
  }

  lemma RateOfLearned(g: Group, safety: real, b: Bucket, kst: real, limit: real)
    requires b.serverLimit == Some(limit) && limit > 0.0 && safety >= 0.0
    ensures Limit(g, b, kst) <= limit && Rate(g, safety, b, kst) <= Max(limit * safety, 0.05)
  {
    hide Group.LimitAt;
    MulMono(safety, Limit(g, b, kst), limit);
    assert Limit(g, b, kst) * safety <= limit * safety;
  }
}
