/** Safety of the kill switch, the order budget and the daily-loss guard over every run of the bot. */
module RiskTheorems {
  import opened Wrappers
  import opened RealFacts
  import opened OrderedDict
  import opened Costs
  import opened Broker
  import opened Calendar
  import opened Paper
  import opened Intents
  import opened IntentTheorems
  import opened Risk

  /** Everything that can happen to the bot. A restart loses the memory of the process and finds what was stored. */
  datatype Event =
    | Restart(at: int)
    | Cycle(pass: Pass)
    | Halt(todayOnly: bool, at: int)
    | Resume(at: int)
    | Mark(at: int, equity: real)
    | ResetPaper(at: int, cash: real)

  datatype Bot = Bot(risk: RiskState, account: Account, now: int)

  function FundedBot(cash: real, now: int): (r: Bot)
    ensures WellKept(r.account)
  {
    FundedIsWellKept();
    Bot(RiskState(false, None, map[]), Funded(cash), now)
  }

  lemma FundedIsWellKept()
    ensures forall cash: real :: WellKept(Funded(cash))
  {
    WholeOfInt(0);
  }

  /** The clock reading at which an event is over. */
  function EndOf(e: Event): int {
    match e
    case Cycle(c) => if |c.planned| > 0 then c.planned[|c.planned| - 1].submittedAt else c.checkedAt
    case Restart(at) => at
    case Halt(_, at) => at
    case Resume(at) => at
    case Mark(at, _) => at
    case ResetPaper(at, _) => at
  }

  function After(t: Terms, l: Limits, b: Bot, e: Event): (r: Bot)
    requires WellKept(b.account)
    ensures WellKept(r.account)
  {
    FundedIsWellKept();
    match e
    case Restart(_) => Bot(b.risk, b.account, EndOf(e))
    case Cycle(c) => Bot(CycleRisk(l, b.risk, b.account, c).0, CycleAccount(t, l, b.risk, b.account, c), EndOf(e))
    case Halt(todayOnly, at) => Bot(Halted(b.risk, todayOnly, at), b.account, EndOf(e))
    case Resume(_) => Bot(Resumed(b.risk), b.account, EndOf(e))
    case Mark(at, equity) => Bot(Marked(b.risk, at, equity), b.account, EndOf(e))
    case ResetPaper(_, cash) => Bot(Unmarked(b.risk), Funded(cash), EndOf(e))
  }

  /** The clock never runs backwards, within an event or between events. */
  ghost predicate InTime(b: Bot, e: Event) {
    match e
    case Cycle(c) =>
      && b.now <= c.markedAt <= c.checkedAt
      && (forall i :: 0 <= i < |c.planned| ==> c.checkedAt <= c.planned[i].checkedAt <= c.planned[i].submittedAt)
      && (forall i :: 0 <= i < |c.planned| - 1 ==> c.planned[i].submittedAt <= c.planned[i + 1].checkedAt)
    case _ => b.now <= EndOf(e)
  }

  /** The bot after the first n events. */
  function BotAfter(t: Terms, l: Limits, b: Bot, es: seq<Event>, n: nat): (r: Bot)
    requires WellKept(b.account) && n <= |es|
    ensures WellKept(r.account)
  {
    if n == 0 then b else After(t, l, BotAfter(t, l, b, es, n - 1), es[n - 1])
  }

  /** The states of the bot before the first event and after each one. */
  function RunFrom(t: Terms, l: Limits, b: Bot, es: seq<Event>): seq<Bot>
    requires WellKept(b.account)
  {
    seq(|es| + 1, i requires 0 <= i <= |es| => BotAfter(t, l, b, es, i))
  }

  /** A run: well-kept states, each the result of an event in time. */
  ghost predicate IsRun(t: Terms, l: Limits, run: seq<Bot>, es: seq<Event>) {
    && |run| == |es| + 1
    && (forall i :: 0 <= i < |run| ==> WellKept(run[i].account))
    && (forall i :: 0 <= i < |es| ==> InTime(run[i], es[i]) && run[i + 1] == After(t, l, run[i], es[i]))
  }

  /** Any events in time order make a run. */
  lemma EventsMakeARun(t: Terms, l: Limits, b: Bot, es: seq<Event>)
    requires WellKept(b.account) && forall i :: 0 <= i < |es| ==> InTime(BotAfter(t, l, b, es, i), es[i])
    ensures IsRun(t, l, RunFrom(t, l, b, es), es)
  {
    hide After, InTime, WellKept;
    var run := RunFrom(t, l, b, es);
    forall i | 0 <= i < |es| ensures InTime(run[i], es[i]) && run[i + 1] == After(t, l, run[i], es[i]) {
      assert run[i] == BotAfter(t, l, b, es, i) && run[i + 1] == BotAfter(t, l, b, es, i + 1);
    }
  }

  lemma {:induction false} PlannedInOrder(c: Pass, i: nat, j: nat)
    requires forall k :: 0 <= k < |c.planned| ==> c.checkedAt <= c.planned[k].checkedAt <= c.planned[k].submittedAt
    requires forall k :: 0 <= k < |c.planned| - 1 ==> c.planned[k].submittedAt <= c.planned[k + 1].checkedAt
    requires i < j < |c.planned|
    ensures c.planned[i].submittedAt <= c.planned[j].checkedAt
  {
    if i + 1 < j {
      PlannedInOrder(c, i, j - 1);
      assert c.planned[j - 1].checkedAt <= c.planned[j - 1].submittedAt;
    }
  }

  lemma {:induction false} ClockAdvances(t: Terms, l: Limits, run: seq<Bot>, es: seq<Event>, i: nat, j: nat)
    requires IsRun(t, l, run, es) && i <= j < |run|
    ensures run[i].now <= run[j].now
  {
    hide CycleAccount, CycleRisk, WellKept;
    if i < j {
      ClockAdvances(t, l, run, es, i, j - 1);
      assert InTime(run[j - 1], es[j - 1]);
      if es[j - 1].Cycle? && |es[j - 1].pass.planned| > 0 {
        assert es[j - 1].pass.planned[|es[j - 1].pass.planned| - 1].submittedAt >= es[j - 1].pass.checkedAt;
      }
    }
  }

  // ---------------------------------------------------------------- the kill switch

  /** A cycle that begins halted submits nothing and changes neither the ledger nor the switch. */
  lemma HaltedCycleDoesNothing(t: Terms, l: Limits, b: Bot, c: Pass)
    requires WellKept(b.account) && IsHalted(b.risk, c.checkedAt)
    ensures After(t, l, b, Cycle(c)).account == b.account
    ensures After(t, l, b, Cycle(c)).risk.halted == b.risk.halted && After(t, l, b, Cycle(c)).risk.haltedFor == b.risk.haltedFor
  {
    hide DailyLoss, Snapshot.EquityKrw;
  }

  /** A manual halt lasts until somebody resumes: no cycle, rollover, mark or other halt clears it. */
  lemma {:induction false} ManualHaltLasts(t: Terms, l: Limits, run: seq<Bot>, es: seq<Event>, i: nat, j: nat)
    requires IsRun(t, l, run, es) && i <= j < |run| && run[i].risk.halted
    requires forall k :: i <= k < j ==> !es[k].Resume?
    ensures run[j].risk.halted
    ensures forall c: Pass :: After(t, l, run[j], Cycle(c)).account == run[j].account
  {
    hide DailyLoss, Snapshot.EquityKrw, CycleAccount, OrdersOn;
    if i < j {
      ManualHaltLasts(t, l, run, es, i, j - 1);
      assert run[j] == After(t, l, run[j - 1], es[j - 1]);
    }
    forall c: Pass ensures After(t, l, run[j], Cycle(c)).account == run[j].account {
      HaltedCycleDoesNothing(t, l, run[j], c);
    }
  }

  /**
   A halt for a KST date lasts through that date, whatever else happens short of a resume, and ends with
   it: on a later date only a manual halt, or a new halt for that date, still stops the bot.
   */
  lemma {:induction false} TodayHaltLasts(t: Terms, l: Limits, run: seq<Bot>, es: seq<Event>, i: nat, j: nat, day: int)
    requires IsRun(t, l, run, es) && i <= j < |run| && run[i].risk.haltedFor == Some(day) && KstDay(run[i].now) == day
    requires forall k :: i <= k < j ==> !es[k].Resume?
    requires KstDay(run[j].now) == day
    ensures run[j].risk.haltedFor == Some(day)
    ensures forall at :: KstDay(at) == day ==> IsHalted(run[j].risk, at)
    ensures forall at :: KstDay(at) > day ==> (IsHalted(run[j].risk, at) <==> run[j].risk.halted)
  {
    hide DailyLoss, Snapshot.EquityKrw, CycleAccount, OrdersOn, WellKept;
    if i < j {
      ClockAdvances(t, l, run, es, i, j - 1);
      ClockAdvances(t, l, run, es, j - 1, j);
      SameDayBetween(run[i].now, run[j - 1].now, run[j].now);
      TodayHaltLasts(t, l, run, es, i, j - 1, day);
      assert run[j] == After(t, l, run[j - 1], es[j - 1]) && InTime(run[j - 1], es[j - 1]);
      if es[j - 1].Cycle? { CycleWithinDay(run[j - 1], es[j - 1].pass); }
    }
  }

  lemma SameDayBetween(a: int, b: int, c: int)
    requires a <= b <= c && KstDay(a) == KstDay(c)
    ensures KstDay(b) == KstDay(a)
  {
  }

  lemma CycleWithinDay(b: Bot, c: Pass)
    requires InTime(b, Cycle(c)) && KstDay(b.now) == KstDay(EndOf(Cycle(c)))
    ensures KstDay(c.checkedAt) == KstDay(b.now)
  {
    if |c.planned| > 0 { assert c.checkedAt <= c.planned[|c.planned| - 1].checkedAt; }
    SameDayBetween(b.now, c.checkedAt, EndOf(Cycle(c)));
  }

  /** The two switches are independent, and a resume clears both. */
  lemma HaltsAreIndependent(r: RiskState, now: int, later: int)
    ensures Halted(r, true, now).halted == r.halted
    ensures Halted(r, false, now).haltedFor == r.haltedFor
    ensures IsHalted(Halted(Halted(r, true, now), false, now), later)
    ensures !IsHalted(Resumed(r), later)
  {
  }

  // ---------------------------------------------------------------- when a cycle is refused

  /** Korean time is nine hours ahead of UTC, and a day has 86,400 seconds in both. */
  lemma KstIsNineHoursAhead(t: int)
    ensures 86400 * UtcDay(t) <= t < 86400 * (UtcDay(t) + 1)
    ensures 86400 * KstDay(t) <= t + 9 * 3600 < 86400 * (KstDay(t) + 1)
  {
  }

  /** The positions of the orders submitted on a UTC date. */
  ghost function OrdersDated(times: seq<int>, day: int): set<nat> {
    set i: nat | i < |times| && 86400 * day <= times[i] < 86400 * (day + 1)
  }

  lemma {:induction false} OrdersOnCounts(times: seq<int>, day: int)
    ensures OrdersOn(times, day) == |OrdersDated(times, day)|
  {
    if |times| == 0 {
      assert OrdersDated(times, day) == {};
    } else {
      var n := |times| - 1;
      OrdersOnCounts(times[..n], day);
      KstIsNineHoursAhead(times[n]);
      if UtcDay(times[n]) == day {
        assert OrdersDated(times, day) == OrdersDated(times[..n], day) + {n};
      } else {
        assert OrdersDated(times, day) == OrdersDated(times[..n], day);
      }
    }
  }

  /** Some day's first mark above zero has been lost by the limit or more. */
  ghost predicate LossBreached(l: Limits, marks: map<int, real>, equity: real, day: int) {
    exists t :: FirstOfDay(marks, day, t) && marks[t] > 0.0 && equity <= marks[t] * (1.0 - l.maxDailyLoss)
  }

  lemma LossIff(opening: real, equity: real, limit: real)
    requires opening > 0.0
    ensures (equity - opening) / opening <= -limit <==> equity <= opening * (1.0 - limit)
  {
    var loss := (equity - opening) / opening;
    QuotientTimes(equity - opening, opening);
    assert opening * (1.0 - limit) - opening == opening * (-limit);
    if loss <= -limit { MulMono(opening, loss, -limit); }
    if equity <= opening * (1.0 - limit) && loss > -limit { MulPositive(opening, loss + limit); }
  }

  lemma LossBreachedIff(l: Limits, r: RiskState, equity: real, now: int)
    ensures var loss := DailyLoss(r, equity, now);
            loss.Some? && loss.value <= -l.maxDailyLoss <==> LossBreached(l, r.marks, equity, KstDay(now))
  {
    hide KstDay, UtcDay;
    var opening := FirstEquity(r.marks, KstDay(now));
    if opening.Some? {
      var t :| FirstOfDay(r.marks, KstDay(now), t) && opening.value == r.marks[t];
      forall u | FirstOfDay(r.marks, KstDay(now), u) ensures u == t {}
      if opening.value > 0.0 { LossIff(opening.value, equity, l.maxDailyLoss); }
    }
  }

  /**
   When a cycle is refused: if and only if it is halted, or the first mark of its date has been lost by the limit or
   more, or the day's orders have reached theirs. A refusal halts the bot for the day unless it was halted already,
   and a cycle that is allowed changes nothing.
   */
  lemma RefusedIff(l: Limits, r: RiskState, equity: real, orderTimes: seq<int>, now: int)
    ensures var v := CycleVerdict(l, r, equity, orderTimes, now);
            var halted := r.halted || r.haltedFor == Some(KstDay(now));
            && (!v.1 <==> halted || LossBreached(l, r.marks, equity, KstDay(now)) || |OrdersDated(orderTimes, UtcDay(now))| >= l.maxOrdersPerDay)
            && v.0 == if halted || v.1 then r else r.(haltedFor := Some(KstDay(now)))
  {
    hide DailyLoss, OrdersOn, LossBreached, KstDay, UtcDay;
    LossBreachedIff(l, r, equity, now);
    OrdersOnCounts(orderTimes, UtcDay(now));
  }

  /**
   A loss stops the day: a cycle that marks equity at or below the first mark of its date less the limit places no
   order, nor does any later cycle checked on that KST date, until somebody resumes.
   */
  lemma LossStopsTheDay(t: Terms, l: Limits, run: seq<Bot>, es: seq<Event>, i: nat, j: nat, c: Pass, later: Pass, equity: real)
    requires IsRun(t, l, run, es) && i < j < |run| && es[i] == Cycle(c)
    requires equity == SnapshotOf(run[i].account, c.view).EquityKrw()
    requires LossBreached(l, run[i].risk.marks[c.markedAt := equity], equity, KstDay(c.checkedAt))
    requires KstDay(run[i + 1].now) == KstDay(c.checkedAt) == KstDay(run[j].now) == KstDay(later.checkedAt)
    requires forall k :: i < k < j ==> !es[k].Resume?
    ensures run[i + 1].account == run[i].account
    ensures After(t, l, run[j], Cycle(later)).account == run[j].account
  {
    hide LossBreached, Snapshot.EquityKrw, WellKept, KstDay, CycleVerdict, PlacedAll, InTime;
    assert run[i + 1] == After(t, l, run[i], es[i]);
    RefusedIff(l, Marked(run[i].risk, c.markedAt, equity), equity, run[i].account.orderTimes, c.checkedAt);
    RefusalStopsTheDay(t, l, run, es, i, j, c, later);
  }

  /**
   Once a cycle is refused, for a loss beyond the limit or for a spent budget, no cycle checked on the same
   KST date places an order, until somebody resumes.
   */
  lemma RefusalStopsTheDay(t: Terms, l: Limits, run: seq<Bot>, es: seq<Event>, i: nat, j: nat, c: Pass, later: Pass)
    requires IsRun(t, l, run, es) && i < j < |run| && es[i] == Cycle(c) && !CycleRisk(l, run[i].risk, run[i].account, c).1
    requires KstDay(run[i + 1].now) == KstDay(c.checkedAt) == KstDay(run[j].now) == KstDay(later.checkedAt)
    requires forall k :: i < k < j ==> !es[k].Resume?
    ensures After(t, l, run[j], Cycle(later)).account == run[j].account
  {
    hide DailyLoss, Snapshot.EquityKrw, CycleAccount, OrdersOn, WellKept, KstDay;
    assert run[i + 1] == After(t, l, run[i], es[i]);
    if run[i + 1].risk.haltedFor == Some(KstDay(c.checkedAt)) {
      TodayHaltLasts(t, l, run, es, i + 1, j, KstDay(c.checkedAt));
    } else {
      ManualHaltLasts(t, l, run, es, i + 1, j);
    }
    assert WellKept(run[j].account);
    HaltedCycleDoesNothing(t, l, run[j], later);
  }

  // ---------------------------------------------------------------- when a cycle trades, and what

  /**
   An allowed cycle places its orders if and only if a market is open, it is forced or one of the open markets is due for
   a rebalance, and the strategies named targets; every order it plans is for a symbol of an open market, and it plans
   none while the account is worth nothing.
   */
  lemma CycleTradesWhenDue(t: Terms, l: Limits, r: RiskState, a: Account, m: Moment)
    requires WellKept(a) && m.view.usdKrw > 0.0
    ensures var c := PassOf(a, m);
            var due := && m.markets != [] && m.targets.keys != []
                       && (m.force || exists k :: k in m.markets && IsRebalanceDay(m.cadence, if k in m.calendar then Some(m.calendar[k]) else None));
            CycleAccount(t, l, r, a, c)
            == if CycleRisk(l, r, a, c).1 && due then PlacedAll(t, l, a, m.view, c.planned, |c.planned|).0 else a
    ensures SnapshotOf(a, m.view).EquityKrw() <= 0.0 ==> PassOf(a, m).planned == []
    ensures forall i :: 0 <= i < |PassOf(a, m).planned| ==> CountryOf(PassOf(a, m).planned[i].intent.symbol) in m.markets
  {
    hide CycleRisk, PlacedAll, IsRebalanceDay, Intended, Snapshot.EquityKrw, SymbolsOf, CountryOf, WellKept;
    var snap := SnapshotOf(a, m.view);
    SymbolsAreAll(m.targets, snap);
    var ps := Intended(m.targets, snap, m.Markets(), m.quotes, SymbolsOf(m.targets, snap));
    if snap.EquityKrw() > 0.0 { IntendedAre(m.targets, snap, m.Markets(), m.quotes, SymbolsOf(m.targets, snap)); }
    if snap.EquityKrw() <= 0.0 { NothingWithoutEquity(m.targets, snap, m.Markets(), m.quotes, SymbolsOf(m.targets, snap)); }
    forall i | 0 <= i < |ps| ensures CountryOf(ps[i].intent.symbol) in m.markets {
      PlannedIsOpen(m.targets, snap, m.Markets(), m.quotes, ps[i].intent.symbol);
    }
  }

  /**
   Every order of a cycle is checked against the account that the orders before it left, at the market data read after
   the last of them that was filled; it is filled if and only if it passes and the broker accepts it, and else changes nothing.
   */
  lemma EveryOrderIsGated(t: Terms, l: Limits, a: Account, v: View, ps: seq<Planned>, n: nat)
    requires WellKept(a) && n < |ps|
    ensures var before, now, p := PlacedAll(t, l, a, v, ps, n), PlacedAll(t, l, a, v, ps, n + 1), ps[n];
            if !CheckOrder(l, SnapshotOf(before.0, before.1), p.intent, p.price, p.warned, before.0.orderTimes, p.checkedAt)
               || Assess(t, before.0, p.intent, p.quote, p.submittedAt).Err?
            then now == before
            else
              && |now.0.fills| == |before.0.fills| + 1 && now.0.fills[..|before.0.fills|] == before.0.fills
              && now.0.orderTimes == before.0.orderTimes + [p.submittedAt] && now.1 == p.after
    ensures PlacedAll(t, l, a, v, ps, 0) == (a, v)
  {
    hide CheckOrder, OutlayKrw, ProceedsKrw, RequestedQuantity, ExecutionPrice, CostModel.CostOf, KeepPositive, Put, RawDict.Get, RawDict.Valid, AverageAfter, WellKept;
    var before := PlacedAll(t, l, a, v, ps, n);
    if Assess(t, before.0, ps[n].intent, ps[n].quote, ps[n].submittedAt).Ok? {
      AssessedFill(t, before.0, ps[n].intent, ps[n].quote, ps[n].submittedAt);
    }
  }

  lemma NothingWithoutEquity(targets: Dict, snap: Snapshot, markets: set<Country>, quotes: map<Symbol, real>, symbols: seq<Symbol>)
    requires snap.usdKrw > 0.0 && snap.EquityKrw() <= 0.0
    ensures Intended(targets, snap, markets, quotes, symbols) == []
  {
    hide Snapshot.EquityKrw;
  }

  lemma PlannedIsOpen(targets: Dict, snap: Snapshot, markets: set<Country>, quotes: map<Symbol, real>, s: Symbol)
    requires snap.usdKrw > 0.0 && PlanFor(targets, snap, markets, quotes, s).Some?
    ensures CountryOf(s) in markets
  {
    hide SharesFor, UnitPrice, SellShares, CountryOf, FxFor, Snapshot.EquityKrw;
  }

  // ---------------------------------------------------------------- the order budget

  /** No UTC day is over budget, and no order is dated after `now`. */
  ghost predicate WithinBudget(l: Limits, times: seq<int>, now: int) {
    && (forall day :: OrdersOn(times, day) == 0 || OrdersOn(times, day) <= l.maxOrdersPerDay)
    && (forall i :: 0 <= i < |times| ==> times[i] <= now)
  }

  lemma {:induction false} NoneOnFreshDay(times: seq<int>, day: int)
    requires forall i :: 0 <= i < |times| ==> UtcDay(times[i]) < day
    ensures OrdersOn(times, day) == 0
  {
    if |times| > 0 { NoneOnFreshDay(times[..|times| - 1], day); }
  }

  lemma DayIsMonotone(a: int, b: int)
    requires a <= b
    ensures UtcDay(a) <= UtcDay(b)
  {
  }

  /** The budget survives the gap between check and submission, even across midnight. */
  lemma OneMoreOrder(l: Limits, times: seq<int>, now: int, checkedAt: int, submittedAt: int)
    requires WithinBudget(l, times, now) && now <= checkedAt <= submittedAt
    requires OrdersOn(times, UtcDay(checkedAt)) < l.maxOrdersPerDay
    ensures WithinBudget(l, times + [submittedAt], submittedAt)
  {
    hide UtcDay;
    var more := times + [submittedAt];
    assert more[..|times|] == times;
    DayIsMonotone(checkedAt, submittedAt);
    if UtcDay(checkedAt) < UtcDay(submittedAt) {
      forall i | 0 <= i < |times| ensures UtcDay(times[i]) < UtcDay(submittedAt) { DayIsMonotone(times[i], checkedAt); }
      NoneOnFreshDay(times, UtcDay(submittedAt));
    }
    forall day ensures OrdersOn(more, day) == 0 || OrdersOn(more, day) <= l.maxOrdersPerDay {
      assert OrdersOn(more, day) == OrdersOn(times, day) + if UtcDay(submittedAt) == day then 1 else 0;
    }
  }

  lemma PlacedKeepsBudget(t: Terms, l: Limits, a: Account, v: View, p: Planned, now: int)
    requires WellKept(a) && WithinBudget(l, a.orderTimes, now) && now <= p.checkedAt <= p.submittedAt
    ensures WithinBudget(l, Placed(t, l, a, v, p).0.orderTimes, p.submittedAt)
  {
    hide Snapshot.EquityKrw, Snapshot.PositionValueKrw, OutlayKrw, RequestedQuantity, WithinBudget, IsWhole, UtcDay;
    LaterIsFine(l, a.orderTimes, now, p.submittedAt);
    if CheckOrder(l, SnapshotOf(a, v), p.intent, p.price, p.warned, a.orderTimes, p.checkedAt) {
      if Assess(t, a, p.intent, p.quote, p.submittedAt).Ok? {
        AssessedFill(t, a, p.intent, p.quote, p.submittedAt);
        OneMoreOrder(l, a.orderTimes, now, p.checkedAt, p.submittedAt);
      }
    }
  }

  lemma LaterIsFine(l: Limits, times: seq<int>, now: int, later: int)
    requires WithinBudget(l, times, now) && now <= later
    ensures WithinBudget(l, times, later)
  {
  }

  lemma {:induction false} PlacedAllKeepsBudget(t: Terms, l: Limits, a: Account, c: Pass, n: nat, now: int)
    requires WellKept(a) && WithinBudget(l, a.orderTimes, now) && InTime(Bot(RiskState(false, None, map[]), a, now), Cycle(c)) && n <= |c.planned|
    ensures WithinBudget(l, PlacedAll(t, l, a, c.view, c.planned, n).0.orderTimes, if n == 0 then c.checkedAt else c.planned[n - 1].submittedAt)
  {
    hide Placed, WithinBudget, WellKept;
    if n == 0 {
      LaterIsFine(l, a.orderTimes, now, c.checkedAt);
    } else {
      PlacedAllKeepsBudget(t, l, a, c, n - 1, now);
      var before := PlacedAll(t, l, a, c.view, c.planned, n - 1);
      PlacedKeepsBudget(t, l, before.0, before.1, c.planned[n - 1], if n == 1 then c.checkedAt else c.planned[n - 2].submittedAt);
    }
  }

  /** In no run does any UTC day ever hold more orders than the limit. */
  lemma {:induction false} BudgetHoldsInEveryRun(t: Terms, l: Limits, run: seq<Bot>, es: seq<Event>, n: nat)
    requires IsRun(t, l, run, es) && n < |run|
    requires WithinBudget(l, run[0].account.orderTimes, run[0].now)
    ensures WithinBudget(l, run[n].account.orderTimes, run[n].now)
  {
    hide WithinBudget, CycleRisk, PlacedAll, WellKept;
    if n > 0 {
      BudgetHoldsInEveryRun(t, l, run, es, n - 1);
      var b, e := run[n - 1], es[n - 1];
      assert InTime(b, e) && run[n] == After(t, l, b, e);
      ClockAdvances(t, l, run, es, n - 1, n);
      LaterIsFine(l, b.account.orderTimes, b.now, run[n].now);
      match e
      case Cycle(c) => PlacedAllKeepsBudget(t, l, b.account, c, |c.planned|, b.now);
      case ResetPaper(_, _) => EmptyBudget(l, run[n].now);
      case _ =>
    }
  }

  /** So it holds for every history of a bot that starts with a funded paper account and no orders. */
  lemma BudgetHoldsFromTheStart(t: Terms, l: Limits, cash: real, start: int, es: seq<Event>, n: nat, day: int)
    requires n <= |es| && forall i :: 0 <= i < |es| ==> InTime(BotAfter(t, l, FundedBot(cash, start), es, i), es[i])
    ensures var orders := OrdersDated(BotAfter(t, l, FundedBot(cash, start), es, n).account.orderTimes, day);
            |orders| == 0 || |orders| <= l.maxOrdersPerDay
  {
    hide After, InTime, WellKept;
    OrdersOnCounts(BotAfter(t, l, FundedBot(cash, start), es, n).account.orderTimes, day);
    var run := RunFrom(t, l, FundedBot(cash, start), es);
    EventsMakeARun(t, l, FundedBot(cash, start), es);
    EmptyBudget(l, start);
    BudgetHoldsInEveryRun(t, l, run, es, n);
  }

  lemma EmptyBudget(l: Limits, now: int)
    ensures WithinBudget(l, [], now)
  {
  }

  // ---------------------------------------------------------------- the daily-loss guard

  /** Seconds since midnight KST. */
  function KstTime(t: int): int {
    (t + KST_OFFSET) % DAY
  }

  lemma DatesAgreeFromNine(t: int)
    ensures UtcDay(t) == KstDay(t) <==> KstTime(t) >= KST_OFFSET
    ensures KstTime(t) < KST_OFFSET ==> UtcDay(t) == KstDay(t) - 1
  {
  }

  /**
   The baseline is looked up by KST date among marks dated in UTC. Right after a cycle has marked its
   equity there is one exactly from 09:00 KST on; before that hour the guard sees no loss at all, and
   in particular never on the scheduled 04:30 cycle.
   */
  lemma BaselineExistsIffAfterNine(r: RiskState, equity: real, markedAt: int, checkedAt: int)
    requires forall u :: u in r.marks ==> u <= checkedAt
    requires markedAt <= checkedAt && KstDay(markedAt) == KstDay(checkedAt) && UtcDay(markedAt) == UtcDay(checkedAt)
    ensures FirstEquity(Marked(r, markedAt, equity).marks, KstDay(checkedAt)).Some? <==> KstTime(checkedAt) >= KST_OFFSET
    ensures KstTime(checkedAt) < KST_OFFSET ==> DailyLoss(Marked(r, markedAt, equity), equity, checkedAt) == None
  {
    hide FirstEquity;
    DatesAgreeFromNine(checkedAt);
    var marks := Marked(r, markedAt, equity).marks;
    assert markedAt in marks;
    forall u | u in marks ensures UtcDay(u) <= UtcDay(checkedAt) { DayIsMonotone(u, checkedAt); }
  }
}
