/**
 The risk layer and the trading cycle (src/tqt/risk.py, src/tqt/runner.py) over the persisted state
 (src/tqt/data/store.py): kill switch, equity marks and the paper ledger. Time is UTC seconds.
 The kill switch lives in the store, so a restart of the process changes nothing here.
 */
module Risk {
  import opened Wrappers
  import opened RealFacts
  import opened OrderedDict
  import opened Costs
  import opened Broker
  import opened Calendar
  import opened Intents
  import opened Paper

  const DAY := 86400
  const KST_OFFSET := 32400

  function UtcDay(t: int): int {
    t / DAY
  }

  function KstDay(t: int): int {
    (t + KST_OFFSET) / DAY
  }

  datatype Limits = Limits(
    maxPositionWeight: real, defensive: set<Symbol>, maxDefensiveWeight: real,
    maxDailyLoss: real, maxOrdersPerDay: int, maxGrossExposure: real)
  {
    function WeightLimit(s: Symbol): real {
      if s in defensive then Max(maxDefensiveWeight, maxPositionWeight) else maxPositionWeight
    }
  }

  /** The keys `halted` and `halted_for_date` of the state table, and the paper rows of the equity table. */
  datatype RiskState = RiskState(halted: bool, haltedFor: Option<int>, marks: map<int, real>)

  predicate IsHalted(r: RiskState, now: int) {
    r.halted || r.haltedFor == Some(KstDay(now))
  }

  function Halted(r: RiskState, todayOnly: bool, now: int): RiskState {
    if todayOnly then r.(haltedFor := Some(KstDay(now))) else r.(halted := true)
  }

  function Resumed(r: RiskState): RiskState {
    r.(halted := false, haltedFor := None)
  }

  /** INSERT OR REPLACE INTO equity, keyed by the second. */
  function Marked(r: RiskState, at: int, equity: real): RiskState {
    r.(marks := r.marks[at := equity])
  }

  function Unmarked(r: RiskState): RiskState {
    r.(marks := map[])
  }

  /** `t` is the earliest mark whose UTC date reads `day`. */
  ghost predicate FirstOfDay(marks: map<int, real>, day: int, t: int) {
    t in marks && UtcDay(t) == day && forall u :: u in marks && UtcDay(u) == day ==> t <= u
  }

  /** first_equity_of_day: scan the marks in time order for a UTC date. */
  function FirstEquity(marks: map<int, real>, day: int): (r: Option<real>)
    ensures r.None? <==> forall u :: u in marks ==> UtcDay(u) != day
    ensures r.Some? ==> exists t :: FirstOfDay(marks, day, t) && r.value == marks[t]
  {
    Scan(marks, day, day * DAY)
  }

  /** The earliest mark from second `t` of the day on. */
  function Scan(marks: map<int, real>, day: int, t: int): (r: Option<real>)
    requires day * DAY <= t <= (day + 1) * DAY
    requires forall u :: u in marks && UtcDay(u) == day ==> t <= u
    ensures r.None? <==> forall u :: u in marks ==> UtcDay(u) != day
    ensures r.Some? ==> exists f :: FirstOfDay(marks, day, f) && r.value == marks[f]
    decreases (day + 1) * DAY - t
  {
    if t == (day + 1) * DAY then None
    else if t in marks then
      assert FirstOfDay(marks, day, t);
      Some(marks[t])
    else Scan(marks, day, t + 1)
  }

  /** daily_loss: today's return against the baseline that is looked up under today's KST date. */
  function DailyLoss(r: RiskState, equity: real, now: int): Option<real> {
    match FirstEquity(r.marks, KstDay(now))
    case None => None
    case Some(opening) => if opening <= 0.0 then None else Some((equity - opening) / opening)
  }

  /** Orders submitted on a UTC date. */
  function OrdersOn(times: seq<int>, day: int): nat {
    if |times| == 0 then 0
    else OrdersOn(times[..|times| - 1], day) + if UtcDay(times[|times| - 1]) == day then 1 else 0
  }

  /** check_cycle: the verdict, and the state with the halt it may impose. */
  function CycleVerdict(l: Limits, r: RiskState, equity: real, orderTimes: seq<int>, now: int): (RiskState, bool) {
    var loss := DailyLoss(r, equity, now);
    if IsHalted(r, now) then (r, false)
    else if loss.Some? && loss.value <= -l.maxDailyLoss then (Halted(r, true, now), false)
    else if OrdersOn(orderTimes, UtcDay(now)) >= l.maxOrdersPerDay then (Halted(r, true, now), false)
    else (r, true)
  }

  /** What a symbol's position is worth in won. */
  function HeldKrw(snap: Snapshot, s: Symbol): real {
    snap.MarkOf(s) * snap.holdings.Get(s) * FxFor(s, snap.usdKrw)
  }

  /** What an order is worth in won, at the price it is checked at. */
  function OrderKrw(snap: Snapshot, i: Intent, price: real): real {
    var fx := FxFor(i.symbol, snap.usdKrw);
    if i.orderAmount.Some? then i.orderAmount.value * fx
    else price * (if i.quantity.Some? then i.quantity.value else 0.0) * fx
  }

  predicate RatioAtMost(x: real, equity: real, limit: real)
    requires equity > 0.0
  {
    x / equity <= limit
  }

  /** check_order; `warned` says whether the exchange lists a disqualifying warning for the symbol. */
  predicate CheckOrder(l: Limits, snap: Snapshot, i: Intent, price: real, warned: bool, orderTimes: seq<int>, now: int) {
    var equity := snap.EquityKrw();
    var have := snap.holdings.Get(i.symbol);
    var notional := OrderKrw(snap, i, price);
    && equity > 0.0
    && OrdersOn(orderTimes, UtcDay(now)) < l.maxOrdersPerDay
    && (i.side == Buy ==>
          && RatioAtMost(HeldKrw(snap, i.symbol) + notional, equity, l.WeightLimit(i.symbol))
          && RatioAtMost(snap.PositionValueKrw() + notional, equity, l.maxGrossExposure)
          && notional <= snap.cash
          && !warned)
    && (i.side == Sell ==> have > 0.0 && (if i.quantity.Some? then i.quantity.value else 0.0) <= have)
  }

  // ---------------------------------------------------------------- one cycle

  /** What the market data calls answer for a snapshot. */
  datatype View = View(usdKrw: real, prices: map<Symbol, real>)

  function SnapshotOf(a: Account, v: View): Snapshot {
    Snapshot(a.cash, a.holdings, a.avgPrice, v.usdKrw, v.prices)
  }

  /** One planned order and what its two steps meet: the check, and later the submission. */
  datatype Planned = Planned(intent: Intent, price: real, warned: bool, checkedAt: int, quote: Quote, submittedAt: int, after: View)

  /** One pass of `_cycle`; `goesAhead` says that a market is open, it is a rebalance day and there are targets. */
  datatype Pass = Pass(view: View, markedAt: int, checkedAt: int, goesAhead: bool, planned: seq<Planned>)

  /** One order: blocked, rejected, or filled, in which case the snapshot is read again. */
  function Placed(t: Terms, l: Limits, a: Account, v: View, p: Planned): (r: (Account, View))
    requires WellKept(a)
    ensures WellKept(r.0)
  {
    if !CheckOrder(l, SnapshotOf(a, v), p.intent, p.price, p.warned, a.orderTimes, p.checkedAt) then (a, v)
    else
      match Assess(t, a, p.intent, p.quote, p.submittedAt)
      case Err(_) => (a, v)
      case Ok(f) =>
        AssessedFill(t, a, p.intent, p.quote, p.submittedAt);
        BookKeepsWell(a, f);
        (Book(a, f), p.after)
  }

  function PlacedAll(t: Terms, l: Limits, a: Account, v: View, ps: seq<Planned>, n: nat): (r: (Account, View))
    requires WellKept(a) && n <= |ps|
    ensures WellKept(r.0)
  {
    if n == 0 then (a, v)
    else
      var before := PlacedAll(t, l, a, v, ps, n - 1);
      Placed(t, l, before.0, before.1, ps[n - 1])
  }

  function CycleRisk(l: Limits, r: RiskState, a: Account, c: Pass): (RiskState, bool) {
    var equity := SnapshotOf(a, c.view).EquityKrw();
    CycleVerdict(l, Marked(r, c.markedAt, equity), equity, a.orderTimes, c.checkedAt)
  }

  /** _cycle: mark equity, check, and only then place the planned orders. */
  function CycleAccount(t: Terms, l: Limits, r: RiskState, a: Account, c: Pass): (b: Account)
    requires WellKept(a)
    ensures WellKept(b)
  {
    if CycleRisk(l, r, a, c).1 && c.goesAhead then PlacedAll(t, l, a, c.view, c.planned, |c.planned|).0 else a
  }

  // ---------------------------------------------------------------- what a cycle plans

  /** What the nth planned order meets at its check and at its submission, and the market data after a fill. */
  datatype Encounter = Encounter(warned: bool, checkedAt: int, quote: Quote, submittedAt: int, after: View)

  /** All that a cycle reads: markets and their calendars, the blended targets, quotes, and what its orders will meet. */
  datatype Moment = Moment(
    view: View, markedAt: int, checkedAt: int, force: bool, cadence: PlanCadence, markets: seq<Country>,
    calendar: map<Country, TradingDay>, targets: Dict, quotes: map<Symbol, real>, meets: nat -> Encounter)
  {
    function AnswerFor(c: Country): Option<TradingDay> {
      if c in calendar then Some(calendar[c]) else None
    }

    /** A market is open, it is forced or some market ends its period, and the strategies produced targets. */
    predicate GoesAhead() {
      && |markets| > 0
      && (force || exists i :: 0 <= i < |markets| && IsRebalanceDay(cadence, AnswerFor(markets[i])))
      && |targets.keys| > 0
    }

    function Markets(): set<Country> {
      set c | c in markets
    }
  }

  function Meeting(ps: seq<Plan>, meets: nat -> Encounter): seq<Planned> {
    seq(|ps|, i requires 0 <= i < |ps| =>
      var e := meets(i); Planned(ps[i].intent, ps[i].price, e.warned, e.checkedAt, e.quote, e.submittedAt, e.after))
  }

  /** The pass of a cycle: its orders are those planned from the snapshot it marked and checked. */
  function PassOf(a: Account, m: Moment): Pass
    requires m.view.usdKrw > 0.0
  {
    var snap := SnapshotOf(a, m.view);
    Pass(m.view, m.markedAt, m.checkedAt, m.GoesAhead(),
         Meeting(Intended(m.targets, snap, m.Markets(), m.quotes, SymbolsOf(m.targets, snap)), m.meets))
  }

  class RiskManager {
    const limits: Limits
    var halted: bool
    var haltedFor: Option<int>
    var marks: map<int, real>

    constructor (limits: Limits)
      ensures this.limits == limits && State() == RiskState(false, None, map[])
    {
      this.limits := limits;
      halted, haltedFor, marks := false, None, map[];
    }

    function State(): RiskState
      reads this
    {
      RiskState(halted, haltedFor, marks)
    }

    method Halt(todayOnly: bool, now: int)
      modifies this
      ensures State() == Halted(old(State()), todayOnly, now)
    {
      if todayOnly {
        haltedFor := Some(KstDay(now));
      } else {
        halted := true;
      }
    }

    method Resume()
      modifies this
      ensures State() == Resumed(old(State()))
    {
      halted, haltedFor := false, None;
    }

    method RecordEquity(at: int, equity: real)
      modifies this`marks
      ensures State() == Marked(old(State()), at, equity)
    {
      marks := marks[at := equity];
    }

    /** The paper rows of the equity table are deleted; the switches stay. */
    method ClearMarks()
      modifies this`marks
      ensures State() == Unmarked(old(State()))
    {
      marks := map[];
    }

    method CheckCycle(equity: real, orderTimes: seq<int>, now: int) returns (allowed: bool)
      modifies this
      ensures (State(), allowed) == CycleVerdict(limits, old(State()), equity, orderTimes, now)
    {
      hide FirstEquity;
      if halted || haltedFor == Some(KstDay(now)) {
        return false;
      }
      var loss := DailyLoss(State(), equity, now);
      if loss.Some? && loss.value <= -limits.maxDailyLoss {
        Halt(true, now);
        return false;
      }
      if OrdersOn(orderTimes, UtcDay(now)) >= limits.maxOrdersPerDay {
        Halt(true, now);
        return false;
      }
      return true;
    }
  }

  class Runner {
    const risk: RiskManager
    const broker: PaperBroker

    constructor (risk: RiskManager, broker: PaperBroker)
      ensures this.risk == risk && this.broker == broker
    {
      this.risk, this.broker := risk, broker;
    }

    /** `_cycle` from what it reads: whether to rebalance, the intents built from the snapshot, and the cycle itself. */
    method TradingCycle(m: Moment)
      requires WellKept(broker.State()) && m.view.usdKrw > 0.0
      modifies risk, broker
      ensures WellKept(broker.State())
      ensures risk.State() == CycleRisk(risk.limits, old(risk.State()), old(broker.State()), PassOf(old(broker.State()), m)).0
      ensures broker.State()
           == CycleAccount(broker.terms, risk.limits, old(risk.State()), old(broker.State()), PassOf(old(broker.State()), m))
    {
      hide CycleRisk, CycleAccount, WellKept, Intended, IsRebalanceDay;
      var snap := SnapshotOf(broker.State(), m.view);
      var due := m.force;
      for i := 0 to |m.markets|
        invariant due <==> m.force || exists j :: 0 <= j < i && IsRebalanceDay(m.cadence, m.AnswerFor(m.markets[j]))
      {
        if IsRebalanceDay(m.cadence, m.AnswerFor(m.markets[i])) {
          due := true;
        }
      }
      var goesAhead := |m.markets| > 0 && due && |m.targets.keys| > 0;
      var plans := BuildIntents(m.targets, snap, m.Markets(), m.quotes, SymbolsOf(m.targets, snap));
      Cycle(Pass(m.view, m.markedAt, m.checkedAt, goesAhead, Meeting(plans, m.meets)));
    }

    /** PaperBroker.reset, with the equity rows it deletes too: the account starts again, the kill switch stays. */
    method Reset(startingCash: real)
      modifies risk, broker
      ensures broker.State() == Funded(startingCash)
      ensures risk.State() == Unmarked(old(risk.State()))
    {
      broker.Reset(startingCash);
      risk.ClearMarks();
    }

    method Cycle(c: Pass)
      requires WellKept(broker.State())
      modifies risk, broker
      ensures WellKept(broker.State())
      ensures risk.State() == CycleRisk(risk.limits, old(risk.State()), old(broker.State()), c).0
      ensures broker.State() == CycleAccount(broker.terms, risk.limits, old(risk.State()), old(broker.State()), c)
    {
      hide Assess, Book, WellKept, CycleVerdict, CheckOrder, Snapshot.EquityKrw;
      ghost var a0 := broker.State();
      var equity := SnapshotOf(broker.State(), c.view).EquityKrw();
      risk.RecordEquity(c.markedAt, equity);
      var allowed := risk.CheckCycle(equity, broker.orderTimes, c.checkedAt);
      if !allowed || !c.goesAhead {
        return;
      }
      var view := c.view;
      for i := 0 to |c.planned|
        invariant WellKept(broker.State()) && WellKept(a0)
        invariant (broker.State(), view) == PlacedAll(broker.terms, risk.limits, a0, c.view, c.planned, i)
        invariant risk.State() == CycleRisk(risk.limits, old(risk.State()), a0, c).0
      {
        var p := c.planned[i];
        if !CheckOrder(risk.limits, SnapshotOf(broker.State(), view), p.intent, p.price, p.warned, broker.orderTimes, p.checkedAt) {
          continue;
        }
        var result := broker.Submit(p.intent, p.quote, p.submittedAt);
        if result.Ok? {
          view := p.after;
        }
      }
    }
  }
}
