/**
 Dates, periods and period ends (src/tqt/strategy/base.py), and the live runner's
 test for the last session of a period (src/tqt/runner.py).
 */
module Calendar {
  import opened Wrappers

  datatype RawDate = RawDate(year: int, month: int, day: int)
  {
    predicate Valid() {
      year >= 1 && 1 <= month <= 12 && 1 <= day <= MonthLength(year, month)
    }

    /** Days since Monday, 1 January of year 1. */
    function Ordinal(): int
      requires 1 <= month <= 12
    {
      MonthStart(year, month) + day - 1
    }
  }

  type Date = d: RawDate | d.Valid() witness RawDate(1, 1, 1)

  predicate Leap(y: int) {
    y % 4 == 0 && (y % 100 != 0 || y % 400 == 0)
  }

  function MonthLength(y: int, m: int): int
    requires 1 <= m <= 12
  {
    if m == 2 then (if Leap(y) then 29 else 28)
    else if m in {4, 6, 9, 11} then 30 else 31
  }

  function YearStart(y: int): int {
    365 * (y - 1) + (y - 1) / 4 - (y - 1) / 100 + (y - 1) / 400
  }

  function MonthStart(y: int, m: int): int
    requires 1 <= m <= 12
  {
    YearStart(y)
    + [0, 31, 59, 90, 120, 151, 181, 212, 243, 273, 304, 334][m - 1]
    + if m > 2 && Leap(y) then 1 else 0
  }

  lemma QuotientSteps(y: int)
    ensures y / 4 == (y - 1) / 4 + if y % 4 == 0 then 1 else 0
    ensures y / 100 == (y - 1) / 100 + if y % 100 == 0 then 1 else 0
    ensures y / 400 == (y - 1) / 400 + if y % 400 == 0 then 1 else 0
  {
  }

  lemma CenturiesAreFourfold(y: int)
    ensures y % 400 == 0 ==> y % 100 == 0
    ensures y % 100 == 0 ==> y % 4 == 0
  {
    if y % 400 == 0 { FourHundreds(y, y / 400); }
    if y % 100 == 0 { Hundreds(y, y / 100); }
  }

  lemma FourHundreds(y: int, k: int)
    requires y == 400 * k
    ensures y % 100 == 0
  {
    var c := 4 * k;
    assert y == 100 * c;
  }

  lemma Hundreds(y: int, k: int)
    requires y == 100 * k
    ensures y % 4 == 0
  {
    var c := 25 * k;
    assert y == 4 * c;
  }

  lemma YearFollows(y: int)
    ensures YearStart(y + 1) == YearStart(y) + if Leap(y) then 366 else 365
  {
    QuotientSteps(y);
    CenturiesAreFourfold(y);
  }

  lemma {:induction false} YearsApart(y: int, z: int)
    requires y <= z
    ensures YearStart(z) >= YearStart(y) + 365 * (z - y)
    decreases z - y
  {
    if y < z {
      YearFollows(z - 1);
      YearsApart(y, z - 1);
    }
  }

  lemma InItsYear(d: Date)
    ensures YearStart(d.year) <= d.Ordinal() < YearStart(d.year + 1)
  {
    YearFollows(d.year);
  }

  /** The Thursday of d's week: it decides which year the week belongs to. */
  function Thursday(d: Date): int {
    d.Ordinal() - d.Ordinal() % 7 + 3
  }

  function IsoYear(d: Date): int {
    if Thursday(d) < YearStart(d.year) then d.year - 1
    else if Thursday(d) >= YearStart(d.year + 1) then d.year + 1
    else d.year
  }

  function IsoWeek(d: Date): int {
    (Thursday(d) - YearStart(IsoYear(d))) / 7 + 1
  }

  lemma ThursdayInIsoYear(d: Date)
    ensures YearStart(IsoYear(d)) <= Thursday(d) < YearStart(IsoYear(d) + 1)
  {
    hide YearStart, Leap, RawDate.Ordinal, RawDate.Valid;
    InItsYear(d);
    YearFollows(d.year - 1);
    YearFollows(d.year);
    YearFollows(d.year + 1);
  }

  /** ISO weeks are numbered from the one that holds the year's first Thursday, and there are at most 53 of them. */
  lemma IsoWeeksAreNumbered(d: Date)
    ensures 1 <= IsoWeek(d) <= 53
    ensures 7 * (IsoWeek(d) - 1) <= Thursday(d) - YearStart(IsoYear(d)) < 7 * IsoWeek(d)
    ensures d.Ordinal() - 3 <= Thursday(d) <= d.Ordinal() + 3 && Thursday(d) % 7 == 3
  {
    hide YearStart, Leap, RawDate.Ordinal, IsoYear;
    ThursdayInIsoYear(d);
    YearFollows(IsoYear(d));
  }

  lemma YearOfDayIsUnique(n: int, y: int, z: int)
    requires YearStart(y) <= n < YearStart(y + 1) && YearStart(z) <= n < YearStart(z + 1)
    ensures y == z
  {
    hide YearStart;
    if y < z { YearsApart(y + 1, z); }
    if z < y { YearsApart(z + 1, y); }
  }

  datatype Cadence = Monthly | Weekly | Yearly

  /** The key that groups a trading calendar into periods. */
  function Period(c: Cadence, d: Date): (int, int) {
    match c
    case Monthly => (d.year, d.month)
    case Weekly => (IsoYear(d), IsoWeek(d))
    case Yearly => (d.year, 0)
  }

  /** Periods numbered in time order. */
  function PeriodRank(c: Cadence, d: Date): int {
    match c
    case Monthly => 12 * d.year + d.month
    case Weekly => d.Ordinal() / 7
    case Yearly => d.year
  }

  lemma SameWeek(a: Date, b: Date)
    ensures Period(Weekly, a) == Period(Weekly, b) <==> a.Ordinal() / 7 == b.Ordinal() / 7
  {
    hide YearStart, RawDate.Ordinal, Thursday, IsoYear;
    ThursdayOfWeek(a);
    ThursdayOfWeek(b);
    if a.Ordinal() / 7 == b.Ordinal() / 7 {
      ThursdayInIsoYear(a);
      ThursdayInIsoYear(b);
      YearOfDayIsUnique(Thursday(a), IsoYear(a), IsoYear(b));
    } else if IsoYear(a) == IsoYear(b) {
      WeeksOfYear(a.Ordinal() / 7, b.Ordinal() / 7, YearStart(IsoYear(a)));
    }
  }

  lemma ThursdayOfWeek(d: Date)
    ensures Thursday(d) == 7 * (d.Ordinal() / 7) + 3
  {
    hide RawDate.Ordinal;
  }

  lemma WeeksOfYear(v: int, w: int, start: int)
    requires v != w
    ensures (7 * v + 3 - start) / 7 != (7 * w + 3 - start) / 7
  {
    assert (7 * v + 3 - start) / 7 == v + (3 - start) / 7;
    assert (7 * w + 3 - start) / 7 == w + (3 - start) / 7;
  }

  lemma RankNumbersPeriods(c: Cadence, a: Date, b: Date)
    ensures Period(c, a) == Period(c, b) <==> PeriodRank(c, a) == PeriodRank(c, b)
  {
    if c == Weekly { SameWeek(a, b); }
  }

  lemma RankIsMonotone(c: Cadence, a: Date, b: Date)
    requires a.Ordinal() <= b.Ordinal()
    ensures PeriodRank(c, a) <= PeriodRank(c, b)
  {
    EarlierYear(a, b);
    if a.year == b.year && b.month < a.month { EarlierMonth(a.year, b, a); }
  }

  lemma EarlierYear(a: Date, b: Date)
    requires a.Ordinal() <= b.Ordinal()
    ensures a.year <= b.year
  {
    hide YearStart;
    InItsYear(a);
    InItsYear(b);
    if b.year < a.year { YearsApart(b.year + 1, a.year); }
  }

  lemma EarlierMonth(year: int, a: Date, b: Date)
    requires a.year == b.year == year && a.month < b.month
    ensures a.Ordinal() < b.Ordinal()
  {
    hide YearStart, Leap;
  }

  ghost predicate Sorted(index: seq<Date>) {
    forall i, j :: 0 <= i < j < |index| ==> index[i].Ordinal() < index[j].Ordinal()
  }

  /** groupby(period).last(): the last date seen of every period. */
  function LastOfPeriod(c: Cadence, index: seq<Date>): map<(int, int), Date> {
    if |index| == 0 then map[]
    else
      var d := index[|index| - 1];
      LastOfPeriod(c, index[..|index| - 1])[Period(c, d) := d]
  }

  /** month_end_dates, week_end_dates and the yearly dates of buy-and-hold. */
  function PeriodEnds(c: Cadence, index: seq<Date>): set<Date> {
    LastOfPeriod(c, index).Values
  }

  ghost predicate LastWithPeriod(c: Cadence, index: seq<Date>, p: (int, int), i: int) {
    0 <= i < |index| && Period(c, index[i]) == p && forall j :: i < j < |index| ==> Period(c, index[j]) != p
  }

  lemma {:induction false} LastOfPeriodKeys(c: Cadence, index: seq<Date>, p: (int, int))
    requires p in LastOfPeriod(c, index)
    ensures Period(c, LastOfPeriod(c, index)[p]) == p
  {
    var n := |index| - 1;
    if p != Period(c, index[n]) { LastOfPeriodKeys(c, index[..n], p); }
  }

  lemma {:induction false} LastOfPeriodAt(c: Cadence, index: seq<Date>, p: (int, int), k: int)
    requires LastWithPeriod(c, index, p, k)
    ensures p in LastOfPeriod(c, index) && LastOfPeriod(c, index)[p] == index[k]
  {
    var n := |index| - 1;
    hide Period;
    if k < n { LastOfPeriodAt(c, index[..n], p, k); }
  }

  lemma {:induction false} FindLast(c: Cadence, index: seq<Date>, i: nat) returns (k: nat)
    requires i < |index|
    ensures i <= k && LastWithPeriod(c, index, Period(c, index[i]), k)
  {
    hide Period;
    var n := |index| - 1;
    if Period(c, index[n]) == Period(c, index[i]) {
      k := n;
    } else {
      k := FindLast(c, index[..n], i);
    }
  }

  lemma SortedIsInjective(index: seq<Date>, i: nat, j: nat)
    requires Sorted(index) && i < |index| && j < |index| && index[i] == index[j]
    ensures i == j
  {
  }

  /**
   On a sorted calendar, whether a session that is not the newest ends its period is decided
   by the very next session: no later date can change the answer.
   */
  lemma PeriodEndIsLocal(c: Cadence, index: seq<Date>, i: nat)
    requires Sorted(index) && i + 1 < |index|
    ensures index[i] in PeriodEnds(c, index) <==> Period(c, index[i]) != Period(c, index[i + 1])
  {
    var m, p := LastOfPeriod(c, index), Period(c, index[i]);
    var k := FindLast(c, index, i);
    LastOfPeriodAt(c, index, p, k);
    if index[i] in m.Values {
      var q :| q in m && m[q] == index[i];
      LastOfPeriodKeys(c, index, q);
      SortedIsInjective(index, i, k);
    } else {
      assert m[p] in m.Values;
      RankIsMonotone(c, index[i], index[i + 1]);
      RankIsMonotone(c, index[i + 1], index[k]);
      RankNumbersPeriods(c, index[i], index[k]);
      RankNumbersPeriods(c, index[i], index[i + 1]);
    }
  }

  /** The newest session always counts as a period end. */
  lemma NewestIsPeriodEnd(c: Cadence, index: seq<Date>)
    requires |index| > 0
    ensures index[|index| - 1] in PeriodEnds(c, index)
  {
    var m := LastOfPeriod(c, index);
    assert m[Period(c, index[|index| - 1])] in m.Values;
  }

  // ---------------------------------------------------------------- the live test

  datatype PlanCadence = PlanMonthly | PlanWeekly | PlanDaily

  /** The exchange calendar's answer for a market. */
  datatype TradingDay = TradingDay(isOpen: bool, today: Date, nextBusinessDay: Date)

  /** Runner.is_rebalance_day; None stands for a calendar that could not be fetched or read. */
  predicate IsRebalanceDay(cadence: PlanCadence, answer: Option<TradingDay>) {
    match answer
    case None => false
    case Some(a) =>
      a.isOpen &&
      match cadence
      case PlanWeekly => IsoWeek(a.today) != IsoWeek(a.nextBusinessDay)
      case PlanDaily => true
      case PlanMonthly => a.today.month != a.nextBusinessDay.month
  }

  /** What the exchange answers on session i, when the calendar ahead is `index`. */
  function AnswerOn(index: seq<Date>, i: nat): Option<TradingDay>
    requires i + 1 < |index|
  {
    Some(TradingDay(true, index[i], index[i + 1]))
  }

  lemma SameMonthNumberIsFar(a: Date, b: Date)
    requires a.Ordinal() <= b.Ordinal() && a.month == b.month && a.year != b.year
    ensures b.Ordinal() - a.Ordinal() >= 335
  {
    hide YearStart, Leap;
    InItsYear(a);
    InItsYear(b);
    if b.year < a.year { YearsApart(b.year + 1, a.year); }
    YearsApart(a.year, b.year);
    YearFollows(a.year);
    YearsApart(a.year + 1, b.year);
  }

  lemma SameWeekNumberIsFar(a: Date, b: Date)
    requires a.Ordinal() <= b.Ordinal() && IsoWeek(a) == IsoWeek(b) && IsoYear(a) != IsoYear(b)
    ensures b.Ordinal() - a.Ordinal() >= 358
  {
    hide YearStart, RawDate.Ordinal, Thursday, IsoYear;
    ThursdayInIsoYear(a);
    ThursdayInIsoYear(b);
    ThursdayOfWeek(a);
    ThursdayOfWeek(b);
    assert a.Ordinal() / 7 <= b.Ordinal() / 7;
    if IsoYear(b) < IsoYear(a) { YearsApart(IsoYear(b) + 1, IsoYear(a)); }
    YearsApart(IsoYear(a), IsoYear(b));
    AlignedApart(a.Ordinal() / 7, b.Ordinal() / 7, YearStart(IsoYear(a)), YearStart(IsoYear(b)));
  }

  lemma AlignedApart(v: int, w: int, s: int, t: int)
    requires (7 * v + 3 - s) / 7 == (7 * w + 3 - t) / 7 && t - s >= 365
    ensures w - v >= 52
  {
  }

  /**
   Backtest and live act on the same sessions. The monthly test agrees with membership in
   month_end_dates exactly when the next session is not in the same month of another year.
   */
  lemma MonthlyTestAgreesIff(index: seq<Date>, i: nat)
    requires Sorted(index) && i + 1 < |index|
    ensures (IsRebalanceDay(PlanMonthly, AnswerOn(index, i)) <==> index[i] in PeriodEnds(Monthly, index))
       <==> (index[i].month == index[i + 1].month ==> index[i].year == index[i + 1].year)
    ensures index[i + 1].Ordinal() - index[i].Ordinal() < 335 ==>
              (IsRebalanceDay(PlanMonthly, AnswerOn(index, i)) <==> index[i] in PeriodEnds(Monthly, index))
  {
    PeriodEndIsLocal(Monthly, index, i);
    if index[i].month == index[i + 1].month && index[i].year != index[i + 1].year {
      SameMonthNumberIsFar(index[i], index[i + 1]);
    }
  }

  lemma WeeklyTestAgreesIff(index: seq<Date>, i: nat)
    requires Sorted(index) && i + 1 < |index|
    ensures (IsRebalanceDay(PlanWeekly, AnswerOn(index, i)) <==> index[i] in PeriodEnds(Weekly, index))
       <==> (IsoWeek(index[i]) == IsoWeek(index[i + 1]) ==> IsoYear(index[i]) == IsoYear(index[i + 1]))
    ensures index[i + 1].Ordinal() - index[i].Ordinal() < 358 ==>
              (IsRebalanceDay(PlanWeekly, AnswerOn(index, i)) <==> index[i] in PeriodEnds(Weekly, index))
  {
    PeriodEndIsLocal(Weekly, index, i);
    if IsoWeek(index[i]) == IsoWeek(index[i + 1]) && IsoYear(index[i]) != IsoYear(index[i + 1]) {
      SameWeekNumberIsFar(index[i], index[i + 1]);
    }
  }

  /** The bound on the gap is sharp: after a closure of 335 days the two monthly tests part ways. */
  lemma MonthlyBoundIsSharp(index: seq<Date>)
    requires index == [RawDate(2023, 1, 31), RawDate(2024, 1, 1)]
    ensures Sorted(index) && index[1].Ordinal() - index[0].Ordinal() == 335
    ensures index[0] in PeriodEnds(Monthly, index) && !IsRebalanceDay(PlanMonthly, AnswerOn(index, 0))
  {
    YearFollows(2023);
    PeriodEndIsLocal(Monthly, index, 0);
  }

  /** So is the weekly one: a Sunday, and the Monday of the same week number a year later. */
  lemma WeeklyBoundIsSharp(index: seq<Date>)
    requires index == [RawDate(2023, 1, 15), RawDate(2024, 1, 8)]
    ensures Sorted(index) && index[1].Ordinal() - index[0].Ordinal() == 358
    ensures index[0] in PeriodEnds(Weekly, index) && !IsRebalanceDay(PlanWeekly, AnswerOn(index, 0))
  {
    assert YearStart(2023) == 738520 && YearStart(2024) == 738885;
    assert index[0].Ordinal() == 738534 && index[1].Ordinal() == 738892;
    assert Thursday(index[0]) == 738531 && Thursday(index[1]) == 738895;
    PeriodEndIsLocal(Weekly, index, 0);
  }

  // ---------------------------------------------------------------- when the live bot rebalances

  /** The next day of the calendar. */
  function Tomorrow(d: Date): (r: RawDate)
    ensures r.Valid()
  {
    if d.day < MonthLength(d.year, d.month) then RawDate(d.year, d.month, d.day + 1)
    else if d.month < 12 then RawDate(d.year, d.month + 1, 1)
    else RawDate(d.year + 1, 1, 1)
  }

  /** Days are numbered one by one, across months, years and leap days; 1 January 2000 was a Saturday. */
  lemma DaysAreConsecutive(d: Date)
    ensures Tomorrow(d).Ordinal() == d.Ordinal() + 1
    ensures RawDate(2000, 1, 1).Ordinal() % 7 == 5 && MonthLength(2000, 2) == 29 && MonthLength(1900, 2) == 28 && MonthLength(2024, 2) == 29
  {
    AnchorDays();
    hide YearStart, Leap;
    YearFollows(d.year);
  }

  lemma AnchorDays()
    ensures RawDate(2000, 1, 1).Ordinal() % 7 == 5 && MonthLength(2000, 2) == 29 && MonthLength(1900, 2) == 28 && MonthLength(2024, 2) == 29
  {
    assert YearStart(2000) == 730119;
  }

  /**
   Exactly when the live bot rebalances a market: never on a day for which there is no calendar or that is closed;
   else every day if the plan is daily, and otherwise if the next business day lies in another month, or, for a weekly
   plan, in a week of another number: that is another week from Monday to Sunday as long as it is within 51 weeks.
   */
  lemma RebalanceDayIff(cadence: PlanCadence, answer: Option<TradingDay>)
    ensures answer.None? ==> !IsRebalanceDay(cadence, answer)
    ensures answer.Some? && !answer.value.isOpen ==> !IsRebalanceDay(cadence, answer)
    ensures answer.Some? && answer.value.isOpen && cadence == PlanDaily ==> IsRebalanceDay(cadence, answer)
    ensures answer.Some? && answer.value.isOpen && cadence == PlanMonthly ==>
              (IsRebalanceDay(cadence, answer) <==> answer.value.today.month != answer.value.nextBusinessDay.month)
    ensures answer.Some? && answer.value.isOpen && cadence == PlanWeekly
            && 0 <= answer.value.nextBusinessDay.Ordinal() - answer.value.today.Ordinal() <= 357 ==>
              (IsRebalanceDay(cadence, answer) <==> answer.value.today.Ordinal() / 7 != answer.value.nextBusinessDay.Ordinal() / 7)
  {
    hide RawDate.Ordinal, IsoYear, IsoWeek;
    if answer.Some? {
      var a, b := answer.value.today, answer.value.nextBusinessDay;
      SameWeek(a, b);
      if IsoWeek(a) == IsoWeek(b) && IsoYear(a) != IsoYear(b) && a.Ordinal() <= b.Ordinal() { SameWeekNumberIsFar(a, b); }
    }
  }
}
