/**
 When a cron schedule never errs, for every matcher: the Gregorian calendar, weekdays included,
 repeats after 400 years, so it is enough to look at the days of one such cycle.
 */
module CronCycle {
  import opened Wrappers
  import opened Calendar
  import opened CronSearch

  /** Days of 400 years, a whole number of weeks. */
  const CYCLE: int := 146097

  // ----- the calendar repeats ------------------------------------------------------------------

  lemma YearShift(y: int)
    ensures IsLeap(y + 400) == IsLeap(y) && DaysBeforeYear(y + 400) == DaysBeforeYear(y) + CYCLE
  {
    assert (y + 399) / 4 == (y - 1) / 4 + 100;
    assert (y + 399) / 100 == (y - 1) / 100 + 4;
    assert (y + 399) / 400 == (y - 1) / 400 + 1;
  }

  lemma {:induction false} MonthShift(y: int, m: int)
    requires 1 <= m <= 13
    ensures DaysBeforeMonth(y + 400, m) == DaysBeforeMonth(y, m)
    decreases m
  {
    if m > 1 {
      MonthShift(y, m - 1);
      YearShift(y);
    }
  }

  lemma DateShift(d: Date)
    requires ValidDate(d)
    ensures var e := Date(d.year + 400, d.month, d.day); ValidDate(e) && DayNumber(e) == DayNumber(d) + CYCLE
  {
    YearShift(d.year);
    MonthShift(d.year, d.month);
  }

  lemma CivilShift(day: int)
    ensures var d := CivilOf(day); CivilOf(day + CYCLE) == Date(d.year + 400, d.month, d.day)
  {
    var d := CivilOf(day);
    DateShift(d);
    CivilUnique(Date(d.year + 400, d.month, d.day));
  }

  lemma WeekdayShift(day: int)
    ensures Weekday(day + CYCLE) == Weekday(day)
  {
  }

  /** The days a matcher selects. */
  ghost function DayHits(m: CronMatcher): iset<int> {
    iset day: int | DayMatches(m, day)
  }

  lemma DaysRepeat(m: CronMatcher, day: int)
    ensures day in DayHits(m) <==> day + CYCLE in DayHits(m)
  {
    CivilShift(day);
    WeekdayShift(day);
    SameFields(m, day, day + CYCLE);
  }

  lemma SameFields(m: CronMatcher, a: int, b: int)
    requires CivilOf(a).month == CivilOf(b).month && CivilOf(a).day == CivilOf(b).day && Weekday(a) == Weekday(b)
    ensures a in DayHits(m) <==> b in DayHits(m)
  {
  }

  // ----- stretches of days ---------------------------------------------------------------------

  /** Some selected day lies in the lookahead window that opens on a day. */
  ghost predicate Reachable(days: iset<int>, from: int) {
    exists k :: from <= k < from + MAX_CRON_LOOKAHEAD_DAYS && k in days
  }

  ghost predicate Repeats(days: iset<int>) {
    forall k :: k in days <==> k + CYCLE in days
  }

  lemma ReachableShift(days: iset<int>, from: int)
    requires Repeats(days)
    ensures Reachable(days, from) <==> Reachable(days, from + CYCLE)
  {
    if k :| from <= k < from + MAX_CRON_LOOKAHEAD_DAYS && k in days {
      assert k + CYCLE in days;
    }
    if k :| from + CYCLE <= k < from + CYCLE + MAX_CRON_LOOKAHEAD_DAYS && k in days {
      assert k - CYCLE + CYCLE == k && k - CYCLE in days;
    }
  }

  /** If the window reaches a selected day from every day of one cycle, it does from every day. */
  lemma {:induction false} ReachableEverywhere(days: iset<int>, from: int)
    requires Repeats(days) && forall d :: 0 <= d < CYCLE ==> Reachable(days, d)
    ensures Reachable(days, from)
    decreases if from < 0 then -from else from
  {
    if from < 0 {
      if from + CYCLE <= 0 { ReachableEverywhere(days, from + CYCLE); }
      ReachableShift(days, from);
    } else if from >= CYCLE {
      ReachableEverywhere(days, from - CYCLE);
      ReachableShift(days, from - CYCLE);
    }
  }

  // ----- the search ----------------------------------------------------------------------------

  lemma HitOnSelectedDay(m: CronMatcher, day: int, h: int, n: int)
    requires day in DayHits(m) && h in m.hours && n in m.minutes && 0 <= h < 24 && 0 <= n < 60
    ensures day * 1440 + h * 60 + n in Hits(m)
  {
    ComposeMinute(day, h, n);
  }

  /** A selected time of day after the start falls inside the window, today or tomorrow onwards. */
  lemma TimeInWindow(start: int, from: int, day: int, tod: int)
    requires 0 <= tod < 1440
    requires from == if tod < start % 1440 then DayOf(start) + 1 else DayOf(start)
    requires from <= day < from + MAX_CRON_LOOKAHEAD_DAYS
    ensures start <= day * 1440 + tod < Limit(start)
  {
    assert start == 1440 * DayOf(start) + start % 1440;
  }

  lemma SearchSucceeds(m: CronMatcher, start: int)
    requires TimeFieldsUsable(m) && forall d :: Reachable(DayHits(m), d)
    ensures FirstMatch(Hits(m), start, Limit(start)).Some?
  {
    var h :| h in m.hours && 0 <= h < 24;
    var n :| n in m.minutes && 0 <= n < 60;
    var day := SelectedDay(DayHits(m), FirstDay(start, h * 60 + n));
    DayInWindowSucceeds(m, start, day, h, n);
  }

  lemma SelectedDay(days: iset<int>, from: int) returns (day: int)
    requires forall d :: Reachable(days, d)
    ensures from <= day < from + MAX_CRON_LOOKAHEAD_DAYS && day in days
  {
    assert Reachable(days, from);
    day :| from <= day < from + MAX_CRON_LOOKAHEAD_DAYS && day in days;
  }

  /** The first day whose given time is not before the start. */
  function FirstDay(start: int, tod: int): int {
    if tod < start % 1440 then DayOf(start) + 1 else DayOf(start)
  }

  lemma DayInWindowSucceeds(m: CronMatcher, start: int, day: int, h: int, n: int)
    requires h in m.hours && 0 <= h < 24 && n in m.minutes && 0 <= n < 60 && day in DayHits(m)
    requires FirstDay(start, h * 60 + n) <= day < FirstDay(start, h * 60 + n) + MAX_CRON_LOOKAHEAD_DAYS
    ensures FirstMatch(Hits(m), start, Limit(start)).Some?
  {
    HitOnSelectedDay(m, day, h, n);
    TimeInWindow(start, FirstDay(start, h * 60 + n), day, h * 60 + n);
    MemberIsFound(Hits(m), start, Limit(start), day * 1440 + h * 60 + n);
  }

  lemma MemberIsFound(hits: iset<int>, lo: int, hi: int, t: int)
    requires lo <= t < hi && t in hits
    ensures FirstMatch(hits, lo, hi).Some?
  {
    FirstMatchIsLeast(hits, lo, hi);
  }

  /** A search that starts at midnight fails if its window holds no selected day. */
  lemma SearchFails(m: CronMatcher, day: int)
    requires !Reachable(DayHits(m), day)
    ensures FirstMatch(Hits(m), day * 1440, Limit(day * 1440)).None?
  {
    var start := day * 1440;
    forall t | start <= t < Limit(start) ensures t !in Hits(m) {
      assert day <= DayOf(t) < day + MAX_CRON_LOOKAHEAD_DAYS;
      assert DayOf(t) !in DayHits(m);
    }
    FirstMatchIsLeast(Hits(m), start, Limit(start));
  }

  /**
   For every matcher with usable time-of-day fields, the search succeeds from every start if and only
   if, from each of the 146097 days of one cycle, some selected day is less than 1830 days away.
   */
  lemma NeverErrsIffNoLongGap(m: CronMatcher)
    requires TimeFieldsUsable(m)
    ensures (forall start :: FirstMatch(Hits(m), start, Limit(start)).Some?) <==>
            (forall day :: 0 <= day < CYCLE ==> Reachable(DayHits(m), day))
  {
    forall k ensures k in DayHits(m) <==> k + CYCLE in DayHits(m) {
      DaysRepeat(m, k);
    }
    if forall day :: 0 <= day < CYCLE ==> Reachable(DayHits(m), day) {
      forall d ensures Reachable(DayHits(m), d) {
        ReachableEverywhere(DayHits(m), d);
      }
      forall start ensures FirstMatch(Hits(m), start, Limit(start)).Some? {
        SearchSucceeds(m, start);
      }
    } else {
      var day :| 0 <= day < CYCLE && !Reachable(DayHits(m), day);
      SearchFails(m, day);
    }
  }

  // ----- a restricted weekday ------------------------------------------------------------------

  /** Noon on a Monday that is Christmas Day. */
  const MondayChristmas: CronMatcher := CronMatcher({0}, {12}, {25}, {12}, {1})

  lemma ChristmasDays(y: int)
    requires 2017 <= y <= 2022
    ensures DayNumber(Date(y, 12, 25)) == 17525 + 365 * (y - 2017) + (if y >= 2020 then 1 else 0)
  {
    assert DaysBeforeMonth(y, 12) == 334 + if IsLeap(y) then 1 else 0 by {
      assert DaysBeforeMonth(y, 3) == 59 + if IsLeap(y) then 1 else 0;
      assert DaysBeforeMonth(y, 7) == DaysBeforeMonth(y, 3) + 122;
    }
  }

  /** An annual date is not enough once weekdays are restricted: from 2017-12-26 this search errs. */
  lemma RestrictedWeekdayErrs()
    ensures HasAnnualDate(MondayChristmas) && TimeFieldsUsable(MondayChristmas)
    ensures FirstMatch(Hits(MondayChristmas), 17526 * 1440, Limit(17526 * 1440)).None?
  {
    var m := MondayChristmas;
    assert 12 in m.months && 25 in m.daysOfMonth && EveryYear(12, 25);
    assert 12 in m.hours && 0 in m.minutes;
    forall k | 17526 <= k < 17526 + MAX_CRON_LOOKAHEAD_DAYS ensures k !in DayHits(m) {
      if k in DayHits(m) {
        ChristmasNotMonday(CivilOf(k));
      }
    }
    SearchFails(m, 17526);
  }

  /** In that window Christmas falls on no Monday. */
  lemma ChristmasNotMonday(d: Date)
    requires ValidDate(d) && d.month == 12 && d.day == 25
    requires 17526 <= DayNumber(d) < 17526 + MAX_CRON_LOOKAHEAD_DAYS
    ensures Weekday(DayNumber(d)) != 1
  {
    if d.year > 2022 {
      AfterWindow(d);
    } else if d.year >= 2018 {
      ChristmasWeekday(d.year);
    } else {
      BeforeWindow(d);
    }
  }

  lemma ChristmasWeekday(y: int)
    requires 2018 <= y <= 2022
    ensures Weekday(DayNumber(Date(y, 12, 25))) != 1
  {
    ChristmasDays(y);
  }

  lemma BeforeWindow(d: Date)
    requires ValidDate(d) && d.year < 2018 && d.month == 12 && d.day == 25
    ensures DayNumber(d) < 17526
  {
    ChristmasDays(2017);
    if d.year < 2017 {
      DayNumberMonotone(d, Date(2017, 12, 25));
    }
  }

  lemma AfterWindow(d: Date)
    requires ValidDate(d) && d.year > 2022 && d.month == 12
    ensures DayNumber(d) >= 17526 + MAX_CRON_LOOKAHEAD_DAYS
  {
    DayNumberMonotone(Date(2023, 1, 15), d);
    assert DaysBeforeMonth(2023, 1) == 0;
  }

  // ----- where that search succeeds, and the edge of the window --------------------------------

  lemma ChristmasSelected(d: Date)
    requires ValidDate(d) && d.month == 12 && d.day == 25 && Zeller(d.year, 12, 25) == 1
    ensures DayNumber(d) in DayHits(MondayChristmas)
  {
    CivilUnique(d);
    WeekdayIsZeller(d);
  }

  lemma ChristmasMatches(day: int)
    requires day in DayHits(MondayChristmas)
    ensures CivilOf(day).month == 12 && CivilOf(day).day == 25 && Weekday(day) == 1
  {
  }

  lemma Christmas2017And2023()
    ensures DayNumber(Date(2017, 12, 25)) == 17525 && DayNumber(Date(2023, 12, 25)) == 19716
    ensures Zeller(2017, 12, 25) == 1 && Zeller(2023, 12, 25) == 1
  {
    ChristmasDays(2017);
    assert DaysBeforeMonth(2023, 3) == 59;
    assert DaysBeforeMonth(2023, 7) == 181;
    assert DaysBeforeMonth(2023, 12) == 334;
  }

  /** The first noon of a selected day from a midnight on, when no day before is selected. */
  lemma NoonFound(start: int, day: int)
    requires start <= day < start + MAX_CRON_LOOKAHEAD_DAYS && day in DayHits(MondayChristmas)
    requires forall k :: start <= k < day ==> k !in DayHits(MondayChristmas)
    ensures FirstMatch(Hits(MondayChristmas), start * 1440, Limit(start * 1440)) == Some(day * 1440 + 720)
  {
    var m, lo := MondayChristmas, start * 1440;
    HitOnSelectedDay(m, day, 12, 0);
    forall t | lo <= t < day * 1440 + 720 ensures t !in Hits(m) {
      NotBeforeNoon(start, day, t);
    }
    LeastIsFound(Hits(m), lo, Limit(lo), day * 1440 + 720);
  }

  lemma LeastIsFound(hits: iset<int>, lo: int, hi: int, r: int)
    requires lo <= r < hi && r in hits && forall t :: lo <= t < r ==> t !in hits
    ensures FirstMatch(hits, lo, hi) == Some(r)
  {
    FirstMatchIsLeast(hits, lo, hi);
  }

  lemma NotBeforeNoon(start: int, day: int, t: int)
    requires start * 1440 <= t < day * 1440 + 720 && forall k :: start <= k < day ==> k !in DayHits(MondayChristmas)
    ensures t !in Hits(MondayChristmas)
  {
    assert start <= DayOf(t) <= day;
    if DayOf(t) == day {
      assert HourOf(t) < 12;
    } else {
      assert DayOf(t) !in DayHits(MondayChristmas);
    }
  }

  /** From the midnight before it, the search finds Monday 2017-12-25 at noon. */
  lemma MondayChristmasFound(day: int)
    requires day == DayNumber(Date(2017, 12, 25))
    ensures FirstMatch(Hits(MondayChristmas), day * 1440, Limit(day * 1440)) == Some(day * 1440 + 720)
  {
    Christmas2017And2023();
    ChristmasSelected(Date(2017, 12, 25));
    NoonFound(day, day);
  }

  /** No Christmas between those of 2017 and 2023 is a Monday. */
  lemma NoMondayBetween(k: int)
    requires 17526 <= k < 19716
    ensures k !in DayHits(MondayChristmas)
  {
    if k in DayHits(MondayChristmas) {
      ChristmasMatches(k);
      var d := CivilOf(k);
      Christmas2017And2023();
      if d.year > 2022 {
        if d.year > 2023 { DayNumberMonotone(Date(2023, 12, 25), d); }
      } else if d.year >= 2018 {
        ChristmasWeekday(d.year);
      } else {
        BeforeWindow(d);
      }
    }
  }

  /** A selected day with none selected in the 1830 days before it. */
  ghost predicate Isolated(day: int) {
    day in DayHits(MondayChristmas) && forall k :: day - 1830 <= k < day ==> k !in DayHits(MondayChristmas)
  }

  /** The Monday of 2023 is such a day. */
  lemma Monday2023(day: int)
    requires day == 19716
    ensures Isolated(day)
  {
    Selected2023(day);
    NoneBefore2023(day);
  }

  lemma NoneBefore2023(day: int)
    requires day == 19716
    ensures forall k :: day - 1830 <= k < day ==> k !in DayHits(MondayChristmas)
  {
    forall k | day - 1830 <= k < day ensures k !in DayHits(MondayChristmas) {
      NoMondayBetween(k);
    }
  }

  /**
   The window is 1830 days wide: an isolated day is found from a midnight 1829 days before it, and from
   one 1830 days before it the search errs.
   */
  lemma WindowReaches1829Days(day: int, near: int)
    requires near == day - 1829 && Isolated(day)
    ensures FirstMatch(Hits(MondayChristmas), near * 1440, Limit(near * 1440)) == Some(day * 1440 + 720)
  {
    NoonFound(near, day);
  }

  lemma WindowEndsAfter1830Days(day: int, far: int)
    requires far == day - 1830 && Isolated(day)
    ensures FirstMatch(Hits(MondayChristmas), far * 1440, Limit(far * 1440)) == None
  {
    NotReachable(DayHits(MondayChristmas), far, day);
    SearchFails(MondayChristmas, far);
  }

  lemma Selected2023(day: int)
    requires day == 19716
    ensures day in DayHits(MondayChristmas)
  {
    Christmas2017And2023();
    ChristmasSelected(Date(2023, 12, 25));
  }

  lemma NotReachable(days: iset<int>, from: int, end: int)
    requires end == from + MAX_CRON_LOOKAHEAD_DAYS && forall k :: from <= k < end ==> k !in days
    ensures !Reachable(days, from)
  {
  }
}
