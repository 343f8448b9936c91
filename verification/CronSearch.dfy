/**
 The cron half of the scheduler: a five-field matcher and the search for its next matching minute.

 A minute is an integer counted from 1970-01-01T00:00Z. The search skips whole days and whole hours;
 `FirstMatch` is the plain minute-by-minute search it has to agree with.
 */
module CronSearch {
  import opened Wrappers
  import opened Calendar

  const MAX_CRON_LOOKAHEAD_DAYS: int := 366 * 5

  const MINUTES_PER_DAY: int := 1440

  datatype CronMatcher = CronMatcher(
    minutes: set<int>,
    hours: set<int>,
    daysOfMonth: set<int>,
    months: set<int>,
    daysOfWeek: set<int>)

  function DayOf(t: int): int { t / 1440 }

  function HourOf(t: int): int { t % 1440 / 60 }

  function MinuteOf(t: int): int { t % 60 }

  /** The date fields of a day; day-of-month and day-of-week must both match. */
  predicate DayMatches(m: CronMatcher, day: int) {
    var date := CivilOf(day);
    date.month in m.months && date.day in m.daysOfMonth && Weekday(day) in m.daysOfWeek
  }

  /** All five fields must contain their part of the minute. */
  predicate Matches(m: CronMatcher, t: int) {
    DayMatches(m, DayOf(t)) && HourOf(t) in m.hours && MinuteOf(t) in m.minutes
  }

  // ----- the reference search ------------------------------------------------------------------

  /** The minutes a matcher selects, as a set. */
  ghost function Hits(m: CronMatcher): iset<int> {
    iset t: int | Matches(m, t)
  }

  /** Minute-by-minute search over lo <= t < hi. */
  ghost function FirstMatch(hits: iset<int>, lo: int, hi: int): Option<int>
    decreases hi - lo
  {
    if lo >= hi then None
    else if lo in hits then Some(lo)
    else FirstMatch(hits, lo + 1, hi)
  }

  /** The reference search finds exactly the least match, and nothing exactly when there is none. */
  lemma {:induction false} FirstMatchIsLeast(hits: iset<int>, lo: int, hi: int)
    ensures FirstMatch(hits, lo, hi).None? <==> forall t :: lo <= t < hi ==> t !in hits
    ensures forall r :: FirstMatch(hits, lo, hi) == Some(r) <==>
              lo <= r < hi && r in hits && forall t :: lo <= t < r ==> t !in hits
    decreases hi - lo
  {
    if lo < hi && lo !in hits {
      FirstMatchIsLeast(hits, lo + 1, hi);
    }
  }

  /** Jumping over minutes that do not match leaves the answer alone, even past the end. */
  lemma {:induction false} SkipUnmatched(hits: iset<int>, a: int, b: int, hi: int)
    requires a <= b
    requires forall t :: a <= t < b ==> t !in hits
    ensures FirstMatch(hits, a, hi) == FirstMatch(hits, b, hi)
    decreases b - a
  {
    if a < b {
      SkipUnmatched(hits, a + 1, b, hi);
    }
  }

  lemma SameDay(a: int, t: int)
    requires a <= t < (DayOf(a) + 1) * 1440
    ensures DayOf(t) == DayOf(a)
  {
  }

  lemma SameHour(a: int, t: int)
    requires a <= t < (a + 60) / 60 * 60
    ensures DayOf(t) == DayOf(a) && HourOf(t) == HourOf(a)
  {
    assert t / 60 == a / 60;
    HourSplit(t);
    HourSplit(a);
  }

  lemma HourSplit(t: int)
    ensures DayOf(t) == t / 60 / 24 && HourOf(t) == t / 60 % 24
  {
    assert t == 60 * (t / 60) + t % 60;
    assert t / 60 == 24 * (t / 60 / 24) + t / 60 % 24;
    assert t == 1440 * (t / 60 / 24) + (60 * (t / 60 % 24) + t % 60);
  }

  // ----- the search as written -----------------------------------------------------------------

  /** The minutes selected by a date test and the two time-of-day fields. */
  ghost function Selected(dayOk: int -> bool, hours: set<int>, minutes: set<int>): iset<int> {
    iset t: int | dayOk(DayOf(t)) && HourOf(t) in hours && MinuteOf(t) in minutes
  }

  /** No minute up to the next midnight matches on a day that fails the date test. */
  lemma DayHasNoHits(dayOk: int -> bool, hours: set<int>, minutes: set<int>, a: int)
    requires !dayOk(DayOf(a))
    ensures a < (DayOf(a) + 1) * 1440
    ensures forall t :: a <= t < (DayOf(a) + 1) * 1440 ==> t !in Selected(dayOk, hours, minutes)
  {
    forall t | a <= t < (DayOf(a) + 1) * 1440 ensures t !in Selected(dayOk, hours, minutes) {
      SameDay(a, t);
    }
  }

  /** No minute up to the next full hour matches in an hour that fails the hour test. */
  lemma HourHasNoHits(dayOk: int -> bool, hours: set<int>, minutes: set<int>, a: int)
    requires HourOf(a) !in hours
    ensures a < (a + 60) / 60 * 60
    ensures forall t :: a <= t < (a + 60) / 60 * 60 ==> t !in Selected(dayOk, hours, minutes)
  {
    forall t | a <= t < (a + 60) / 60 * 60 ensures t !in Selected(dayOk, hours, minutes) {
      SameHour(a, t);
    }
  }

  /** The end of the lookahead window for a search that starts at minute `start`. */
  function Limit(start: int): int {
    start + MAX_CRON_LOOKAHEAD_DAYS * MINUTES_PER_DAY
  }

  /**
   Searches from the minute `start` and gives up after the lookahead window. A day that fails the
   date test is skipped to the next midnight, an hour that fails is skipped to the next full hour.
   The answer is that of the minute-by-minute search, for any date test.
   */
  method SkippingSearch(dayOk: int -> bool, hours: set<int>, minutes: set<int>, start: int)
    returns (r: Option<int>)
    ensures r == FirstMatch(Selected(dayOk, hours, minutes), start, Limit(start))
  {
    var current := start;
    var limit := Limit(start);
    ghost var hits := Selected(dayOk, hours, minutes);
    while current < limit
      invariant start <= current
      invariant FirstMatch(hits, start, limit) == FirstMatch(hits, current, limit)
    {
      var today, hour, minute := DayOf(current), HourOf(current), MinuteOf(current);
      if dayOk(today) && hour in hours && minute in minutes {
        return Some(current);
      }
      var next := current + 1;
      if !dayOk(today) {
        next := (today + 1) * 1440;
        DayHasNoHits(dayOk, hours, minutes, current);
      } else if hour !in hours {
        next := (current + 60) / 60 * 60;
        HourHasNoHits(dayOk, hours, minutes, current);
      }
      SkipUnmatched(hits, current, next, limit);
      current := next;
    }
    return None;
  }

  /** The search with a matcher's own date test. */
  method FindNextFrom(m: CronMatcher, start: int) returns (r: Option<int>)
    ensures r == FirstMatch(Hits(m), start, Limit(start))
  {
    r := SkippingSearch(day => DayMatches(m, day), m.hours, m.minutes, start);
    assert Selected(day => DayMatches(m, day), m.hours, m.minutes) == Hits(m);
  }

  // ----- when the search cannot fail -----------------------------------------------------------

  /** What `CronField` guarantees of the time-of-day fields of a parsed matcher. */
  predicate TimeFieldsUsable(m: CronMatcher) {
    (exists h :: h in m.hours && 0 <= h < 24) && (exists n :: n in m.minutes && 0 <= n < 60)
  }

  predicate EveryWeekday(m: CronMatcher) {
    forall w :: 0 <= w <= 6 ==> w in m.daysOfWeek
  }

  /** Some selected (month, day) pair exists in every year. */
  ghost predicate HasAnnualDate(m: CronMatcher) {
    exists mo, d :: mo in m.months && d in m.daysOfMonth && EveryYear(mo, d)
  }

  lemma DivMod(t: int, k: int, q: int, r: int)
    requires k == 60 || k == 1440
    requires t == k * q + r && 0 <= r < k
    ensures t / k == q && t % k == r
  {
  }

  lemma ComposeMinute(day: int, h: int, n: int)
    requires 0 <= h < 24 && 0 <= n < 60
    ensures var t := day * 1440 + h * 60 + n;
            DayOf(t) == day && HourOf(t) == h && MinuteOf(t) == n
  {
    var t := day * 1440 + h * 60 + n;
    DivMod(t, 1440, day, h * 60 + n);
    DivMod(t, 60, day * 24 + h, n);
    DivMod(h * 60 + n, 60, h, n);
  }

  lemma HitOnDay(m: CronMatcher, day: int, h: int, n: int)
    requires EveryWeekday(m) && h in m.hours && n in m.minutes && 0 <= h < 24 && 0 <= n < 60
    requires CivilOf(day).month in m.months && CivilOf(day).day in m.daysOfMonth
    ensures day * 1440 + h * 60 + n in Hits(m)
  {
    ComposeMinute(day, h, n);
  }

  lemma SameTimeNextYear(start: int, from: int, day: int, tod: int)
    requires 0 <= tod < 1440
    requires from == if tod < start % 1440 then DayOf(start) + 1 else DayOf(start)
    requires from <= day < from + 366
    ensures start <= day * 1440 + tod < start + 366 * 1440
  {
    assert start == 1440 * DayOf(start) + start % 1440;
  }

  /** With every weekday selected and an annual date, the next match is less than 366 days away. */
  lemma AnnualDateFound(m: CronMatcher, start: int)
    requires TimeFieldsUsable(m) && EveryWeekday(m) && HasAnnualDate(m)
    ensures var r := FirstMatch(Hits(m), start, Limit(start));
            r.Some? && r.value < start + 366 * MINUTES_PER_DAY
  {
    var h :| h in m.hours && 0 <= h < 24;
    var n :| n in m.minutes && 0 <= n < 60;
    var mo, d :| mo in m.months && d in m.daysOfMonth && EveryYear(mo, d);
    var tod := h * 60 + n;
    var from := if tod < start % 1440 then DayOf(start) + 1 else DayOf(start);
    var k := AnniversaryWithinAYear(from, mo, d);
    HitOnDay(m, k, h, n);
    SameTimeNextYear(start, from, k, tod);
    FirstMatchIsLeast(Hits(m), start, Limit(start));
  }

  /** 2096-03-01T00:00Z: the next leap day is almost eight years away. */
  const AFTER_LEAP_2096: int := DayNumber(Date(2096, 3, 1)) * 1440

  lemma Around2096()
    ensures DayNumber(Date(2096, 3, 1)) == 46081 && DayNumber(Date(2104, 2, 28)) == 49000
  {
    assert DaysBeforeMonth(2096, 2) == 31 && DaysBeforeMonth(2104, 2) == 31;
  }

  lemma NextLeapYearAfter2096(y: int)
    requires y > 2096 && IsLeap(y)
    ensures y >= 2104
  {
  }

  /** A date between 2096-03-01 and the end of the lookahead window is a date of every year. */
  lemma NoLeapDayAfter2096(date: Date)
    requires ValidDate(date)
    requires DayNumber(Date(2096, 3, 1)) <= DayNumber(date) < DayNumber(Date(2096, 3, 1)) + 1830
    ensures EveryYear(date.month, date.day)
  {
    if !EveryYear(date.month, date.day) {
      if date.year <= 2096 {
        DayNumberMonotone(date, Date(2096, 3, 1));
      } else {
        NextLeapYearAfter2096(date.year);
        DayNumberMonotone(Date(2104, 2, 28), date);
        Around2096();
      }
    }
  }

  /**
   With every weekday selected, the search succeeds from every start if and only if some selected
   (month, day) pair exists in every year. The pair of a leap day does not: a search for it that
   starts on 2096-03-01 errs.
   */
  lemma NeverErrsIffAnnualDate(m: CronMatcher)
    requires TimeFieldsUsable(m) && EveryWeekday(m)
    ensures HasAnnualDate(m) <==>
            forall start :: FirstMatch(Hits(m), start, Limit(start)).Some?
  {
    if HasAnnualDate(m) {
      forall start
        ensures FirstMatch(Hits(m), start, Limit(start)).Some?
      {
        AnnualDateFound(m, start);
      }
    } else {
      var lo := AFTER_LEAP_2096;
      forall t | lo <= t < Limit(lo) ensures t !in Hits(m) {
        NoLeapDayAfter2096(CivilOf(DayOf(t)));
      }
      FirstMatchIsLeast(Hits(m), lo, Limit(lo));
    }
  }
}
