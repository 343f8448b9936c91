/**
 Next-run calculation for the UTC strategy.

 An instant is an integer number of nanoseconds since 1970-01-01T00:00:00Z. For the calendar
 schedules (daily, weekly, cron) `Occurs` says which instants a schedule names; the calculation is
 proved to return the next one, and iterating it to list them all.
 */
module NextRun {
  import opened Wrappers
  import opened Calendar
  import opened CronSearch

  function Seconds(k: int): int { k * 1_000_000_000 }

  function Minutes(k: int): int { k * 60_000_000_000 }

  function Days(k: int): int { k * 86_400_000_000_000 }

  /** A schedule with its expression already parsed. */
  datatype Schedule =
    | Interval(seconds: int)
    | Daily(hour: int, minute: int)
    | Weekly(weekday: int, hour: int, minute: int)
    | Cron(matcher: CronMatcher)

  predicate ValidSchedule(s: Schedule) {
    match s
    case Interval(secs) => secs > 0
    case Daily(h, m) => 0 <= h <= 23 && 0 <= m <= 59
    case Weekly(w, h, m) => 0 <= w <= 6 && 0 <= h <= 23 && 0 <= m <= 59
    case Cron(_) => true
  }

  /** What validation of a new or edited schedule accepts: intervals of at least a minute. */
  predicate Accepted(s: Schedule) {
    ValidSchedule(s) && (s.Interval? ==> s.seconds >= 60)
  }

  /** The instant at `hour:minute` on a day. */
  function At(day: int, h: int, m: int): int {
    Days(day) + Minutes(h * 60 + m)
  }

  function DateOfInstant(t: int): int { t / 86_400_000_000_000 }

  /** The instants that are the whole minutes of a set. */
  ghost predicate OccursIn(hits: iset<int>, t: int) {
    exists k :: t == Minutes(k) && k in hits
  }

  /** The instants a calendar schedule names; an interval schedule names none by itself. */
  ghost predicate Occurs(s: Schedule, t: int) {
    match s
    case Interval(_) => false
    case Daily(h, m) => exists d :: t == At(d, h, m)
    case Weekly(w, h, m) => exists d :: t == At(d, h, m) && Weekday(d) == w
    case Cron(c) => OccursIn(Hits(c), t)
  }

  /** The first whole minute strictly after an instant. */
  function StartMinute(from: int): int {
    from / 60_000_000_000 + 1
  }

  // ----- the calculation -----------------------------------------------------------------------

  /** Daily: today's time if it is still ahead, otherwise tomorrow's. */
  function NextDaily(h: int, m: int, from: int): int {
    var today := At(DateOfInstant(from), h, m);
    if today > from then today else At(DateOfInstant(from) + 1, h, m)
  }

  /** Weekly in closed form: the target weekday on or after today, a week later if it has passed. */
  function NextWeekly(w: int, h: int, m: int, from: int): int {
    var today := DateOfInstant(from);
    var first := today + (w - Weekday(today)) % 7;
    if At(first, h, m) > from then At(first, h, m) else At(first + 7, h, m)
  }

  /** The value the calculation computes; `None` is the error of an exhausted cron window. */
  ghost function NextRunOf(s: Schedule, from: int): Option<int> {
    match s
    case Interval(secs) => Some(from + Seconds(secs))
    case Daily(h, m) => Some(NextDaily(h, m, from))
    case Weekly(w, h, m) => Some(NextWeekly(w, h, m, from))
    case Cron(c) =>
      var r := FirstMatch(Hits(c), StartMinute(from), Limit(StartMinute(from)));
      if r.None? then None else Some(Minutes(r.value))
  }

  /**
   The weekly search steps day by day for seven days; when even the seventh fails, the day it has
   reached is again the target weekday.
   */
  method SearchWeekly(w: int, h: int, m: int, from: int) returns (r: int)
    requires 0 <= w <= 6 && 0 <= h <= 23 && 0 <= m <= 59
    ensures r == NextWeekly(w, h, m, from)
  {
    var currentDate := DateOfInstant(from);
    ghost var today := currentDate;
    ghost var offset := (w - Weekday(today)) % 7;
    for step := 0 to 7
      invariant currentDate == today + step
      invariant step > offset ==> At(today + offset, h, m) <= from
    {
      WeekdayAfter(today, step, w);
      if step > 0 {
        LaterDayIsLater(from, step, h, m);
      }
      var candidate := At(currentDate, h, m);
      if Weekday(currentDate) == w && candidate > from {
        return candidate;
      }
      currentDate := currentDate + 1;
    }
    assert offset == 0 by {
      if offset > 0 {
        LaterDayIsLater(from, offset, h, m);
      }
    }
    return At(currentDate, h, m);
  }

  lemma WeekdayAfter(day: int, step: int, w: int)
    requires 0 <= step < 7 && 0 <= w <= 6
    ensures Weekday(day + step) == w <==> step == (w - Weekday(day)) % 7
  {
  }

  /** Any time on a later day is after the instant. */
  lemma LaterDayIsLater(from: int, step: int, h: int, m: int)
    requires step > 0 && 0 <= h && 0 <= m
    ensures At(DateOfInstant(from) + step, h, m) > from
  {
  }

  method CalculateNextRun(s: Schedule, from: int) returns (r: Option<int>)
    requires ValidSchedule(s)
    ensures r == NextRunOf(s, from)
  {
    match s {
      case Interval(secs) =>
        r := Some(from + Seconds(secs));
      case Daily(h, m) =>
        var fromDate := DateOfInstant(from);
        var target := At(fromDate, h, m);
        if target > from {
          r := Some(target);
        } else {
          r := Some(At(fromDate + 1, h, m));
        }
      case Weekly(w, h, m) =>
        var t := SearchWeekly(w, h, m, from);
        r := Some(t);
      case Cron(c) =>
        var k := FindNextFrom(c, StartMinute(from));
        r := match k case None => None case Some(v) => Some(Minutes(v));
    }
  }

  // ----- the next occurrence -------------------------------------------------------------------

  /** r is the first instant after `from` that the schedule names. */
  ghost predicate IsNext(s: Schedule, from: int, r: int) {
    Occurs(s, r) && from < r && forall t :: from < t < r ==> !Occurs(s, t)
  }

  predicate IsCalendar(s: Schedule) {
    !s.Interval?
  }

  lemma NextDailyIsNext(h: int, m: int, from: int)
    requires 0 <= h <= 23 && 0 <= m <= 59
    ensures IsNext(Daily(h, m), from, NextDaily(h, m, from))
  {
    var s, r := Daily(h, m), NextDaily(h, m, from);
    var today := DateOfInstant(from);
    LaterDayIsLater(from, 1, h, m);
    assert r == At(today, h, m) || r == At(today + 1, h, m);
    forall t | from < t < r ensures !Occurs(s, t) {
      if Occurs(s, t) {
        var d :| t == At(d, h, m);
        DaysBracket(d, today, h, m, from, t);
      }
    }
  }

  /** A named instant after `from` lies today or later. */
  lemma DaysBracket(d: int, today: int, h: int, m: int, from: int, t: int)
    requires 0 <= h <= 23 && 0 <= m <= 59
    requires today == DateOfInstant(from) && t == At(d, h, m) && from < t
    ensures today <= d
  {
    AtOrdered(d + 1, today, 0, 0);
  }

  lemma AtOrdered(d: int, e: int, h: int, m: int)
    ensures d < e ==> At(d, h, m) + Days(1) <= At(e, h, m)
    ensures At(d, h, m) < At(e, h, m) ==> d < e
  {
  }

  lemma NextWeeklyIsNext(w: int, h: int, m: int, from: int)
    requires 0 <= w <= 6 && 0 <= h <= 23 && 0 <= m <= 59
    ensures IsNext(Weekly(w, h, m), from, NextWeekly(w, h, m, from))
  {
    var s, r := Weekly(w, h, m), NextWeekly(w, h, m, from);
    var today := DateOfInstant(from);
    var first := today + (w - Weekday(today)) % 7;
    WeekdayAfter(today, first - today, w);
    assert Weekday(first + 7) == Weekday(first);
    LaterDayIsLater(from, first + 7 - today, h, m);
    forall t | from < t < r ensures !Occurs(s, t) {
      if Occurs(s, t) {
        var d :| t == At(d, h, m) && Weekday(d) == w;
        DaysBracket(d, today, h, m, from, t);
        AtOrdered(d, if r == At(first, h, m) then first else first + 7, h, m);
        AtOrdered(d, first, h, m);
        SameWeekday(today, d, w, first);
      }
    }
  }

  /** Days of one weekday are at least a week apart. */
  lemma SameWeekday(today: int, d: int, w: int, first: int)
    requires 0 <= w <= 6 && today <= d && Weekday(d) == w
    requires first == today + (w - Weekday(today)) % 7
    ensures d == first || d >= first + 7
  {
    var k := d - today;
    if k < 7 {
      WeekdayAfter(today, k, w);
    } else if d < first + 7 {
      WeekdayAfter(today, k - 7, w);
    }
  }

  lemma NextHitIsNext(hits: iset<int>, from: int)
    ensures var lo := StartMinute(from);
            match FirstMatch(hits, lo, Limit(lo))
            case Some(k) =>
              OccursIn(hits, Minutes(k)) && from < Minutes(k) &&
              forall t :: from < t < Minutes(k) ==> !OccursIn(hits, t)
            case None =>
              forall t :: from < t < Minutes(Limit(lo)) ==> !OccursIn(hits, t)
  {
    var lo := StartMinute(from);
    FirstMatchIsLeast(hits, lo, Limit(lo));
    var k := FirstMatch(hits, lo, Limit(lo));
    var end := if k.Some? then k.value else Limit(lo);
    WholeMinutesAfter(from, end);
    forall t | from < t < Minutes(end) ensures !OccursIn(hits, t) {
      forall j | t == Minutes(j) ensures j !in hits {
        WholeMinutesAfter(from, j);
      }
    }
  }

  lemma NextCronIsNext(c: CronMatcher, from: int)
    ensures var r := NextRunOf(Cron(c), from);
            && (r.Some? ==> IsNext(Cron(c), from, r.value))
            && (r.None? ==> forall t :: from < t < Minutes(Limit(StartMinute(from))) ==> !Occurs(Cron(c), t))
  {
    NextHitIsNext(Hits(c), from);
  }

  /** A whole minute is after an instant exactly when it is one of those the search starts from. */
  lemma WholeMinutesAfter(from: int, j: int)
    ensures from < Minutes(j) <==> StartMinute(from) <= j
  {
  }

  /** The calculation returns the first named instant strictly after its start. */
  lemma NextRunIsNext(s: Schedule, from: int)
    requires ValidSchedule(s) && IsCalendar(s) && NextRunOf(s, from).Some?
    ensures IsNext(s, from, NextRunOf(s, from).value)
  {
    match s {
      case Daily(h, m) => NextDailyIsNext(h, m, from);
      case Weekly(w, h, m) => NextWeeklyIsNext(w, h, m, from);
      case Cron(c) => NextCronIsNext(c, from);
    }
  }

  /** A next run lies strictly after its start. */
  lemma NextRunLater(s: Schedule, from: int)
    requires ValidSchedule(s) && NextRunOf(s, from).Some?
    ensures from < NextRunOf(s, from).value
  {
    if IsCalendar(s) {
      NextRunIsNext(s, from);
    }
  }

  /** Starting later, but before the answer, gives the same answer. */
  lemma NextRunStable(s: Schedule, from: int, later: int)
    requires ValidSchedule(s) && IsCalendar(s) && NextRunOf(s, from).Some?
    requires from <= later < NextRunOf(s, from).value
    ensures NextRunOf(s, later) == NextRunOf(s, from)
  {
    if s.Cron? {
      NextCronStable(s.matcher, from, later);
    } else {
      NextRunIsNext(s, from);
      NextRunIsNext(s, later);
      NextUnique(s, from, later, NextRunOf(s, from).value, NextRunOf(s, later).value);
    }
  }

  lemma NextUnique(s: Schedule, from: int, later: int, r: int, q: int)
    requires IsNext(s, from, r) && IsNext(s, later, q) && from <= later < r
    ensures q == r
  {
  }

  lemma NextCronStable(c: CronMatcher, from: int, later: int)
    requires NextRunOf(Cron(c), from).Some?
    requires from <= later < NextRunOf(Cron(c), from).value
    ensures NextRunOf(Cron(c), later) == NextRunOf(Cron(c), from)
  {
    NextHitStable(Hits(c), from, later);
  }

  lemma NextHitStable(hits: iset<int>, from: int, later: int)
    requires var r := FirstMatch(hits, StartMinute(from), Limit(StartMinute(from)));
             r.Some? && from <= later < Minutes(r.value)
    ensures FirstMatch(hits, StartMinute(later), Limit(StartMinute(later))) ==
            FirstMatch(hits, StartMinute(from), Limit(StartMinute(from)))
  {
    var lo, lo' := StartMinute(from), StartMinute(later);
    var k := FirstMatch(hits, lo, Limit(lo)).value;
    WholeMinutesAfter(later, k);
    StartMinuteMonotone(from, later);
    FirstMatchIsLeast(hits, lo, Limit(lo));
    FirstMatchIsLeast(hits, lo', Limit(lo'));
    assert FirstMatch(hits, lo', Limit(lo')) == Some(k);
  }

  lemma StartMinuteMonotone(from: int, later: int)
    requires from <= later
    ensures StartMinute(from) <= StartMinute(later)
  {
    WholeMinutesAfter(from, StartMinute(from));
    WholeMinutesAfter(from, StartMinute(later));
    WholeMinutesAfter(later, StartMinute(later));
  }

  /** The calculation is monotone in its start. */
  lemma NextRunMonotone(s: Schedule, from: int, later: int)
    requires ValidSchedule(s) && from <= later
    requires NextRunOf(s, from).Some? && NextRunOf(s, later).Some?
    ensures NextRunOf(s, from).value <= NextRunOf(s, later).value
  {
    if IsCalendar(s) {
      if later < NextRunOf(s, from).value {
        NextRunStable(s, from, later);
      } else {
        NextRunIsNext(s, later);
      }
    }
  }

  // ----- iterating the calculation -------------------------------------------------------------

  /** The first n results of a function, each computed from the one before, until it fails. */
  ghost function Iterated(next: int -> Option<int>, from: int, n: nat): seq<int>
    decreases n
  {
    if n == 0 || next(from).None? then [] else [next(from).value] + Iterated(next, next(from).value, n - 1)
  }

  ghost function NextOf(s: Schedule): int -> Option<int> { from => NextRunOf(s, from) }

  /** The first n next runs, each computed from the one before, stopping if a search fails. */
  ghost function Runs(s: Schedule, from: int, n: nat): seq<int> {
    Iterated(NextOf(s), from, n)
  }

  ghost predicate StrictlyIncreasing(a: seq<int>) {
    forall i, j :: 0 <= i < j < |a| ==> a[i] < a[j]
  }

  /**
   Iterating lists every named instant after `from`, once each, in order and with none skipped: the
   list strictly increases, and up to its last entry it holds exactly the named instants.
   */
  lemma RunsListEveryOccurrence(s: Schedule, from: int, n: nat)
    requires ValidSchedule(s) && IsCalendar(s)
    ensures var a := Runs(s, from, n);
            && StrictlyIncreasing(a)
            && (forall i :: 0 <= i < |a| ==> from < a[i])
            && (|a| > 0 ==> forall t :: from < t <= a[|a| - 1] ==> (Occurs(s, t) <==> t in a))
  {
    forall start ensures FindsFirst(Occurrences(s), start, NextOf(s)(start)) {
      NextIsFirst(s, start);
    }
    IteratedLists(NextOf(s), Occurrences(s), from, n);
  }

  /** r is the first member of a set after `from`. */
  ghost predicate FirstAfter(occ: iset<int>, from: int, r: int) {
    from < r && r in occ && forall t :: from < t < r ==> t !in occ
  }

  ghost predicate FindsFirst(occ: iset<int>, from: int, r: Option<int>) {
    r.Some? ==> FirstAfter(occ, from, r.value)
  }

  lemma NextIsFirst(s: Schedule, from: int)
    requires ValidSchedule(s) && IsCalendar(s)
    ensures FindsFirst(Occurrences(s), from, NextRunOf(s, from))
  {
    if NextRunOf(s, from).Some? {
      NextRunIsNext(s, from);
    }
  }

  lemma {:induction false} IteratedLists(next: int -> Option<int>, occ: iset<int>, from: int, n: nat)
    requires forall start :: FindsFirst(occ, start, next(start))
    ensures ListsUpToLast(occ, from, Iterated(next, from, n))
    decreases n
  {
    if n > 0 && next(from).Some? {
      assert FindsFirst(occ, from, next(from));
      IteratedLists(next, occ, next(from).value, n - 1);
      ListGrows(occ, from, next(from).value, Iterated(next, next(from).value, n - 1));
    }
  }

  ghost function Occurrences(s: Schedule): iset<int> { iset t: int | Occurs(s, t) }

  /** The list holds exactly the members of a set after `from`, up to its last entry, in order. */
  ghost predicate ListsUpToLast(occ: iset<int>, from: int, a: seq<int>) {
    && StrictlyIncreasing(a)
    && (forall i :: 0 <= i < |a| ==> from < a[i])
    && (|a| > 0 ==> forall t :: from < t <= a[|a| - 1] ==> (t in occ <==> t in a))
  }

  lemma ListGrows(occ: iset<int>, from: int, r: int, rest: seq<int>)
    requires FirstAfter(occ, from, r) && ListsUpToLast(occ, r, rest)
    ensures ListsUpToLast(occ, from, [r] + rest)
  {
    var a := [r] + rest;
    forall t | from < t <= a[|a| - 1] ensures t in occ <==> t in a {
      assert t in a <==> t == r || t in rest;
      if t > r {
        assert rest[|rest| - 1] == a[|a| - 1];
      }
    }
  }

  // ----- the same instants, said by a cron schedule --------------------------------------------

  /** A matcher that restricts only the time and the weekday. */
  ghost predicate OnlyTime(c: CronMatcher, w: set<int>, h: int, m: int) {
    && c.minutes == {m} && c.hours == {h} && c.daysOfWeek == w
    && (forall mo :: 1 <= mo <= 12 ==> mo in c.months)
    && (forall d :: 1 <= d <= 31 ==> d in c.daysOfMonth)
  }

  lemma TimeOfMinute(k: int, h: int, m: int)
    requires 0 <= h <= 23 && 0 <= m <= 59
    ensures HourOf(k) == h && MinuteOf(k) == m <==> k == DayOf(k) * 1440 + h * 60 + m
  {
    ComposeMinute(DayOf(k), h, m);
    HourSplit(k);
    assert k == 60 * (k / 60) + k % 60;
    assert k / 60 == 24 * (k / 60 / 24) + k / 60 % 24;
  }

  /** A minute is selected by such a matcher exactly if it is that time on a day of one of the weekdays. */
  lemma OnlyTimeHits(c: CronMatcher, w: set<int>, h: int, m: int, k: int)
    requires OnlyTime(c, w, h, m) && 0 <= h <= 23 && 0 <= m <= 59
    ensures k in Hits(c) <==> k == DayOf(k) * 1440 + h * 60 + m && Weekday(DayOf(k)) in w
  {
    TimeOfMinute(k, h, m);
    DateSelected(c, w, h, m, DayOf(k));
  }

  lemma DateSelected(c: CronMatcher, w: set<int>, h: int, m: int, day: int)
    requires OnlyTime(c, w, h, m)
    ensures DayMatches(c, day) <==> Weekday(day) in w
  {
  }

  lemma DayIsHit(c: CronMatcher, w: set<int>, h: int, m: int, d: int)
    requires OnlyTime(c, w, h, m) && 0 <= h <= 23 && 0 <= m <= 59 && Weekday(d) in w
    ensures OccursIn(Hits(c), At(d, h, m))
  {
    var k := d * 1440 + h * 60 + m;
    ComposeMinute(d, h, m);
    OnlyTimeHits(c, w, h, m, k);
    assert At(d, h, m) == Minutes(k);
  }

  lemma HitIsDay(c: CronMatcher, w: set<int>, h: int, m: int, t: int) returns (d: int)
    requires OnlyTime(c, w, h, m) && 0 <= h <= 23 && 0 <= m <= 59 && OccursIn(Hits(c), t)
    ensures t == At(d, h, m) && Weekday(d) in w
  {
    var k :| t == Minutes(k) && k in Hits(c);
    OnlyTimeHits(c, w, h, m, k);
    d := DayOf(k);
  }

  /** A weekly schedule names the instants of the cron schedule that restricts only time and weekday. */
  lemma WeeklyIsCron(c: CronMatcher, w: int, h: int, m: int, t: int)
    requires ValidSchedule(Weekly(w, h, m)) && OnlyTime(c, {w}, h, m)
    ensures Occurs(Weekly(w, h, m), t) <==> Occurs(Cron(c), t)
  {
    if d :| t == At(d, h, m) && Weekday(d) == w {
      DayIsHit(c, {w}, h, m, d);
    }
    if OccursIn(Hits(c), t) {
      var d := HitIsDay(c, {w}, h, m, t);
    }
  }

  /** A daily schedule names those of the cron schedule that restricts only the time. */
  lemma DailyIsCron(c: CronMatcher, h: int, m: int, t: int)
    requires ValidSchedule(Daily(h, m)) && OnlyTime(c, {0, 1, 2, 3, 4, 5, 6}, h, m)
    ensures Occurs(Daily(h, m), t) <==> Occurs(Cron(c), t)
  {
    if d :| t == At(d, h, m) {
      DayIsHit(c, {0, 1, 2, 3, 4, 5, 6}, h, m, d);
    }
    if OccursIn(Hits(c), t) {
      var d := HitIsDay(c, {0, 1, 2, 3, 4, 5, 6}, h, m, t);
    }
  }

  /** An interval of whole minutes or days ends that many minutes or days later. */
  lemma IntervalUnits(k: int, from: int)
    ensures NextRunOf(Interval(60 * k), from) == Some(from + Minutes(k))
    ensures NextRunOf(Interval(86400 * k), from) == Some(from + Days(k))
  {
  }

  /** Sunday at three, asked at the epoch: three days later, on 1970-01-04. */
  lemma FirstSunday(day: int)
    requires day == DayNumber(Date(1970, 1, 4))
    ensures NextRunOf(Weekly(0, 3, 0), Days(day - 3)) == Some(Days(day) + Minutes(180))
  {
    FourthOfJanuary();
    assert DateOfInstant(Days(day - 3)) == day - 3;
  }

  lemma FourthOfJanuary()
    ensures DayNumber(Date(1970, 1, 4)) == 3
  {
    assert DaysBeforeMonth(1970, 1) == 0;
  }
}
