/**
 The proleptic Gregorian calendar that the scheduler and the timestamp printer rely on.

 A day is an integer counted from 1970-01-01 (negative before it). `DayNumber` maps a date to its
 day, `CivilOf` maps a day back to its date, and the two are proved mutually inverse, so the date
 that the program reads off an instant is a total function of the day.
 */
module Calendar {

  datatype Date = Date(year: int, month: int, day: int)

  predicate IsLeap(y: int) {
    (y % 4 == 0 && y % 100 != 0) || y % 400 == 0
  }

  function DaysInMonth(y: int, m: int): (d: int)
    requires 1 <= m <= 12
    ensures 28 <= d <= 31
  {
    if m == 2 then (if IsLeap(y) then 29 else 28)
    else if m == 4 || m == 6 || m == 9 || m == 11 then 30
    else 31
  }

  function DaysInYear(y: int): int {
    if IsLeap(y) then 366 else 365
  }

  predicate ValidDate(d: Date) {
    1 <= d.month <= 12 && 1 <= d.day <= DaysInMonth(d.year, d.month)
  }

  /** Leap days in the years 1 to y-1 (extended to all integers by floor division). */
  function LeapsBefore(y: int): int {
    (y - 1) / 4 - (y - 1) / 100 + (y - 1) / 400
  }

  /** Day number of January 1st of year y. */
  function DaysBeforeYear(y: int): int {
    365 * (y - 1970) + LeapsBefore(y) - 477
  }

  /** Days of year y that precede month m; month 13 stands for the end of the year. */
  function DaysBeforeMonth(y: int, m: int): (n: int)
    requires 1 <= m <= 13
    ensures 28 * (m - 1) <= n <= 31 * (m - 1)
    decreases m
  {
    if m == 1 then 0 else DaysBeforeMonth(y, m - 1) + DaysInMonth(y, m - 1)
  }

  function DayNumber(d: Date): int
    requires ValidDate(d)
  {
    DaysBeforeYear(d.year) + DaysBeforeMonth(d.year, d.month) + d.day - 1
  }

  // ----- years ---------------------------------------------------------------------------------

  lemma FloorStep(x: int, k: int)
    requires k == 4 || k == 100 || k == 400
    ensures x / k == (x - 1) / k + (if x % k == 0 then 1 else 0)
  {
  }

  lemma YearLength(y: int)
    ensures DaysBeforeYear(y + 1) == DaysBeforeYear(y) + DaysInYear(y)
  {
    FloorStep(y, 4);
    FloorStep(y, 100);
    FloorStep(y, 400);
    LeapCycles(y);
  }

  lemma Multiple(y: int, k: int, q: int)
    requires k == 4 || k == 100
    requires y == k * q
    ensures y % k == 0
  {
  }

  lemma LeapCycles(y: int)
    ensures y % 400 == 0 ==> y % 100 == 0
    ensures y % 100 == 0 ==> y % 4 == 0
  {
    if y % 400 == 0 {
      Multiple(y, 100, 4 * (y / 400));
    }
    if y % 100 == 0 {
      Multiple(y, 4, 25 * (y / 100));
    }
  }

  lemma MonthsFillYear(y: int)
    ensures DaysBeforeMonth(y, 13) == DaysInYear(y)
  {
    assert DaysBeforeMonth(y, 4) == 59 + DaysInMonth(y, 2) - 28 + 31;
    assert DaysBeforeMonth(y, 7) == DaysBeforeMonth(y, 4) + 91;
    assert DaysBeforeMonth(y, 10) == DaysBeforeMonth(y, 7) + 92;
  }

  lemma {:induction false} YearsOrdered(y: int, z: int)
    requires y <= z
    ensures DaysBeforeYear(y) + 365 * (z - y) <= DaysBeforeYear(z) <= DaysBeforeYear(y) + 366 * (z - y)
    decreases z - y
  {
    if y < z {
      YearsOrdered(y, z - 1);
      YearLength(z - 1);
    }
  }

  lemma {:induction false} MonthsOrdered(y: int, m: int, k: int)
    requires 1 <= m <= k <= 13
    ensures DaysBeforeMonth(y, m) <= DaysBeforeMonth(y, k)
    ensures m < k ==> DaysBeforeMonth(y, m) + DaysInMonth(y, m) <= DaysBeforeMonth(y, k)
    decreases k
  {
    if m < k {
      MonthsOrdered(y, m, k - 1);
    }
  }

  /** The year that contains day n, searched upwards or downwards from a guess. */
  function YearFrom(guess: int, n: int): (y: int)
    ensures DaysBeforeYear(y) <= n < DaysBeforeYear(y + 1)
    decreases if n < DaysBeforeYear(guess) then DaysBeforeYear(guess) - n else n - DaysBeforeYear(guess)
  {
    YearLength(guess);
    YearLength(guess - 1);
    if n < DaysBeforeYear(guess) then
      if DaysBeforeYear(guess - 1) <= n then guess - 1 else YearFrom(guess - 1, n)
    else
      if n < DaysBeforeYear(guess + 1) then guess else YearFrom(guess + 1, n)
  }

  /** The month whose days include the zero-based day of year `doy`, searched from month m. */
  function MonthFrom(y: int, m: int, doy: int): (r: int)
    requires 1 <= m <= 12
    requires DaysBeforeMonth(y, m) <= doy < DaysInYear(y)
    ensures m <= r <= 12 && DaysBeforeMonth(y, r) <= doy < DaysBeforeMonth(y, r + 1)
    decreases 12 - m
  {
    MonthsFillYear(y);
    if doy < DaysBeforeMonth(y, m + 1) then m else MonthFrom(y, m + 1, doy)
  }

  /** The calendar date of day n. */
  function CivilOf(n: int): (d: Date)
    ensures ValidDate(d) && DayNumber(d) == n
  {
    var y := YearFrom(1970, n);
    YearLength(y);
    var doy := n - DaysBeforeYear(y);
    var m := MonthFrom(y, 1, doy);
    Date(y, m, doy - DaysBeforeMonth(y, m) + 1)
  }

  /** A valid date lies inside its own year. */
  lemma DateInYear(d: Date)
    requires ValidDate(d)
    ensures DaysBeforeYear(d.year) <= DayNumber(d) < DaysBeforeYear(d.year + 1)
  {
    MonthsOrdered(d.year, 1, d.month);
    MonthsOrdered(d.year, d.month, 13);
    MonthsFillYear(d.year);
    YearLength(d.year);
  }

  predicate DateLess(a: Date, b: Date) {
    a.year < b.year || (a.year == b.year && (a.month < b.month || (a.month == b.month && a.day < b.day)))
  }

  /** Day numbers follow the calendar order of dates. */
  lemma DayNumberMonotone(a: Date, b: Date)
    requires ValidDate(a) && ValidDate(b) && DateLess(a, b)
    ensures DayNumber(a) < DayNumber(b)
  {
    if a.year < b.year {
      DateInYear(a);
      DateInYear(b);
      YearsOrdered(a.year + 1, b.year);
    } else if a.month < b.month {
      MonthsOrdered(a.year, a.month, b.month);
    }
  }

  /** Dates and day numbers correspond one to one. */
  lemma CivilUnique(d: Date)
    requires ValidDate(d)
    ensures CivilOf(DayNumber(d)) == d
  {
    var e := CivilOf(DayNumber(d));
    if e != d {
      if DateLess(e, d) {
        DayNumberMonotone(e, d);
      } else {
        DayNumberMonotone(d, e);
      }
    }
  }

  // ----- weekdays ------------------------------------------------------------------------------

  /** Days from Sunday; 1970-01-01 was a Thursday. */
  function Weekday(n: int): (w: int)
    ensures 0 <= w <= 6
  {
    (n + 4) % 7
  }

  /** Zeller's rule, shifted to count from Sunday: January and February belong to the year before. */
  function Zeller(y: int, m: int, d: int): int {
    var yy, mm := if m <= 2 then y - 1 else y, if m <= 2 then m + 12 else m;
    (d + 13 * (mm + 1) / 5 + yy + yy / 4 - yy / 100 + yy / 400 + 6) % 7
  }

  /** Days before a month of a common year, counted from March for January and February of the next. */
  lemma MonthOffsets(y: int, m: int)
    requires 1 <= m <= 12
    ensures m <= 2 ==> DaysBeforeMonth(y, m) == 31 * (m - 1)
    ensures m >= 3 ==> DaysBeforeMonth(y, m) == 13 * (m + 1) / 5 + 28 * m - 35 + (if IsLeap(y) then 1 else 0)
  {
    var leap := if IsLeap(y) then 1 else 0;
    assert DaysBeforeMonth(y, 3) == 59 + leap;
    assert DaysBeforeMonth(y, 5) == 120 + leap;
    assert DaysBeforeMonth(y, 7) == 181 + leap;
    assert DaysBeforeMonth(y, 9) == 243 + leap;
    assert DaysBeforeMonth(y, 11) == 304 + leap;
  }

  /** The weekday of every date is the one Zeller's rule gives; in particular 1970-01-01 is a Thursday. */
  lemma WeekdayIsZeller(d: Date)
    requires ValidDate(d)
    ensures Weekday(DayNumber(d)) == Zeller(d.year, d.month, d.day)
  {
    MonthOffsets(d.year, d.month);
    LeapStep(d.year);
    ZellerSum(d);
  }

  /** Leap days up to and including a year. */
  lemma LeapStep(y: int)
    ensures y / 4 - y / 100 + y / 400 == LeapsBefore(y) + (if IsLeap(y) then 1 else 0)
  {
    FloorStep(y, 4);
    FloorStep(y, 100);
    FloorStep(y, 400);
    LeapCycles(y);
  }

  lemma ZellerSum(d: Date)
    requires ValidDate(d)
    requires d.month <= 2 ==> DaysBeforeMonth(d.year, d.month) == 31 * (d.month - 1)
    requires d.month >= 3 ==>
               DaysBeforeMonth(d.year, d.month) == 13 * (d.month + 1) / 5 + 28 * d.month - 35 + (if IsLeap(d.year) then 1 else 0)
    requires d.year / 4 - d.year / 100 + d.year / 400 == LeapsBefore(d.year) + (if IsLeap(d.year) then 1 else 0)
    ensures Weekday(DayNumber(d)) == Zeller(d.year, d.month, d.day)
  {
    var y, n := d.year, DayNumber(d) + 4;
    if d.month <= 2 {
      assert 13 * (d.month + 13) / 5 == 36 + 3 * (d.month - 1);
      var sum := d.day + 36 + 3 * (d.month - 1) + (y - 1) + LeapsBefore(y) + 6;
      SameModSeven(n, sum, 52 * (y - 1970) - 355 + 4 * (d.month - 1));
    } else {
      var sum := d.day + 13 * (d.month + 1) / 5 + y + (y / 4 - y / 100 + y / 400) + 6;
      SameModSeven(n, sum, 52 * (y - 1970) - 355 + 4 * d.month);
    }
  }

  lemma SameModSeven(a: int, b: int, k: int)
    requires a == b + 7 * k
    ensures a % 7 == b % 7
  {
  }

  // ----- recurring dates -----------------------------------------------------------------------

  /** Whether a month has this day in every year, leap or not. */
  predicate EveryYear(month: int, day: int) {
    1 <= month <= 12 && 1 <= day <= DaysInMonth(2001, month)
  }

  lemma EveryYearValid(y: int, month: int, day: int)
    requires EveryYear(month, day)
    ensures ValidDate(Date(y, month, day))
  {
  }

  /** From any day, a date that exists in every year comes round within 366 days. */
  lemma AnniversaryWithinAYear(n: int, month: int, day: int) returns (k: int)
    requires EveryYear(month, day)
    ensures n <= k < n + 366
    ensures CivilOf(k).month == month && CivilOf(k).day == day
  {
    var y := CivilOf(n).year;
    EveryYearValid(y, month, day);
    EveryYearValid(y + 1, month, day);
    var near, next := Date(y, month, day), Date(y + 1, month, day);
    DateInYear(CivilOf(n));
    DateInYear(near);
    DateInYear(next);
    AnniversaryGap(y, month, day);
    k := if n <= DayNumber(near) then DayNumber(near) else DayNumber(next);
    YearLength(y);
    CivilUnique(near);
    CivilUnique(next);
  }

  /** Two consecutive anniversaries are 365 or 366 days apart. */
  lemma AnniversaryGap(y: int, month: int, day: int)
    requires EveryYear(month, day)
    ensures ValidDate(Date(y, month, day)) && ValidDate(Date(y + 1, month, day))
    ensures 365 <= DayNumber(Date(y + 1, month, day)) - DayNumber(Date(y, month, day)) <= 366
  {
    EveryYearValid(y, month, day);
    EveryYearValid(y + 1, month, day);
    MonthStartGap(y, month);
  }

  lemma MonthStartGap(y: int, month: int)
    requires 1 <= month <= 12
    ensures 365 <= DaysBeforeYear(y + 1) + DaysBeforeMonth(y + 1, month)
                 - DaysBeforeYear(y) - DaysBeforeMonth(y, month) <= 366
  {
    YearLength(y);
    MonthOffset(y, month);
    MonthOffset(y + 1, month);
  }

  lemma {:induction false} MonthOffset(y: int, m: int)
    requires 1 <= m <= 13
    ensures DaysBeforeMonth(y, m) == DaysBeforeMonth(2001, m) + (if m > 2 && IsLeap(y) then 1 else 0)
    decreases m
  {
    if m > 1 {
      MonthOffset(y, m - 1);
    }
  }
}
