/**
 The hand-written timestamp printer: seconds since 1970 to the date-time format of section 5.6 of
 RFC 3339, with the leap-year rule of its Appendix C.
 */
module Rfc3339 {
  import opened Wrappers
  import opened Text
  import opened Calendar
  import CS = CronSearch

  /** The layout of a printed date and time of day. */
  function Render(date: Date, hours: nat, minutes: nat, seconds: nat): string
    requires 0 <= date.year && 0 <= date.month && 0 <= date.day
  {
    Padded(date.year, 4) + "-" + Padded(date.month, 2) + "-" + Padded(date.day, 2)
    + "T" + Padded(hours, 2) + ":" + Padded(minutes, 2) + ":" + Padded(seconds, 2) + "Z"
  }

  lemma YearAfterEpoch(n: nat)
    ensures CivilOf(n).year >= 1970
  {
    DateInYear(CivilOf(n));
    if CivilOf(n).year < 1970 {
      YearsOrdered(CivilOf(n).year + 1, 1970);
    }
  }

  function Hours(daySecs: nat): nat { daySecs / 3600 }

  function Minutes(daySecs: nat): nat { daySecs % 3600 / 60 }

  function Seconds(daySecs: nat): nat { daySecs % 60 }

  /** The printed form of a second count, through the calendar. */
  function Stamp(secs: nat): string {
    YearAfterEpoch(secs / 86400);
    var t := secs % 86400;
    Render(CivilOf(secs / 86400), Hours(t), Minutes(t), Seconds(t))
  }

  // ----- the printer as written ----------------------------------------------------------------

  predicate Leap(y: int) {
    (y % 4 == 0 && y % 100 != 0) || (y % 400 == 0)
  }

  /** The first year that a 32-bit counter cannot hold. */
  const YEAR_LIMIT: int := 0x8000_0000

  /** Incrementing the counter past its largest value wraps to its smallest. */
  function NextYear(y: int): int {
    if y + 1 == YEAR_LIMIT then -YEAR_LIMIT else y + 1
  }

  /** Days that lie in a year the counter can hold. */
  predicate CounterFits(days: int) {
    days < DaysBeforeYear(YEAR_LIMIT)
  }

  lemma FitsIffYearBelow(days: int)
    ensures CounterFits(days) <==> CivilOf(days).year < YEAR_LIMIT
  {
    DateInYear(CivilOf(days));
    BelowIffYearBelow(days, CivilOf(days).year, YEAR_LIMIT);
  }

  lemma BelowIffYearBelow(days: int, y: int, limit: int)
    requires DaysBeforeYear(y) <= days < DaysBeforeYear(y + 1)
    ensures days < DaysBeforeYear(limit) <==> y < limit
  {
    if y < limit {
      YearsOrdered(y + 1, limit);
    } else {
      YearsOrdered(limit, y);
    }
  }

  /**
   Subtracts whole years from the day count, starting in 1970, with a 32-bit year counter. It ends at
   the year of the day and its day of year if and only if the counter can hold that year.
   */
  method SubtractYears(days: nat) returns (y: int, remDays: nat)
    ensures CounterFits(days) ==> 1970 <= y && days == DaysBeforeYear(y) + remDays
    ensures remDays < DaysInYear(y)
    ensures y == CivilOf(days).year <==> CounterFits(days)
  {
    y := 1970;
    remDays := days;
    ghost var wrapped := false;
    while true
      invariant -YEAR_LIMIT <= y < YEAR_LIMIT
      invariant !wrapped ==> 1970 <= y && days == DaysBeforeYear(y) + remDays
      invariant wrapped ==> !CounterFits(days)
      decreases remDays
    {
      var daysInYear := if Leap(y) then 366 else 365;
      if remDays < daysInYear {
        FitsIffYearBelow(days);
        if !wrapped {
          YearFound(days, y, remDays);
        }
        return;
      }
      YearLength(y);
      remDays := remDays - daysInYear;
      wrapped := wrapped || y + 1 == YEAR_LIMIT;
      y := NextYear(y);
    }
  }

  lemma YearFound(days: int, y: int, remDays: nat)
    requires days == DaysBeforeYear(y) + remDays && remDays < DaysInYear(y)
    ensures CivilOf(days).year == y
  {
    DateInYear(CivilOf(days));
    YearLength(y);
    YearUnique(days, CivilOf(days).year, y);
  }

  lemma YearUnique(days: int, y: int, z: int)
    requires DaysBeforeYear(y) <= days < DaysBeforeYear(y + 1) && DaysBeforeYear(z) <= days < DaysBeforeYear(z + 1)
    ensures y == z
  {
    if z < y {
      YearsOrdered(z + 1, y);
    } else if y < z {
      YearsOrdered(y + 1, z);
    }
  }

  /** Subtracts whole months from a day of year; the fallback behind the loop is never reached. */
  method SubtractMonths(y: int, doy: nat) returns (m: int, day: nat)
    requires doy < DaysInYear(y)
    ensures ValidDate(Date(y, m, day)) && DaysBeforeMonth(y, m) + day - 1 == doy
  {
    var monthDays := [31, if Leap(y) then 29 else 28, 31, 30, 31, 30, 31, 31, 30, 31, 30, 31];
    MonthTable(y, monthDays);
    var remDays := doy;
    MonthsFillYear(y);
    m := 1;
    while m <= 12
      invariant 1 <= m <= 13
      invariant DaysBeforeMonth(y, m) + remDays == doy
      invariant DaysBeforeMonth(y, m) <= doy
    {
      var d := monthDays[m - 1];
      if remDays < d {
        return m, remDays + 1;
      }
      remDays := remDays - d;
      m := m + 1;
    }
    assert false;
  }

  lemma MonthTable(y: int, monthDays: seq<int>)
    requires monthDays == [31, if Leap(y) then 29 else 28, 31, 30, 31, 30, 31, 31, 30, 31, 30, 31]
    ensures forall m :: 1 <= m <= 12 ==> monthDays[m - 1] == DaysInMonth(y, m)
  {
  }

  /** A year in four places; a sign takes one of them. */
  function YearText(y: int): string {
    if y >= 0 then Padded(y, 4) else "-" + Padded(-y, 3)
  }

  function Printed(y: int, m: nat, d: nat, hours: nat, minutes: nat, seconds: nat): string {
    YearText(y) + "-" + Padded(m, 2) + "-" + Padded(d, 2)
    + "T" + Padded(hours, 2) + ":" + Padded(minutes, 2) + ":" + Padded(seconds, 2) + "Z"
  }

  /** Another year gives another text. */
  lemma WrongYearDiffers(y: int, m: nat, d: nat, date: Date, h: nat, mi: nat, sec: nat)
    requires ValidDate(Date(y, m, d)) && ValidDate(date) && date.year >= 0 && y != date.year
    requires h < 24 && mi < 60 && sec < 60
    ensures Printed(y, m, d, h, mi, sec) != Render(date, h, mi, sec)
  {
    if y >= 0 {
      RenderReadsBack(Date(y, m, d), h, mi, sec);
      RenderReadsBack(date, h, mi, sec);
    } else {
      assert Printed(y, m, d, h, mi, sec)[0] == '-';
      assert Render(date, h, mi, sec)[0] == Padded(date.year, 4)[0];
    }
  }

  /** The printed string is the calendar's own if and only if the year counter can hold the year. */
  method FormatRfc3339(secs: nat) returns (s: string)
    ensures s == Stamp(secs) <==> CounterFits(secs / 86400)
  {
    var days := secs / 86400;
    var daySecs := secs % 86400;
    var hours := daySecs / 3600;
    var minutes := daySecs % 3600 / 60;
    var seconds := daySecs % 60;
    var y, remDays := SubtractYears(days);
    var m, day := SubtractMonths(y, remDays);
    s := Printed(y, m, day, hours, minutes, seconds);
    PrintedIsStamp(secs, y, m, day, remDays);
  }

  lemma PrintedIsStamp(secs: nat, y: int, m: int, day: nat, remDays: nat)
    requires ValidDate(Date(y, m, day)) && DaysBeforeMonth(y, m) + day - 1 == remDays
    requires CounterFits(secs / 86400) ==> 1970 <= y && secs / 86400 == DaysBeforeYear(y) + remDays
    requires y == CivilOf(secs / 86400).year <==> CounterFits(secs / 86400)
    ensures var t := secs % 86400;
            Printed(y, m, day, Hours(t), Minutes(t), Seconds(t)) == Stamp(secs) <==> CounterFits(secs / 86400)
  {
    if CounterFits(secs / 86400) {
      DateFound(secs / 86400, y, m, day);
      PrintedRight(secs, y, m, day);
    } else {
      PrintedWrong(secs, y, m, day);
    }
  }

  lemma DateFound(days: int, y: int, m: int, day: nat)
    requires ValidDate(Date(y, m, day)) && days == DaysBeforeYear(y) + DaysBeforeMonth(y, m) + day - 1
    ensures CivilOf(days) == Date(y, m, day)
  {
    CivilUnique(Date(y, m, day));
  }

  lemma PrintedRight(secs: nat, y: nat, m: nat, day: nat)
    requires CivilOf(secs / 86400) == Date(y, m, day)
    ensures var t := secs % 86400; Printed(y, m, day, Hours(t), Minutes(t), Seconds(t)) == Stamp(secs)
  {
  }

  lemma PrintedWrong(secs: nat, y: int, m: nat, day: nat)
    requires ValidDate(Date(y, m, day)) && CivilOf(secs / 86400).year != y
    ensures var t := secs % 86400; Printed(y, m, day, Hours(t), Minutes(t), Seconds(t)) != Stamp(secs)
  {
    YearAfterEpoch(secs / 86400);
    TimeOfDay(secs % 86400);
    var t := secs % 86400;
    WrongYearDiffers(y, m, day, CivilOf(secs / 86400), Hours(t), Minutes(t), Seconds(t));
  }

  // ----- reading a stamp back ------------------------------------------------------------------

  function NumberOf(s: string): int {
    if AllDigits(s) then DigitsValue(s) else -1
  }

  lemma PaddedNumber(n: nat, width: nat)
    ensures NumberOf(Padded(n, width)) == n
  {
    PaddedValue(n, width);
  }

  /** The six numbers of a stamp, read off its positions from the end. */
  function ReadFields(s: string): seq<int>
    requires |s| >= 20
  {
    var n := |s|;
    [NumberOf(s[..n - 16]), NumberOf(s[n - 15..n - 13]), NumberOf(s[n - 12..n - 10]),
     NumberOf(s[n - 9..n - 7]), NumberOf(s[n - 6..n - 4]), NumberOf(s[n - 3..n - 1])]
  }

  /** The second count that a year, month, day, hour, minute and second stand for. */
  function FieldsToSeconds(f: seq<int>): Option<int>
    requires |f| == 6
  {
    var date := Date(f[0], f[1], f[2]);
    if ValidDate(date) then Some(DayNumber(date) * 86400 + f[3] * 3600 + f[4] * 60 + f[5]) else None
  }

  /** The second count a stamp stands for. */
  function ReadStamp(s: string): Option<int> {
    if |s| < 20 then None else FieldsToSeconds(ReadFields(s))
  }

  /** Positions in a text of one field of any length and five of two characters. */
  lemma TextPieces(y: string, mo: string, d: string, h: string, mi: string, sec: string)
    requires |mo| == |d| == |h| == |mi| == |sec| == 2
    ensures var s := y + "-" + mo + "-" + d + "T" + h + ":" + mi + ":" + sec + "Z"; var n := |s|;
            && n == |y| + 16 && s[..n - 16] == y && s[n - 15..n - 13] == mo && s[n - 12..n - 10] == d
            && s[n - 9..n - 7] == h && s[n - 6..n - 4] == mi && s[n - 3..n - 1] == sec
  {
  }

  /** The pieces of a rendered stamp, by position from the end. */
  lemma RenderPieces(date: Date, h: nat, mi: nat, sec: nat)
    requires date.year >= 0 && ValidDate(date) && h < 24 && mi < 60 && sec < 60
    ensures var s := Render(date, h, mi, sec); var n := |s|;
            && n == |Padded(date.year, 4)| + 16
            && s[..n - 16] == Padded(date.year, 4)
            && s[n - 15..n - 13] == Padded(date.month, 2) && s[n - 12..n - 10] == Padded(date.day, 2)
            && s[n - 9..n - 7] == Padded(h, 2) && s[n - 6..n - 4] == Padded(mi, 2)
            && s[n - 3..n - 1] == Padded(sec, 2)
  {
    PaddedTwo(date.month);
    PaddedTwo(date.day);
    PaddedTwo(h);
    PaddedTwo(mi);
    PaddedTwo(sec);
    TextPieces(Padded(date.year, 4), Padded(date.month, 2), Padded(date.day, 2), Padded(h, 2), Padded(mi, 2), Padded(sec, 2));
  }

  lemma TimeOfDay(t: nat)
    requires t < 86400
    ensures Hours(t) < 24 && Minutes(t) < 60 && Seconds(t) < 60
    ensures t == Hours(t) * 3600 + Minutes(t) * 60 + Seconds(t)
  {
    var h, r := t / 3600, t % 3600;
    assert t == 60 * (60 * h + r / 60) + r % 60;
  }

  lemma RenderReadsBack(date: Date, h: nat, mi: nat, sec: nat)
    requires date.year >= 0 && ValidDate(date) && h < 24 && mi < 60 && sec < 60
    ensures var s := Render(date, h, mi, sec);
            |s| >= 20 && ReadFields(s) == [date.year, date.month, date.day, h, mi, sec]
  {
    RenderPieces(date, h, mi, sec);
    PiecesRead(Render(date, h, mi, sec), date.year, date.month, date.day, h, mi, sec);
  }

  lemma PiecesRead(s: string, y: nat, mo: nat, d: nat, h: nat, mi: nat, sec: nat)
    requires var n := |s|;
             && n == |Padded(y, 4)| + 16 && s[..n - 16] == Padded(y, 4)
             && s[n - 15..n - 13] == Padded(mo, 2) && s[n - 12..n - 10] == Padded(d, 2)
             && s[n - 9..n - 7] == Padded(h, 2) && s[n - 6..n - 4] == Padded(mi, 2) && s[n - 3..n - 1] == Padded(sec, 2)
    ensures |s| >= 20 && ReadFields(s) == [y, mo, d, h, mi, sec]
  {
    PaddedNumber(y, 4);
    PaddedNumber(mo, 2);
    PaddedNumber(d, 2);
    PaddedNumber(h, 2);
    PaddedNumber(mi, 2);
    PaddedNumber(sec, 2);
  }

  lemma FieldsOfDate(date: Date, days: int, h: nat, mi: nat, sec: nat)
    requires ValidDate(date) && DayNumber(date) == days
    ensures FieldsToSeconds([date.year, date.month, date.day, h, mi, sec]) ==
            Some(days * 86400 + h * 3600 + mi * 60 + sec)
  {
  }

  /** The stamp of every second count reads back as that count. */
  lemma StampRoundTrip(secs: nat)
    ensures ReadStamp(Stamp(secs)) == Some(secs)
  {
    StampFields(secs);
    FieldsAreSeconds(secs);
  }

  /** The six numbers of a second count, through the calendar. */
  function FieldsAt(secs: nat): seq<int> {
    var d, t := CivilOf(secs / 86400), secs % 86400;
    [d.year, d.month, d.day, Hours(t), Minutes(t), Seconds(t)]
  }

  lemma StampFields(secs: nat)
    ensures ReadStamp(Stamp(secs)) == FieldsToSeconds(FieldsAt(secs))
  {
    var t := secs % 86400;
    YearAfterEpoch(secs / 86400);
    TimeOfDay(t);
    RenderedFields(CivilOf(secs / 86400), Hours(t), Minutes(t), Seconds(t));
  }

  lemma FieldsAreSeconds(secs: nat)
    ensures FieldsToSeconds(FieldsAt(secs)) == Some(secs)
  {
    var t := secs % 86400;
    SecondsSplit(secs);
    FieldsOfDate(CivilOf(secs / 86400), secs / 86400, Hours(t), Minutes(t), Seconds(t));
  }

  lemma SecondsSplit(secs: nat)
    ensures var t := secs % 86400;
            && Hours(t) < 24 && Minutes(t) < 60 && Seconds(t) < 60
            && secs == secs / 86400 * 86400 + Hours(t) * 3600 + Minutes(t) * 60 + Seconds(t)
  {
    TimeOfDay(secs % 86400);
  }

  lemma RenderedFields(date: Date, h: nat, mi: nat, sec: nat)
    requires date.year >= 0 && ValidDate(date) && h < 24 && mi < 60 && sec < 60
    ensures ReadStamp(Render(date, h, mi, sec)) == FieldsToSeconds([date.year, date.month, date.day, h, mi, sec])
  {
    RenderReadsBack(date, h, mi, sec);
  }

  // ----- string order is time order ------------------------------------------------------------

  /** Up to the year 9999 the strings compare like the instants they print. */
  lemma StampOrder(a: nat, b: nat)
    requires a < b && CivilOf(b / 86400).year <= 9999
    ensures LexLess(Stamp(a), Stamp(b))
  {
    var da, db := CivilOf(a / 86400), CivilOf(b / 86400);
    YearAfterEpoch(a / 86400);
    YearAfterEpoch(b / 86400);
    var ta, tb := a % 86400, b % 86400;
    TimeOfDay(ta);
    TimeOfDay(tb);
    if da == db {
      assert a / 86400 == b / 86400;
      TimeOrder(da, Hours(ta), Minutes(ta), Seconds(ta), Hours(tb), Minutes(tb), Seconds(tb));
    } else {
      if DateLess(db, da) {
        DayNumberMonotone(db, da);
      }
      DateOrder(da, db, Hours(ta), Minutes(ta), Seconds(ta), Hours(tb), Minutes(tb), Seconds(tb));
    }
  }

  lemma Regroup(p: string, sep: string, x: string, y: string, t: string)
    ensures p + sep + x + sep + y + t == p + (sep + x + sep + y + t)
  {
  }

  /** Two strings of three equally long fields compare by the first field that differs. */
  lemma ThreeFields(p: string, x: seq<string>, y: seq<string>, sep: string, ta: string, tb: string)
    requires |x| == |y| == 3 && forall i :: 0 <= i < 3 ==> |x[i]| == |y[i]|
    requires || LexLess(x[0], y[0])
             || (x[0] == y[0] && LexLess(x[1], y[1]))
             || (x[0] == y[0] && x[1] == y[1] && LexLess(x[2], y[2]))
    ensures LexLess(p + x[0] + sep + x[1] + sep + x[2] + ta, p + y[0] + sep + y[1] + sep + y[2] + tb)
  {
    if LexLess(x[0], y[0]) {
      LexField(p, x[0], y[0], sep + x[1] + sep + x[2] + ta, sep + y[1] + sep + y[2] + tb);
      Regroup(p + x[0], sep, x[1], x[2], ta);
      Regroup(p + y[0], sep, y[1], y[2], tb);
    } else if x[0] == y[0] && LexLess(x[1], y[1]) {
      LexField(p + x[0] + sep, x[1], y[1], sep + x[2] + ta, sep + y[2] + tb);
      assert p + x[0] + sep + x[1] + sep + x[2] + ta == p + x[0] + sep + x[1] + (sep + x[2] + ta);
      assert p + y[0] + sep + y[1] + sep + y[2] + tb == p + y[0] + sep + y[1] + (sep + y[2] + tb);
    } else {
      LexField(p + x[0] + sep + x[1] + sep, x[2], y[2], ta, tb);
    }
  }

  /** Equal or ordered numbers give equal or ordered fields of one width. */
  lemma FieldOrder(a: nat, b: nat, width: nat)
    requires |Padded(a, width)| == |Padded(b, width)| == width
    ensures a < b ==> LexLess(Padded(a, width), Padded(b, width))
  {
    if a < b {
      PaddedOrder(a, b, width);
    }
  }

  function TimeText(h: nat, m: nat, s: nat): string {
    "T" + Padded(h, 2) + ":" + Padded(m, 2) + ":" + Padded(s, 2) + "Z"
  }

  lemma DateOrder(a: Date, b: Date, h: nat, m: nat, s: nat, h': nat, m': nat, s': nat)
    requires ValidDate(a) && ValidDate(b) && 0 <= a.year && 0 <= b.year <= 9999 && DateLess(a, b)
    ensures LexLess(Render(a, h, m, s), Render(b, h', m', s'))
  {
    DateFields(a, b);
    var x := [Padded(a.year, 4), Padded(a.month, 2), Padded(a.day, 2)];
    var y := [Padded(b.year, 4), Padded(b.month, 2), Padded(b.day, 2)];
    ThreeFields([], x, y, "-", TimeText(h, m, s), TimeText(h', m', s'));
    RenderDate(a, h, m, s);
    RenderDate(b, h', m', s');
  }

  lemma RenderDate(a: Date, h: nat, m: nat, s: nat)
    requires ValidDate(a) && 0 <= a.year
    ensures Render(a, h, m, s) ==
            [] + Padded(a.year, 4) + "-" + Padded(a.month, 2) + "-" + Padded(a.day, 2) + TimeText(h, m, s)
  {
    RenderDateText(Padded(a.year, 4), Padded(a.month, 2), Padded(a.day, 2), Padded(h, 2), Padded(m, 2), Padded(s, 2));
  }

  lemma RenderDateText(y: string, mo: string, d: string, h: string, m: string, s: string)
    ensures y + "-" + mo + "-" + d + "T" + h + ":" + m + ":" + s + "Z" ==
            [] + y + "-" + mo + "-" + d + ("T" + h + ":" + m + ":" + s + "Z")
  {
  }

  lemma DateFields(a: Date, b: Date)
    requires ValidDate(a) && ValidDate(b) && 0 <= a.year && 0 <= b.year <= 9999 && DateLess(a, b)
    ensures |Padded(a.year, 4)| == |Padded(b.year, 4)| && |Padded(a.month, 2)| == |Padded(b.month, 2)|
            && |Padded(a.day, 2)| == |Padded(b.day, 2)|
    ensures || LexLess(Padded(a.year, 4), Padded(b.year, 4))
            || (a.year == b.year && LexLess(Padded(a.month, 2), Padded(b.month, 2)))
            || (a.year == b.year && a.month == b.month && LexLess(Padded(a.day, 2), Padded(b.day, 2)))
  {
    PaddedFour(a.year);
    PaddedFour(b.year);
    PaddedTwo(a.month);
    PaddedTwo(b.month);
    PaddedTwo(a.day);
    PaddedTwo(b.day);
    FieldOrder(a.year, b.year, 4);
    FieldOrder(a.month, b.month, 2);
    FieldOrder(a.day, b.day, 2);
  }

  lemma TimeOrder(d: Date, h: nat, m: nat, s: nat, h': nat, m': nat, s': nat)
    requires ValidDate(d) && 0 <= d.year
    requires h < 24 && h' < 24 && m < 60 && m' < 60 && s < 60 && s' < 60
    requires h * 3600 + m * 60 + s < h' * 3600 + m' * 60 + s'
    ensures LexLess(Render(d, h, m, s), Render(d, h', m', s'))
  {
    var p := Padded(d.year, 4) + "-" + Padded(d.month, 2) + "-" + Padded(d.day, 2) + "T";
    TimeFields(h, m, s, h', m', s');
    ThreeFields(p, [Padded(h, 2), Padded(m, 2), Padded(s, 2)], [Padded(h', 2), Padded(m', 2), Padded(s', 2)],
                ":", "Z", "Z");
  }

  lemma TimeFields(h: nat, m: nat, s: nat, h': nat, m': nat, s': nat)
    requires h < 24 && h' < 24 && m < 60 && m' < 60 && s < 60 && s' < 60
    requires h * 3600 + m * 60 + s < h' * 3600 + m' * 60 + s'
    ensures |Padded(h, 2)| == |Padded(h', 2)| && |Padded(m, 2)| == |Padded(m', 2)|
            && |Padded(s, 2)| == |Padded(s', 2)|
    ensures || LexLess(Padded(h, 2), Padded(h', 2))
            || (h == h' && LexLess(Padded(m, 2), Padded(m', 2)))
            || (h == h' && m == m' && LexLess(Padded(s, 2), Padded(s', 2)))
  {
    PaddedTwo(h);
    PaddedTwo(h');
    PaddedTwo(m);
    PaddedTwo(m');
    PaddedTwo(s);
    PaddedTwo(s');
    FieldOrder(h, h', 2);
    FieldOrder(m, m', 2);
    FieldOrder(s, s', 2);
  }

  // ----- the scheduler reads the same clock ----------------------------------------------------

  /** The date, hour and minute the scheduler sees in a minute are the ones printed for its first second. */
  lemma MinutePrintsAsSeen(t: nat)
    ensures 60 * t / 86400 == CS.DayOf(t)
    ensures var s := 60 * t % 86400; Hours(s) == CS.HourOf(t) && Minutes(s) == CS.MinuteOf(t) && Seconds(s) == 0
  {
    var day, hour, minute := CS.DayOf(t), CS.HourOf(t), CS.MinuteOf(t);
    CS.HourSplit(t);
    assert t == 60 * (t / 60) + minute && t / 60 == 24 * day + hour;
    SplitTime(60 * t, day, hour, minute, 0);
  }

  lemma QuotientIs(a: int, k: int, q: int, r: int)
    requires k == 60 || k == 3600 || k == 86400
    requires a == k * q + r && 0 <= r < k
    ensures a / k == q && a % k == r
  {
  }

  // ----- two stamps in full --------------------------------------------------------------------

  /** The text of a known date and time. */
  lemma StampOfDate(secs: nat, date: Date, days: nat, h: nat, mi: nat, sec: nat)
    requires ValidDate(date) && date.year >= 0 && DayNumber(date) == days && h < 24 && mi < 60 && sec < 60
    requires secs == days * 86400 + h * 3600 + mi * 60 + sec
    ensures Stamp(secs) == Render(date, h, mi, sec)
  {
    SplitTime(secs, days, h, mi, sec);
    CivilUnique(date);
  }

  lemma SplitTime(secs: nat, days: nat, h: nat, mi: nat, sec: nat)
    requires h < 24 && mi < 60 && sec < 60 && secs == days * 86400 + h * 3600 + mi * 60 + sec
    ensures secs / 86400 == days
    ensures var t := secs % 86400; Hours(t) == h && Minutes(t) == mi && Seconds(t) == sec
  {
    var t := h * 3600 + mi * 60 + sec;
    QuotientIs(secs, 86400, days, t);
    QuotientIs(t, 3600, h, mi * 60 + sec);
    QuotientIs(mi * 60 + sec, 60, mi, sec);
    QuotientIs(t, 60, h * 60 + mi, sec);
  }

  lemma EpochStamp(secs: nat, date: Date)
    requires secs == 0 && date == Date(1970, 1, 1)
    ensures Stamp(secs) == "1970-01-01T00:00:00Z"
  {
    TwoDays();
    StampOfDate(secs, date, 0, 0, 0, 0);
    EpochText(date, 0, 0, 0);
  }

  /** One billion seconds: almost every field differs from every other. */
  lemma BillionStamp(secs: nat, date: Date)
    requires secs == 1_000_000_000 && date == Date(2001, 9, 9)
    ensures Stamp(secs) == "2001-09-09T01:46:40Z"
  {
    TwoDays();
    StampOfDate(secs, date, 11574, 1, 46, 40);
    BillionText(date, 1, 46, 40);
  }

  lemma TwoDays()
    ensures DayNumber(Date(1970, 1, 1)) == 0 && DayNumber(Date(2001, 9, 9)) == 11574
  {
    assert DaysBeforeMonth(2001, 5) == 120;
    assert DaysBeforeMonth(2001, 9) == 243;
  }

  lemma EpochText(date: Date, h: nat, mi: nat, sec: nat)
    requires date == Date(1970, 1, 1) && h == mi == sec == 0
    ensures Render(date, h, mi, sec) == "1970-01-01T00:00:00Z"
  {
    PaddedDigits();
    PaddedYears();
    assert "1970" + "-" + "01" + "-" + "01" + "T" + "00" + ":" + "00" + ":" + "00" + "Z" == "1970-01-01T00:00:00Z";
  }

  lemma BillionText(date: Date, h: nat, mi: nat, sec: nat)
    requires date == Date(2001, 9, 9) && h == 1 && mi == 46 && sec == 40
    ensures Render(date, h, mi, sec) == "2001-09-09T01:46:40Z"
  {
    PaddedDigits();
    PaddedYears();
    assert "2001" + "-" + "09" + "-" + "09" + "T" + "01" + ":" + "46" + ":" + "40" + "Z" == "2001-09-09T01:46:40Z";
  }

  lemma PaddedDigits()
    ensures Padded(0, 2) == "00" && Padded(1, 2) == "01" && Padded(9, 2) == "09" && Padded(46, 2) == "46" && Padded(40, 2) == "40"
  {
    assert PrintNat(46) == "46" && PrintNat(40) == "40";
    assert Zeros(1) == "0";
  }

  lemma PaddedYears()
    ensures Padded(1970, 4) == "1970" && Padded(2001, 4) == "2001"
  {
    assert PrintNat(19) == "19" && PrintNat(197) == "197" && PrintNat(1970) == "1970";
    assert PrintNat(20) == "20" && PrintNat(200) == "200" && PrintNat(2001) == "2001";
  }
}
