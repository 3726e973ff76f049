/** Time as the dashboard uses it: instants are integer milliseconds since
    1970-01-01T00:00:00.000, days are integer day numbers since that date, and
    local time is taken to coincide with UTC (no time zone, no daylight
    saving). Civil dates follow the proleptic Gregorian calendar, as
    ECMAScript's `Date` does. */
module Calendar {

  const MsPerDay: int := 86_400_000

  /** The day an instant falls on. */
  function DayOf(ts: int): int
  {
    ts / MsPerDay
  }

  /** `setHours(0, 0, 0, 0)` and `setHours(23, 59, 59, 999)` on a copy of the
      instant: the first and last millisecond of its day. */
  function StartOfDay(date: int): int
  {
    DayOf(date) * MsPerDay
  }

  function EndOfDay(date: int): int
  {
    StartOfDay(date) + MsPerDay - 1
  }

  /** The inclusive window `[00:00:00.000, 23:59:59.999]` of a date holds
      exactly the instants of that day. */
  lemma DayWindowIff(ts: int, date: int)
    ensures StartOfDay(date) <= date <= EndOfDay(date)
    ensures StartOfDay(date) <= ts <= EndOfDay(date) <==> DayOf(ts) == DayOf(date)
  {
  }

  /** The first millisecond of day `d`, and any instant of that day. */
  lemma DayOfInstant(d: int, ms: int)
    requires 0 <= ms < MsPerDay
    ensures DayOf(d * MsPerDay + ms) == d
  {
  }

  /** Moving an instant by whole days moves its day by as many. */
  lemma DayOfShift(ts: int, k: int)
    ensures DayOf(ts + k * MsPerDay) == DayOf(ts) + k
  {
  }

  // ---------------------------------------------------------------------------
  // The Gregorian calendar

  predicate IsLeapYear(y: int)
  {
    y % 4 == 0 && (y % 100 != 0 || y % 400 == 0)
  }

  function DaysInMonth(y: int, m: int): int
    requires 1 <= m <= 12
  {
    if m == 2 then (if IsLeapYear(y) then 29 else 28)
    else if m == 4 || m == 6 || m == 9 || m == 11 then 30
    else 31
  }

  function DaysInYear(y: int): int
  {
    if IsLeapYear(y) then 366 else 365
  }

  /** Days of year `y` before the first of month `m` (13 stands for the end
      of the year). */
  function DaysBeforeMonth(y: int, m: int): (r: int)
    requires 1 <= m <= 13
    ensures 0 <= r <= 366
  {
    var leap := if m > 2 && IsLeapYear(y) then 1 else 0;
    if m <= 6 then
      (if m == 1 then 0 else if m == 2 then 31 else if m == 3 then 59
       else if m == 4 then 90 else if m == 5 then 120 else 151) + leap
    else
      (if m == 7 then 181 else if m == 8 then 212 else if m == 9 then 243
       else if m == 10 then 273 else if m == 11 then 304 else if m == 12 then 334 else 365) + leap
  }

  lemma MonthStep(y: int, m: int)
    requires 1 <= m <= 12
    ensures DaysBeforeMonth(y, m + 1) == DaysBeforeMonth(y, m) + DaysInMonth(y, m)
    ensures DaysBeforeMonth(y, 13) == DaysInYear(y)
  {
  }

  /** Leap years among 1 .. y (for y >= 0; the same formula counts them
      downwards for negative years). */
  function LeapsThrough(y: int): int
  {
    y / 4 - y / 100 + y / 400
  }

  /** Day number of January 1 of year `y`. */
  function YearStart(y: int): int
  {
    365 * (y - 1970) + LeapsThrough(y - 1) - LeapsThrough(1969)
  }

  lemma {:induction false} YearStep(y: int)
    ensures YearStart(y + 1) == YearStart(y) + DaysInYear(y)
  {
    Step4(y);
    Step100(y);
    Step400(y);
    Multiples(y);
    assert YearStart(y + 1) - YearStart(y) == 365 + LeapsThrough(y) - LeapsThrough(y - 1);
  }

  /** A multiple of 400 is a multiple of 100, and a multiple of 100 one of 4. */
  lemma Multiples(y: int)
    ensures y % 400 == 0 ==> y % 100 == 0
    ensures y % 100 == 0 ==> y % 4 == 0
  {
    if y % 400 == 0 {
      MultipleMod(4 * (y / 400), 100);
    }
    if y % 100 == 0 {
      MultipleMod(25 * (y / 100), 4);
    }
  }

  lemma MultipleMod(k: int, d: int)
    requires d > 0
    ensures (d * k) % d == 0
  {
    var q, r := (d * k) / d, (d * k) % d;
    assert d * k == d * q + r && 0 <= r < d;
    assert r == d * (k - q);
    MulBounds(d, k - q);
  }

  /** A non-zero multiple of `d` is at least `d` away from 0. */
  lemma MulBounds(d: int, m: int)
    requires d > 0
    ensures m >= 1 ==> d * m >= d
    ensures m <= -1 ==> d * m <= -d
  {
    if m >= 1 {
      assert d * m == d + d * (m - 1);
    } else if m <= -1 {
      assert d * m == -d + d * (m + 1);
    }
  }

  // Stepping a year changes each quotient of the leap-year count by one
  // exactly when the year is a multiple of the divisor.

  lemma Step4(y: int)
    ensures y / 4 - (y - 1) / 4 == if y % 4 == 0 then 1 else 0
  {
  }

  lemma Step100(y: int)
    ensures y / 100 - (y - 1) / 100 == if y % 100 == 0 then 1 else 0
  {
  }

  lemma Step400(y: int)
    ensures y / 400 - (y - 1) / 400 == if y % 400 == 0 then 1 else 0
  {
  }

  /** Day number of the civil date `y-m-d`. */
  function DaysFromCivil(y: int, m: int, d: int): int
    requires 1 <= m <= 12
  {
    YearStart(y) + DaysBeforeMonth(y, m) + d - 1
  }

  // ---------------------------------------------------------------------------
  // ECMAScript `new Date(year, monthIndex, date)`

  /** `new Date(y, ...)` reads a year from 0 to 99 as 1900 + y. */
  function FullYear(y: int): int
  {
    if 0 <= y <= 99 then 1900 + y else y
  }

  /** The day of `new Date(year, monthIndex, date)`: the month index may run
      past 11 (into the next years) and the date may be 0 (the last day of the
      previous month), as ECMAScript's MakeDay allows. */
  function LocalDay(year: int, monthIndex: int, date: int): int
  {
    var y := FullYear(year) + monthIndex / 12;
    var m := monthIndex % 12 + 1;
    DaysFromCivil(y, m, 1) + date - 1
  }

  /** A month index from 0 to 11 stays in the given year; 12 is January of
      the next one. */
  lemma LocalDayMonthIndex(year: int, monthIndex: int, date: int)
    requires 0 <= monthIndex <= 12
    ensures monthIndex < 12 ==>
      LocalDay(year, monthIndex, date) == DaysFromCivil(FullYear(year), monthIndex + 1, 1) + date - 1
    ensures monthIndex == 12 ==>
      LocalDay(year, monthIndex, date) == YearStart(FullYear(year) + 1) + date - 1
  {
    if monthIndex < 12 {
      assert monthIndex / 12 == 0 && monthIndex % 12 == monthIndex;
    } else {
      assert monthIndex / 12 == 1 && monthIndex % 12 == 0;
    }
  }

  /** `new Date(year, month, 0)` is the last day of month `month` (1-based). */
  lemma LastDayOfMonth(year: int, month: int)
    requires 1 <= month <= 12
    ensures LocalDay(year, month, 0) == LocalDay(year, month - 1, 1) + DaysInMonth(FullYear(year), month) - 1
  {
    var y := FullYear(year);
    LocalDayMonthIndex(year, month, 0);
    LocalDayMonthIndex(year, month - 1, 1);
    MonthStep(y, month);
    if month == 12 {
      YearStep(y);
    }
  }

  /** The month windows of a year tile it: January starts on January 1, each
      month starts the day after the previous one ends, and December ends on
      December 31. */
  lemma MonthsTileYear(year: int, month: int)
    requires 1 <= month <= 12
    ensures LocalDay(year, 0, 1) == DaysFromCivil(FullYear(year), 1, 1)
    ensures month < 12 ==> LocalDay(year, month, 1) == LocalDay(year, month, 0) + 1
    ensures LocalDay(year, 12, 0) == LocalDay(year, 11, 31)
    ensures LocalDay(year, 11, 31) == DaysFromCivil(FullYear(year), 12, 31)
  {
    var y := FullYear(year);
    LocalDayMonthIndex(year, 0, 1);
    LocalDayMonthIndex(year, month, 1);
    LocalDayMonthIndex(year, month, 0);
    LocalDayMonthIndex(year, 12, 0);
    LocalDayMonthIndex(year, 11, 31);
    YearStep(y);
    MonthStep(y, 12);
  }

  const MaxTimeValue: int := 8_640_000_000_000_000

  /** ECMAScript time values are limited to 10^8 days either side of the
      epoch; outside, a `Date` is invalid and `toISOString` throws. */
  predicate ValidTime(t: int)
  {
    -MaxTimeValue <= t <= MaxTimeValue
  }

  /** `setHours` leaves the time range at the extremes, and `toISOString`
      then throws. */
  predicate DayBoundsValid(date: int)
  {
    ValidTime(StartOfDay(date)) && ValidTime(EndOfDay(date))
  }

  /** The range ends on a day boundary, so a day window is valid exactly
      when its instant is valid and is not the range's very last one. */
  lemma DayBoundsValidIff(date: int)
    ensures DayBoundsValid(date) <==> -MaxTimeValue <= date < MaxTimeValue
  {
    var d := DayOf(date);
    assert d * MsPerDay <= date < d * MsPerDay + MsPerDay;
    assert MaxTimeValue == 100_000_000 * MsPerDay;
    if -MaxTimeValue <= date < MaxTimeValue {
      assert -100_000_000 <= d < 100_000_000;
    }
  }
}
