/** The proleptic Gregorian calendar over integer day numbers, as JavaScript's
    `Date` sees it. Day 0 is 1970-01-01, a Thursday; an `Instant` is a count of
    minutes since 1970-01-01 00:00, so local midnight of day `d` is
    `d * MinutesPerDay`. */
module Gregorian {

  type Instant = int

  const MinutesPerDay: int := 1440

  /** The day an instant falls on (floor division, also before 1970). */
  function DayOf(t: Instant): int {
    t / MinutesPerDay
  }

  /** Midnight at the start of day `d` (what `setHours(0, 0, 0, 0)` yields). */
  function StartOfDay(d: int): (t: Instant)
    ensures DayOf(t) == d
  {
    d * MinutesPerDay
  }

  /** A time of day stays on its day. */
  lemma DayOfTimeOfDay(d: int, m: int)
    requires 0 <= m < MinutesPerDay
    ensures DayOf(StartOfDay(d) + m) == d
  {
  }

  /** `Date.prototype.getDay`: 0 = Sunday, 1 = Monday, ..., 6 = Saturday.
      1970-01-01 and every seventh day before or after it is a Thursday. */
  function DayOfWeek(d: int): (w: int)
    ensures 0 <= w <= 6
    ensures d % 7 == 0 ==> w == 4
  {
    (d + 4) % 7
  }

  /** Weekdays advance by one each day: `k` days later `getDay()` has moved
      on by `k` modulo 7. */
  lemma DayOfWeekShift(d: int, k: int)
    ensures DayOfWeek(d + k) == (DayOfWeek(d) + k) % 7
  {
  }

  predicate IsLeapYear(y: int) {
    y % 4 == 0 && (y % 100 != 0 || y % 400 == 0)
  }

  function DaysInYear(y: int): int {
    if IsLeapYear(y) then 366 else 365
  }

  function DaysInMonth(y: int, m: int): int
    requires 1 <= m <= 12
  {
    if m == 2 then (if IsLeapYear(y) then 29 else 28)
    else if m == 4 || m == 6 || m == 9 || m == 11 then 30
    else 31
  }

  /** Days of year `y` that precede the first of month `m`. */
  function DaysBeforeMonth(y: int, m: int): int
    requires 1 <= m <= 12
  {
    var common :=
      if m == 1 then 0 else if m == 2 then 31 else if m == 3 then 59
      else if m == 4 then 90 else if m == 5 then 120 else if m == 6 then 151
      else if m == 7 then 181 else if m == 8 then 212 else if m == 9 then 243
      else if m == 10 then 273 else if m == 11 then 304 else 334;
    if m > 2 && IsLeapYear(y) then common + 1 else common
  }

  /** Day number of January 1st of year `y` (negative before 1970). */
  function DaysBeforeYear(y: int): int
    decreases if y < 1970 then 1970 - y else y - 1970
  {
    if y == 1970 then 0
    else if y > 1970 then DaysBeforeYear(y - 1) + DaysInYear(y - 1)
    else DaysBeforeYear(y + 1) - DaysInYear(y)
  }

  datatype Date = Date(year: int, month: int, day: int)

  predicate ValidDate(c: Date) {
    1 <= c.month <= 12 && 1 <= c.day <= DaysInMonth(c.year, c.month)
  }

  function ToDayNumber(c: Date): int
    requires ValidDate(c)
  {
    DaysBeforeYear(c.year) + DaysBeforeMonth(c.year, c.month) + c.day - 1
  }

  lemma YearStep(y: int)
    ensures DaysBeforeYear(y + 1) == DaysBeforeYear(y) + DaysInYear(y)
  {
  }

  /** Months tile the year: each month starts where the previous one ends. */
  lemma MonthStep(y: int, m: int)
    requires 1 <= m <= 12
    ensures m < 12 ==> DaysBeforeMonth(y, m + 1) == DaysBeforeMonth(y, m) + DaysInMonth(y, m)
    ensures DaysBeforeMonth(y, m) + DaysInMonth(y, m) <= DaysInYear(y)
    ensures m == 12 ==> DaysBeforeMonth(y, m) + DaysInMonth(y, m) == DaysInYear(y)
  {
  }

  /** January 1st of a later year never comes earlier. */
  lemma {:induction false} YearsAreOrdered(a: int, b: int)
    requires a <= b
    ensures DaysBeforeYear(a) + 365 * (b - a) <= DaysBeforeYear(b)
    decreases b - a
  {
    if a < b {
      YearsAreOrdered(a, b - 1);
      YearStep(b - 1);
    }
  }

  /** Splits `DaysBeforeYear(y) + offset` into a year and a day-of-year. */
  function FindYear(offset: int, y: int): (r: (int, int))
    ensures 0 <= r.1 < DaysInYear(r.0)
    ensures DaysBeforeYear(r.0) + r.1 == DaysBeforeYear(y) + offset
    decreases if offset < 0 then -offset else 0, if offset < 0 then 0 else offset
  {
    if offset < 0 then
      YearStep(y - 1);
      FindYear(offset + DaysInYear(y - 1), y - 1)
    else if offset < DaysInYear(y) then
      (y, offset)
    else
      YearStep(y);
      FindYear(offset - DaysInYear(y), y + 1)
  }

  /** Splits a day-of-year `DaysBeforeMonth(y, m) + rest` into a month and a day-of-month. */
  function FindMonth(y: int, rest: int, m: int): (r: (int, int))
    requires 1 <= m <= 12 && 0 <= rest
    requires DaysBeforeMonth(y, m) + rest < DaysInYear(y)
    ensures m <= r.0 <= 12 && 0 <= r.1 < DaysInMonth(y, r.0)
    ensures DaysBeforeMonth(y, r.0) + r.1 == DaysBeforeMonth(y, m) + rest
    decreases 12 - m
  {
    MonthStep(y, m);
    if rest < DaysInMonth(y, m) then (m, rest)
    else FindMonth(y, rest - DaysInMonth(y, m), m + 1)
  }

  /** The calendar date of day number `d`; `ToDayNumber` is its inverse. */
  function FromDayNumber(d: int): (c: Date)
    ensures ValidDate(c)
    ensures ToDayNumber(c) == d
  {
    var (y, dayOfYear) := FindYear(d, 1970);
    var (m, dayOfMonth) := FindMonth(y, dayOfYear, 1);
    Date(y, m, dayOfMonth + 1)
  }

  /** Day numbers of a year lie between its January 1st and the next one's. */
  lemma DayNumberWithinYear(c: Date)
    requires ValidDate(c)
    ensures DaysBeforeYear(c.year) <= ToDayNumber(c) < DaysBeforeYear(c.year + 1)
  {
    MonthStep(c.year, c.month);
    YearStep(c.year);
  }

  /** The day numbers whose dates have a year from 0 through 9999. */
  predicate InFourDigitYears(d: int) {
    DaysBeforeYear(0) <= d < DaysBeforeYear(10000)
  }

  lemma FourDigitYear(d: int)
    ensures InFourDigitYears(d) <==> 0 <= FromDayNumber(d).year <= 9999
  {
    var c := FromDayNumber(d);
    DayNumberWithinYear(c);
    if c.year < 0 {
      YearsAreOrdered(c.year + 1, 0);
    } else if c.year > 9999 {
      YearsAreOrdered(10000, c.year);
    } else {
      YearsAreOrdered(0, c.year);
      YearsAreOrdered(c.year + 1, 10000);
    }
  }
}
