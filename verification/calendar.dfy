/** Calendar arithmetic of JavaScript `Date` as ECMA-262 defines it (clause
    21.4.1, "Date Objects"): `setMonth` and `setFullYear` rebuild the day
    with MakeDay, which counts the day-of-month forward from the first of the
    target month, so a day the target month lacks spills into the next one.
    Months are 1..12 here (JavaScript numbers them 0..11). Time zones and
    daylight saving are not modelled: a moment is a local date plus the
    milliseconds since local midnight. */
module Calendar {
  import opened Common

  datatype Date = Date(year: int, month: int, day: int)

  /** A local date and the time of day in milliseconds. */
  datatype Moment = Moment(date: Date, msOfDay: int)

  predicate IsLeapYear(y: int) {
    y % 4 == 0 && (y % 100 != 0 || y % 400 == 0)
  }

  function DaysInMonth(y: int, m: int): (n: int)
    requires 1 <= m <= 12
    ensures 28 <= n <= 31
    ensures m == 2 ==> (n == 29 <==> IsLeapYear(y))
  {
    if m == 2 then (if IsLeapYear(y) then 29 else 28)
    else if m in {4, 6, 9, 11} then 30
    else 31
  }

  function DaysInYear(y: int): int {
    if IsLeapYear(y) then 366 else 365
  }

  predicate ValidDate(d: Date) {
    1 <= d.month <= 12 && 1 <= d.day <= DaysInMonth(d.year, d.month)
  }

  predicate ValidMoment(t: Moment) {
    ValidDate(t.date) && 0 <= t.msOfDay < DayMs
  }

  /** DayFromYear of ECMA-262: the day number of 1 January of `y`
      (day 0 is 1 January 1970). `/` is floor division for a positive divisor. */
  function DayFromYear(y: int): int {
    365 * (y - 1970) + (y - 1969) / 4 - (y - 1901) / 100 + (y - 1601) / 400
  }

  /** Days of year `y` before the first of month `m`. */
  function DaysBeforeMonth(y: int, m: int): int
    requires 1 <= m <= 12
  {
    if m == 1 then 0 else DaysBeforeMonth(y, m - 1) + DaysInMonth(y, m - 1)
  }

  /** Day number of the first of month `m` of year `y`. */
  function MonthStart(y: int, m: int): int
    requires 1 <= m <= 12
  {
    DayFromYear(y) + DaysBeforeMonth(y, m)
  }

  /** Day number of a date, counted from 1 January 1970. */
  function DayNumber(d: Date): int
    requires 1 <= d.month <= 12
  {
    MonthStart(d.year, d.month) + d.day - 1
  }

  /** The time value of a moment: milliseconds since the epoch. */
  function TimeValue(t: Moment): Timestamp
    requires 1 <= t.date.month <= 12
  {
    DayNumber(t.date) * DayMs + t.msOfDay
  }

  /** The month after (y, m). */
  function NextMonth(y: int, m: int): (r: (int, int))
    requires 1 <= m <= 12
    ensures 1 <= r.1 <= 12
  {
    if m == 12 then (y + 1, 1) else (y, m + 1)
  }

  /** MakeDay(y, monthIndex, day) for a day-of-month taken from a valid date:
      `monthIndex` is zero-based and may lie outside 0..11 (it carries into
      the year), and a day past the end of the target month rolls into the
      next month. */
  function MakeDate(y: int, monthIndex: int, day: int): (d: Date)
    requires 1 <= day <= 31
    ensures ValidDate(d)
  {
    var ty, tm := y + monthIndex / 12, monthIndex % 12 + 1;
    var len := DaysInMonth(ty, tm);
    if day <= len then Date(ty, tm, day)
    else
      var (ny, nm) := NextMonth(ty, tm);
      Date(ny, nm, day - len)
  }

  /** `d.setMonth(d.getMonth() + k)`. */
  function AddMonths(d: Date, k: int): Date
    requires ValidDate(d)
  {
    MakeDate(d.year, d.month - 1 + k, d.day)
  }

  /** Where `setMonth` lands, in ECMA-262 terms: `day - 1` days after the
      first of the target month; the day of the month survives exactly when
      the target month has that day. */
  lemma AddMonthsDay(d: Date, k: int)
    requires ValidDate(d)
    ensures var mi := d.month - 1 + k;
      DayNumber(AddMonths(d, k)) == DayNumber(Date(d.year + mi / 12, mi % 12 + 1, 1)) + d.day - 1
    ensures var mi := d.month - 1 + k;
      AddMonths(d, k).day == d.day <==> d.day <= DaysInMonth(d.year + mi / 12, mi % 12 + 1)
  {
    var mi := d.month - 1 + k;
    assert AddMonths(d, k) == MakeDate(d.year, mi, d.day);
    MakeDateIsMakeDay(d.year, mi, d.day);
    MakeDateKeepsDay(d.year, mi, d.day);
  }

  lemma MakeDateKeepsDay(y: int, monthIndex: int, day: int)
    requires 1 <= day <= 31
    ensures MakeDate(y, monthIndex, day).day == day <==> day <= DaysInMonth(y + monthIndex / 12, monthIndex % 12 + 1)
  {
    var ty, tm := y + monthIndex / 12, monthIndex % 12 + 1;
    if day > DaysInMonth(ty, tm) {
      assert MakeDate(y, monthIndex, day).day == day - DaysInMonth(ty, tm);
    }
  }

  /** `d.setFullYear(d.getFullYear() + k)`. */
  function AddYears(d: Date, k: int): Date
    requires ValidDate(d)
  {
    MakeDate(d.year + k, d.month - 1, d.day)
  }

  // ---------------------------------------------------------------------
  // The day count agrees with the calendar.

  /** A year is 366 days long exactly when it is a leap year. */
  lemma DayFromYearStep(y: int)
    ensures DayFromYear(y + 1) == DayFromYear(y) + DaysInYear(y)
  {
    assert DayFromYear(y + 1) == 365 * (y - 1969) + (y - 1968) / 4 - (y - 1900) / 100 + (y - 1600) / 400;
    FourYearStep(y);
    CenturyStep(y);
    FourCenturyStep(y);
    LeapDivisors(y);
    var leap := (if y % 4 == 0 then 1 else 0) - (if y % 100 == 0 then 1 else 0) + (if y % 400 == 0 then 1 else 0);
    assert DaysInYear(y) == 365 + leap;
  }

  /** A multiple of 400 is a multiple of 100, which is a multiple of 4. */
  lemma LeapDivisors(y: int)
    ensures y % 100 == 0 ==> y % 4 == 0
    ensures y % 400 == 0 ==> y % 100 == 0
  {
    if y % 100 == 0 {
      assert y == 4 * (25 * (y / 100));
    }
    if y % 400 == 0 {
      assert y == 100 * (4 * (y / 400));
    }
  }

  /** The count of years divisible by 4 grows exactly at such a year. */
  lemma FourYearStep(y: int)
    ensures (y - 1968) / 4 == (y - 1969) / 4 + (if y % 4 == 0 then 1 else 0)
  {
  }

  lemma CenturyStep(y: int)
    ensures (y - 1900) / 100 == (y - 1901) / 100 + (if y % 100 == 0 then 1 else 0)
  {
  }

  lemma FourCenturyStep(y: int)
    ensures (y - 1600) / 400 == (y - 1601) / 400 + (if y % 400 == 0 then 1 else 0)
  {
  }

  lemma DaysBeforeDecember(y: int)
    ensures DaysBeforeMonth(y, 12) + DaysInMonth(y, 12) == DaysInYear(y)
  {
    var feb := DaysInMonth(y, 2);
    assert DaysBeforeMonth(y, 2) == 31;
    assert DaysBeforeMonth(y, 3) == 31 + feb;
    assert DaysBeforeMonth(y, 4) == 62 + feb;
    assert DaysBeforeMonth(y, 5) == 92 + feb;
    assert DaysBeforeMonth(y, 6) == 123 + feb;
    assert DaysBeforeMonth(y, 7) == 153 + feb;
    assert DaysBeforeMonth(y, 8) == 184 + feb;
    assert DaysBeforeMonth(y, 9) == 215 + feb;
    assert DaysBeforeMonth(y, 10) == 245 + feb;
    assert DaysBeforeMonth(y, 11) == 276 + feb;
    assert DaysBeforeMonth(y, 12) == 306 + feb;
  }

  /** The first of the next month lies exactly one month length later. */
  lemma MonthStartStep(y: int, m: int)
    requires 1 <= m <= 12
    ensures MonthStart(NextMonth(y, m).0, NextMonth(y, m).1) == MonthStart(y, m) + DaysInMonth(y, m)
  {
    if m == 12 {
      DayFromYearStep(y);
      DaysBeforeDecember(y);
    }
  }

  /** Months numbered consecutively: (y, m) is month 12 * y + m - 1. */
  function MonthOrdinal(y: int, m: int): int {
    12 * y + m - 1
  }

  /** A later month starts at least one full month after the start of (y, m). */
  lemma {:induction false} MonthStartIncreasing(y: int, m: int, y2: int, m2: int)
    requires 1 <= m <= 12 && 1 <= m2 <= 12
    requires MonthOrdinal(y, m) < MonthOrdinal(y2, m2)
    ensures MonthStart(y2, m2) >= MonthStart(y, m) + DaysInMonth(y, m)
    decreases MonthOrdinal(y2, m2) - MonthOrdinal(y, m)
  {
    MonthStartStep(y, m);
    var (ny, nm) := NextMonth(y, m);
    if MonthOrdinal(ny, nm) < MonthOrdinal(y2, m2) {
      MonthStartIncreasing(ny, nm, y2, m2);
    } else {
      assert ny == y2 && nm == m2;
    }
  }

  /** MakeDate is ECMA-262's MakeDay: the first of the target month plus
      `day - 1` days, whether or not the day spills over. */
  lemma MakeDateIsMakeDay(y: int, monthIndex: int, day: int)
    requires 1 <= day <= 31
    ensures DayNumber(MakeDate(y, monthIndex, day))
         == MonthStart(y + monthIndex / 12, monthIndex % 12 + 1) + day - 1
  {
    var ty, tm := y + monthIndex / 12, monthIndex % 12 + 1;
    if day > DaysInMonth(ty, tm) {
      MonthStartStep(ty, tm);
    }
  }

  /** Moving a valid date forward by a positive number of months gives a
      later day. */
  lemma AddMonthsLater(d: Date, k: int)
    requires ValidDate(d) && k >= 1
    ensures DayNumber(AddMonths(d, k)) > DayNumber(d)
  {
    var mi := d.month - 1 + k;
    var ty, tm := d.year + mi / 12, mi % 12 + 1;
    assert AddMonths(d, k) == MakeDate(d.year, mi, d.day);
    MakeDateIsMakeDay(d.year, mi, d.day);
    assert mi == 12 * (mi / 12) + mi % 12;
    LaterMonthLaterDay(d, ty, tm, d.day);
  }

  /** Moving a valid date forward by a positive number of years gives a
      later day. */
  lemma AddYearsLater(d: Date, k: int)
    requires ValidDate(d) && k >= 1
    ensures DayNumber(AddYears(d, k)) > DayNumber(d)
  {
    YearsAreTwelveMonths(d, k);
    AddMonthsLater(d, 12 * k);
  }

  /** `setFullYear(y + k)` lands where `setMonth(m + 12 * k)` would,
      29 February included. */
  lemma YearsAreTwelveMonths(d: Date, k: int)
    requires ValidDate(d)
    ensures AddYears(d, k) == AddMonths(d, 12 * k)
  {
    var mi := d.month - 1;
    assert mi / 12 == 0 && mi % 12 == mi;
    assert (mi + 12 * k) / 12 == k && (mi + 12 * k) % 12 == mi;
  }

  /** Any day of a later month comes after a valid date. */
  lemma LaterMonthLaterDay(d: Date, y: int, m: int, day: int)
    requires ValidDate(d) && 1 <= m <= 12 && 1 <= day
    requires MonthOrdinal(d.year, d.month) < MonthOrdinal(y, m)
    ensures MonthStart(y, m) + day - 1 > DayNumber(d)
  {
    MonthStartIncreasing(d.year, d.month, y, m);
  }

  /** A later day is a later moment, whatever the two times of day. */
  lemma TimeValueLater(a: Moment, b: Moment)
    requires 1 <= a.date.month <= 12 && 1 <= b.date.month <= 12
    requires 0 <= a.msOfDay < DayMs && 0 <= b.msOfDay < DayMs
    requires DayNumber(a.date) < DayNumber(b.date)
    ensures TimeValue(a) < TimeValue(b)
  {
    assert DayNumber(a.date) * DayMs + DayMs <= DayNumber(b.date) * DayMs;
  }

  /** Midnight that starts the first of the month after `d`, which is
      MakeDay(y, m + 1, 1) in ECMA-262 terms. */
  function StartOfNextMonth(d: Date): Moment
    requires 1 <= d.month <= 12
  {
    var (ny, nm) := NextMonth(d.year, d.month);
    Moment(Date(ny, nm, 1), 0)
  }

  /** `new Date(y, m + 1, 0)`: day 0 of the next month is the last day of
      this one, at midnight. */
  function LastDayOfMonth(d: Date): (t: Moment)
    requires 1 <= d.month <= 12
    ensures ValidMoment(t) && t.msOfDay == 0
    ensures t.date.year == d.year && t.date.month == d.month
    ensures DayNumber(t.date) == DayNumber(StartOfNextMonth(d).date) - 1
  {
    MonthStartStep(d.year, d.month);
    Moment(Date(d.year, d.month, DaysInMonth(d.year, d.month)), 0)
  }

  /** `new Date(y, m, 1)`: the first of the month at midnight. */
  function FirstOfMonth(d: Date): Moment
    requires 1 <= d.month <= 12
  {
    Moment(Date(d.year, d.month, 1), 0)
  }
}
