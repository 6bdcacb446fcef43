/** Naive Python datetimes and the calendar-month shift `dt + relativedelta(months=m)`. */
module Calendar {
  import opened Outcomes

  /** A `datetime.datetime` without time zone, as the warehouse returns billing-cycle bounds. */
  datatype DateTime = DateTime(year: int, month: int, day: int,
                               hour: int, minute: int, second: int, microsecond: int)

  /** The year range of Python's `datetime` (MINYEAR, MAXYEAR). */
  const MinYear := 1
  const MaxYear := 9999

  /** Gregorian leap years, as `calendar.isleap` decides them. */
  predicate IsLeapYear(year: int) {
    year % 4 == 0 && (year % 100 != 0 || year % 400 == 0)
  }

  /** The number of days in a month, as `calendar.monthrange(year, month)[1]` gives it. */
  function DaysInMonth(year: int, month: int): (n: int)
    requires 1 <= month <= 12
    ensures 28 <= n <= 31
    ensures month == 2 ==> (n == 29 <==> IsLeapYear(year))
  {
    if month == 2 then (if IsLeapYear(year) then 29 else 28)
    else if month == 4 || month == 6 || month == 9 || month == 11 then 30
    else 31
  }

  /** The values a `datetime` object can hold. */
  predicate Valid(t: DateTime) {
    && MinYear <= t.year <= MaxYear
    && 1 <= t.month <= 12
    && 1 <= t.day <= DaysInMonth(t.year, t.month)
    && 0 <= t.hour < 24 && 0 <= t.minute < 60 && 0 <= t.second < 60
    && 0 <= t.microsecond < 1000000
  }

  /** Months elapsed since January of year 0; a shift by m months adds m to it. */
  function MonthIndex(t: DateTime): int {
    t.year * 12 + t.month - 1
  }

  /** The first and last month a `datetime` can fall in. */
  const FirstMonthIndex := MinYear * 12
  const LastMonthIndex := MaxYear * 12 + 11

  /** Strict chronological order of datetimes (field by field, most significant first). */
  predicate Before(a: DateTime, b: DateTime) {
    || a.year < b.year
    || (a.year == b.year && a.month < b.month)
    || (a.year == b.year && a.month == b.month && a.day < b.day)
    || (a.year == b.year && a.month == b.month && a.day == b.day && a.hour < b.hour)
    || (a.year == b.year && a.month == b.month && a.day == b.day && a.hour == b.hour
        && a.minute < b.minute)
    || (a.year == b.year && a.month == b.month && a.day == b.day && a.hour == b.hour
        && a.minute == b.minute && a.second < b.second)
    || (a.year == b.year && a.month == b.month && a.day == b.day && a.hour == b.hour
        && a.minute == b.minute && a.second == b.second && a.microsecond < b.microsecond)
  }

  predicate BeforeOrSame(a: DateTime, b: DateTime) {
    a == b || Before(a, b)
  }

  function Min(a: int, b: int): int { if a <= b then a else b }

  /** `t + relativedelta(months=months)`. The relativedelta first folds an offset of more than
      eleven months into whole years (keeping the sign), then the addition adds the years,
      adds the months with a single wrap into 1..12, clamps the day to the length of the
      target month and keeps the time of day. A target year outside 1..9999 makes the
      `calendar.monthrange` call that looks up the target month's length raise ValueError,
      modelled as None. */
  function AddMonths(t: DateTime, months: int): (r: Option<DateTime>)
    requires Valid(t)
    ensures r.Some? <==> FirstMonthIndex <= MonthIndex(t) + months <= LastMonthIndex
    ensures r.Some? ==> Valid(r.value) && MonthIndex(r.value) == MonthIndex(t) + months
    ensures r.Some? ==> r.value.day == Min(DaysInMonth(r.value.year, r.value.month), t.day)
    ensures r.Some? ==> && r.value.hour == t.hour && r.value.minute == t.minute
                        && r.value.second == t.second && r.value.microsecond == t.microsecond
  {
    var magnitude := if months < 0 then -months else months;
    var sign := if months < 0 then -1 else 1;
    var years := if magnitude > 11 then sign * (magnitude / 12) else 0;
    var rest := if magnitude > 11 then sign * (magnitude % 12) else months;
    assert years * 12 + rest == months;
    var year0 := t.year + years;
    var month0 := t.month + rest;
    var year := if month0 > 12 then year0 + 1 else if month0 < 1 then year0 - 1 else year0;
    var month := if month0 > 12 then month0 - 12 else if month0 < 1 then month0 + 12 else month0;
    if year < MinYear || year > MaxYear then None
    else Some(DateTime(year, month, Min(DaysInMonth(year, month), t.day),
                       t.hour, t.minute, t.second, t.microsecond))
  }

  /** A shift by zero months is the identity: the end of period 2 is the cycle start itself. */
  lemma AddMonthsZero(t: DateTime)
    requires Valid(t)
    ensures AddMonths(t, 0) == Some(t)
  {
  }

  /** Month indices order datetimes by year and month. */
  lemma MonthIndexOrder(a: DateTime, b: DateTime)
    requires Valid(a) && Valid(b) && MonthIndex(a) < MonthIndex(b)
    ensures Before(a, b)
  {
  }

  /** Shifting by more months gives a strictly later datetime, whatever the day clamping did. */
  lemma AddMonthsIncreasing(t: DateTime, m1: int, m2: int)
    requires Valid(t) && m1 < m2
    requires AddMonths(t, m1).Some? && AddMonths(t, m2).Some?
    ensures Before(AddMonths(t, m1).value, AddMonths(t, m2).value)
  {
    MonthIndexOrder(AddMonths(t, m1).value, AddMonths(t, m2).value);
  }

  /** A backward shift that stays in range implies every smaller backward shift does too. */
  lemma AddMonthsDefinedBetween(t: DateTime, m1: int, m2: int)
    requires Valid(t) && m1 <= m2 <= 0
    requires AddMonths(t, m1).Some?
    ensures AddMonths(t, m2).Some?
  {
  }

  /** Day clamping: one month before 31 March is the last day of February, and shifting that
      forward again does not return to 31 March, so month shifts do not compose. */
  lemma ClampExample()
    ensures AddMonths(DateTime(2023, 3, 31, 12, 0, 0, 0), -1) == Some(DateTime(2023, 2, 28, 12, 0, 0, 0))
    ensures AddMonths(DateTime(2024, 3, 31, 12, 0, 0, 0), -1) == Some(DateTime(2024, 2, 29, 12, 0, 0, 0))
    ensures AddMonths(DateTime(2023, 2, 28, 12, 0, 0, 0), 1) == Some(DateTime(2023, 3, 28, 12, 0, 0, 0))
  {
  }

  /** The lower edge of the range: one month before January of year 1 raises. */
  lemma OutOfRangeExample()
    ensures AddMonths(DateTime(1, 1, 15, 0, 0, 0, 0), -1) == None
    ensures AddMonths(DateTime(1, 2, 15, 0, 0, 0, 0), -1) == Some(DateTime(1, 1, 15, 0, 0, 0, 0))
  {
  }
}
