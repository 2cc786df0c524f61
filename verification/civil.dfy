/** Python's naive `datetime` on the proleptic Gregorian calendar, at
    minute resolution: dates, their ordinal day numbers
    (`date.toordinal()`), `datetime.replace(hour=, minute=)`, adding a
    `timedelta(minutes=k)` (which may cross midnight, month and year
    ends, and raises `OverflowError` outside years 1..9999), and the
    `<` comparison. Microseconds are not modelled: no value the toolkit
    produces depends on them. */
module Civil {
  import opened Wrappers

  datatype Date = Date(year: int, month: int, day: int)

  datatype DateTime = DateTime(date: Date, hour: int, minute: int, second: int)

  /** `datetime.MINYEAR`, `datetime.MAXYEAR`, and the ordinal of
      9999-12-31. */
  const MinYear: int := 1
  const MaxYear: int := 9999
  const MaxOrdinal: int := 3652059

  const MinutesPerDay: int := 1440

  predicate IsLeap(y: int) {
    y % 4 == 0 && (y % 100 != 0 || y % 400 == 0)
  }

  function DaysInYear(y: int): int {
    if IsLeap(y) then 366 else 365
  }

  function DaysInMonth(y: int, m: int): (n: int)
    requires 1 <= m <= 12
    ensures 28 <= n <= 31
  {
    if m == 2 then (if IsLeap(y) then 29 else 28)
    else if m == 4 || m == 6 || m == 9 || m == 11 then 30
    else 31
  }

  /** Days in the months of year `y` before month `m`. */
  function DaysBeforeMonth(y: int, m: int): int
    requires 1 <= m <= 12
  {
    [0, 31, 59, 90, 120, 151, 181, 212, 243, 273, 304, 334][m - 1]
      + (if m > 2 && IsLeap(y) then 1 else 0)
  }

  /** Days in the years before year `y` counted from year 1. */
  function DaysBeforeYear(y: int): int {
    var z := y - 1;
    z * 365 + z / 4 - z / 100 + z / 400
  }

  predicate ValidDate(d: Date) {
    1 <= d.month <= 12 && 1 <= d.day <= DaysInMonth(d.year, d.month)
  }

  /** A date Python's `date` type can hold. */
  predicate InRange(d: Date) {
    ValidDate(d) && MinYear <= d.year <= MaxYear
  }

  /** `date.toordinal()`: 0001-01-01 is day 1. */
  function Ordinal(d: Date): int
    requires ValidDate(d)
  {
    DaysBeforeYear(d.year) + DaysBeforeMonth(d.year, d.month) + d.day
  }

  // ---------------------------------------------------------------------
  // Year and month lengths add up

  lemma FloorStep(z: int)
    ensures (z + 1) / 4 - z / 4 == if (z + 1) % 4 == 0 then 1 else 0
    ensures (z + 1) / 100 - z / 100 == if (z + 1) % 100 == 0 then 1 else 0
    ensures (z + 1) / 400 - z / 400 == if (z + 1) % 400 == 0 then 1 else 0
  {
  }

  /** The Gregorian rule as a count of the three divisibility tests. */
  lemma LeapCount(y: int)
    ensures (if y % 4 == 0 then 1 else 0) - (if y % 100 == 0 then 1 else 0)
            + (if y % 400 == 0 then 1 else 0) == (if IsLeap(y) then 1 else 0)
  {
    if y % 400 == 0 {
      var q := y / 400;
      assert y == 400 * q;
      assert y == 100 * (4 * q);
      assert y == 4 * (100 * q);
    } else if y % 100 == 0 {
      var q := y / 100;
      assert y == 100 * q;
      assert y == 4 * (25 * q);
    }
  }

  lemma DaysBeforeYearStep(y: int)
    ensures DaysBeforeYear(y + 1) == DaysBeforeYear(y) + DaysInYear(y)
  {
    FloorStep(y - 1);
    LeapCount(y);
  }

  lemma DaysBeforeMonthStep(y: int, m: int)
    requires 1 <= m < 12
    ensures DaysBeforeMonth(y, m + 1) == DaysBeforeMonth(y, m) + DaysInMonth(y, m)
  {
  }

  /** Month `m` ends no later than the year does. */
  lemma {:induction false} MonthFitsYear(y: int, m: int)
    requires 1 <= m <= 12
    ensures DaysBeforeMonth(y, m) + DaysInMonth(y, m) <= DaysInYear(y)
    decreases 12 - m
  {
    if m < 12 {
      DaysBeforeMonthStep(y, m);
      MonthFitsYear(y, m + 1);
    }
  }

  /** An earlier month ends before a later one starts. */
  lemma {:induction false} MonthsOrdered(y: int, m1: int, m2: int)
    requires 1 <= m1 < m2 <= 12
    ensures DaysBeforeMonth(y, m1) + DaysInMonth(y, m1) <= DaysBeforeMonth(y, m2)
    decreases m2 - m1
  {
    DaysBeforeMonthStep(y, m1);
    if m1 + 1 < m2 {
      MonthsOrdered(y, m1 + 1, m2);
    }
  }

  /** An earlier year ends before a later one starts. */
  lemma {:induction false} YearsOrdered(y1: int, y2: int)
    requires y1 < y2
    ensures DaysBeforeYear(y1) + DaysInYear(y1) <= DaysBeforeYear(y2)
    decreases y2 - y1
  {
    DaysBeforeYearStep(y1);
    if y1 + 1 < y2 {
      YearsOrdered(y1 + 1, y2);
      DaysBeforeYearStep(y1 + 1);
    }
  }

  /** A valid date's ordinal lies within its year. */
  lemma OrdinalWithinYear(d: Date)
    requires ValidDate(d)
    ensures DaysBeforeYear(d.year) < Ordinal(d) <= DaysBeforeYear(d.year) + DaysInYear(d.year)
  {
    MonthFitsYear(d.year, d.month);
  }

  // ---------------------------------------------------------------------
  // Ordering

  /** Python's comparison of dates: lexicographic on (year, month, day). */
  predicate DateBefore(a: Date, b: Date) {
    || a.year < b.year
    || (a.year == b.year && a.month < b.month)
    || (a.year == b.year && a.month == b.month && a.day < b.day)
  }

  /** The ordinal is strictly increasing in calendar order. */
  lemma OrdinalMonotone(a: Date, b: Date)
    requires ValidDate(a) && ValidDate(b)
    requires DateBefore(a, b)
    ensures Ordinal(a) < Ordinal(b)
  {
    if a.year < b.year {
      OrdinalWithinYear(a);
      OrdinalWithinYear(b);
      YearsOrdered(a.year, b.year);
    } else if a.month < b.month {
      MonthsOrdered(a.year, a.month, b.month);
    }
  }

  /** Calendar order and ordinal order agree, and the ordinal tells
      valid dates apart. */
  lemma OrdinalOrder(a: Date, b: Date)
    requires ValidDate(a) && ValidDate(b)
    ensures DateBefore(a, b) <==> Ordinal(a) < Ordinal(b)
    ensures a == b <==> Ordinal(a) == Ordinal(b)
  {
    if DateBefore(a, b) {
      OrdinalMonotone(a, b);
    } else if DateBefore(b, a) {
      OrdinalMonotone(b, a);
    }
  }

  lemma LastOrdinal()
    ensures Ordinal(Date(MaxYear, 12, 31)) == MaxOrdinal
  {
    assert DaysBeforeYear(MaxYear) == 3651694;
  }

  /** Year 1..9999 is exactly ordinal 1..MaxOrdinal. */
  lemma InRangeIffOrdinal(d: Date)
    requires ValidDate(d)
    ensures InRange(d) <==> 1 <= Ordinal(d) <= MaxOrdinal
  {
    var first := Date(MinYear, 1, 1);
    var last := Date(MaxYear, 12, 31);
    LastOrdinal();
    OrdinalOrder(d, first);
    OrdinalOrder(d, last);
  }

  // ---------------------------------------------------------------------
  // Day steps

  function NextDay(d: Date): (r: Date)
    requires ValidDate(d)
    ensures ValidDate(r) && Ordinal(r) == Ordinal(d) + 1
  {
    if d.day < DaysInMonth(d.year, d.month) then Date(d.year, d.month, d.day + 1)
    else if d.month < 12 then
      DaysBeforeMonthStep(d.year, d.month);
      Date(d.year, d.month + 1, 1)
    else
      DaysBeforeYearStep(d.year);
      Date(d.year + 1, 1, 1)
  }

  function PrevDay(d: Date): (r: Date)
    requires ValidDate(d)
    ensures ValidDate(r) && Ordinal(r) == Ordinal(d) - 1
  {
    if d.day > 1 then Date(d.year, d.month, d.day - 1)
    else if d.month > 1 then
      DaysBeforeMonthStep(d.year, d.month - 1);
      Date(d.year, d.month - 1, DaysInMonth(d.year, d.month - 1))
    else
      DaysBeforeYearStep(d.year - 1);
      Date(d.year - 1, 12, 31)
  }

  /** The date `k` days after `d` (before it when `k < 0`), as
      `date.fromordinal(d.toordinal() + k)` before the range check. */
  function AddDays(d: Date, k: int): (r: Date)
    requires ValidDate(d)
    ensures ValidDate(r) && Ordinal(r) == Ordinal(d) + k
    decreases if k < 0 then -k else k
  {
    if k == 0 then d
    else if k > 0 then AddDays(NextDay(d), k - 1)
    else AddDays(PrevDay(d), k + 1)
  }

  // ---------------------------------------------------------------------
  // Date-times

  predicate ValidDateTime(t: DateTime) {
    && InRange(t.date)
    && 0 <= t.hour < 24 && 0 <= t.minute < 60 && 0 <= t.second < 60
  }

  /** Minutes since 0001-01-01 00:00 minus one day: the minute part of
      Python's internal `timedelta` view of a `datetime`. */
  function Minutes(t: DateTime): int
    requires ValidDate(t.date)
  {
    Ordinal(t.date) * MinutesPerDay + t.hour * 60 + t.minute
  }

  /** Python's `a < b` on datetimes: lexicographic on the fields. */
  predicate Before(a: DateTime, b: DateTime) {
    || DateBefore(a.date, b.date)
    || (a.date == b.date && a.hour < b.hour)
    || (a.date == b.date && a.hour == b.hour && a.minute < b.minute)
    || (a.date == b.date && a.hour == b.hour && a.minute == b.minute && a.second < b.second)
  }

  /** Comparing datetimes is comparing their positions on the time
      line. */
  lemma BeforeIffEarlier(a: DateTime, b: DateTime)
    requires ValidDateTime(a) && ValidDateTime(b)
    ensures Before(a, b) <==> Minutes(a) * 60 + a.second < Minutes(b) * 60 + b.second
  {
    OrdinalOrder(a.date, b.date);
  }

  /** `d.replace(hour=hour, minute=minute)` on a midnight datetime:
      `None` is the `ValueError` raised for an hour outside 0..23 or a
      minute outside 0..59. */
  function AtClock(d: Date, hour: int, minute: int): (r: Option<DateTime>)
    requires InRange(d)
    ensures r.Some? <==> 0 <= hour < 24 && 0 <= minute < 60
    ensures r.Some? ==> ValidDateTime(r.value) && r.value.date == d
                        && Minutes(r.value) == Ordinal(d) * MinutesPerDay + hour * 60 + minute
                        && r.value.second == 0
  {
    if 0 <= hour < 24 && 0 <= minute < 60 then Some(DateTime(d, hour, minute, 0)) else None
  }

  /** `t + timedelta(minutes=k)`: `None` is the `OverflowError` raised
      when the result falls outside years 1..9999. */
  function AddMinutes(t: DateTime, k: int): (r: Option<DateTime>)
    requires ValidDateTime(t)
    ensures r.Some? <==> MinutesPerDay <= Minutes(t) + k < (MaxOrdinal + 1) * MinutesPerDay
    ensures r.Some? ==> ValidDateTime(r.value) && Minutes(r.value) == Minutes(t) + k
                        && r.value.second == t.second
  {
    var total := t.hour * 60 + t.minute + k;
    var d := AddDays(t.date, total / MinutesPerDay);
    var rem := total % MinutesPerDay;
    InRangeIffOrdinal(d);
    if MinYear <= d.year <= MaxYear then Some(DateTime(d, rem / 60, rem % 60, t.second))
    else None
  }

  /** Two valid datetimes at the same minute differ at most in their
      seconds. */
  lemma MinutesInjective(a: DateTime, b: DateTime)
    requires ValidDateTime(a) && ValidDateTime(b)
    requires Minutes(a) == Minutes(b)
    ensures a.date == b.date && a.hour == b.hour && a.minute == b.minute
  {
    OrdinalOrder(a.date, b.date);
    EarlierDayEarlierMinute(a, b);
    EarlierDayEarlierMinute(b, a);
  }

  lemma EarlierDayEarlierMinute(a: DateTime, b: DateTime)
    requires ValidDateTime(a) && ValidDateTime(b)
    ensures Ordinal(a.date) < Ordinal(b.date) ==> Minutes(a) < Minutes(b)
  {
    var oa, ob := Ordinal(a.date), Ordinal(b.date);
    if oa < ob {
      assert Minutes(a) < (oa + 1) * MinutesPerDay <= ob * MinutesPerDay;
    }
  }

  /** Adding minutes and then subtracting them again is the identity
      (when the intermediate value is in range). */
  lemma AddMinutesInverse(t: DateTime, k: int)
    requires ValidDateTime(t)
    requires AddMinutes(t, k).Some?
    ensures AddMinutes(AddMinutes(t, k).value, -k) == Some(t)
  {
    var u := AddMinutes(t, k).value;
    InRangeIffOrdinal(t.date);
    assert MinutesPerDay <= Minutes(u) + -k < (MaxOrdinal + 1) * MinutesPerDay;
    var v := AddMinutes(u, -k).value;
    assert Minutes(v) == Minutes(t);
    MinutesInjective(v, t);
  }

  /** Adding no minutes changes nothing. */
  lemma AddNoMinutes(t: DateTime)
    requires ValidDateTime(t)
    ensures AddMinutes(t, 0) == Some(t)
  {
    InRangeIffOrdinal(t.date);
    assert AddMinutes(t, 0).Some?;
    MinutesInjective(AddMinutes(t, 0).value, t);
  }
}
