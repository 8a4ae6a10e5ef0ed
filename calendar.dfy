/** The proleptic Gregorian calendar of Python's `datetime`, at whole-second
    resolution: which date-times exist, their position on the time line, and
    the hour arithmetic `datetime + timedelta(hours = k)`. */
module Calendar {
  import opened Wrappers

  datatype DateTime = DateTime(year: int, month: int, day: int, hour: int, minute: int, second: int)

  const MaxYear := 9999

  /** The last second `datetime` can represent. */
  const LastInstant := DateTime(9999, 12, 31, 23, 59, 59)

  predicate IsLeap(y: int) {
    y % 4 == 0 && (y % 100 != 0 || y % 400 == 0)
  }

  function DaysInYear(y: int): int {
    if IsLeap(y) then 366 else 365
  }

  function DaysInMonth(y: int, m: int): int
    requires 1 <= m <= 12
  {
    if m == 2 && IsLeap(y) then 29 else [31, 28, 31, 30, 31, 30, 31, 31, 30, 31, 30, 31][m - 1]
  }

  /** Days of year `y` before the first of month `m`. */
  function DaysBeforeMonth(y: int, m: int): int
    requires 1 <= m <= 12
  {
    [0, 31, 59, 90, 120, 151, 181, 212, 243, 273, 304, 334][m - 1] + (if m > 2 && IsLeap(y) then 1 else 0)
  }

  /** Days from 0001-01-01 to the first of January of year `y`. */
  function DaysBeforeYear(y: int): int
    decreases y
  {
    if y <= 1 then 0 else DaysBeforeYear(y - 1) + DaysInYear(y - 1)
  }

  /** A date-time `datetime` accepts: years 1..9999, a day that exists in its
      month, and a time of day in 00:00:00..23:59:59. */
  predicate Valid(t: DateTime) {
    1 <= t.year <= MaxYear && 1 <= t.month <= 12 && 1 <= t.day <= DaysInMonth(t.year, t.month)
    && 0 <= t.hour < 24 && 0 <= t.minute < 60 && 0 <= t.second < 60
  }

  /** The proleptic Gregorian ordinal of the date: 0001-01-01 is day 1. */
  function DayNumber(t: DateTime): int
    requires 1 <= t.month <= 12
  {
    DaysBeforeYear(t.year) + DaysBeforeMonth(t.year, t.month) + t.day
  }

  /** Seconds from 0001-01-01T00:00:00 to `t`: its position on the time line. */
  function Seconds(t: DateTime): int
    requires 1 <= t.month <= 12
  {
    (DayNumber(t) - 1) * 86400 + t.hour * 3600 + t.minute * 60 + t.second
  }

  predicate SameTimeOfDay(t: DateTime, u: DateTime) {
    t.hour == u.hour && t.minute == u.minute && t.second == u.second
  }

  lemma MonthStep(y: int, m: int)
    requires 1 <= m < 12
    ensures DaysBeforeMonth(y, m + 1) == DaysBeforeMonth(y, m) + DaysInMonth(y, m)
  {
  }

  lemma MonthsFillYear(y: int)
    ensures DaysBeforeMonth(y, 12) + DaysInMonth(y, 12) == DaysInYear(y)
  {
  }

  /** The date after `t`'s date, at the same time of day: day, then month,
      then year roll over; past 9999-12-31 it is an OverflowError. */
  function NextDay(t: DateTime): (r: Result<DateTime, Fault>)
    requires Valid(t)
    ensures r.Ok? ==> Valid(r.value) && SameTimeOfDay(t, r.value)
    ensures r.Ok? ==> DayNumber(r.value) == DayNumber(t) + 1
    ensures r.Err? <==> t.year == MaxYear && t.month == 12 && t.day == 31
    ensures r.Err? ==> r.error == OverflowError
  {
    if t.day < DaysInMonth(t.year, t.month) then
      Ok(t.(day := t.day + 1))
    else if t.month < 12 then
      MonthStep(t.year, t.month);
      Ok(t.(month := t.month + 1, day := 1))
    else if t.year < MaxYear then
      MonthsFillYear(t.year);
      Ok(t.(year := t.year + 1, month := 1, day := 1))
    else
      Err(OverflowError)
  }

  /** `n` days after `t`, one day at a time. */
  function AddDays(t: DateTime, n: nat): (r: Result<DateTime, Fault>)
    requires Valid(t)
    ensures r.Ok? ==> Valid(r.value) && SameTimeOfDay(t, r.value)
    ensures r.Ok? ==> DayNumber(r.value) == DayNumber(t) + n
    ensures r.Err? ==> r.error == OverflowError
    decreases n
  {
    if n == 0 then
      Ok(t)
    else
      match NextDay(t)
      case Err(e) => Err(e)
      case Ok(u) => AddDays(u, n - 1)
  }

  /** `t + timedelta(hours = k)`: the hours carry whole days into the date. */
  function AddHours(t: DateTime, k: nat): (r: Result<DateTime, Fault>)
    requires Valid(t)
    ensures r.Ok? ==> Valid(r.value) && r.value.minute == t.minute && r.value.second == t.second
    ensures r.Ok? ==> Seconds(r.value) == Seconds(t) + 3600 * k
    ensures r.Err? ==> r.error == OverflowError
  {
    var total := t.hour + k;
    AddDays(t.(hour := total % 24), total / 24)
  }

  lemma {:induction false} DaysBeforeYearMonotone(a: int, b: int)
    requires 1 <= a <= b
    ensures DaysBeforeYear(a) <= DaysBeforeYear(b)
    decreases b - a
  {
    if a < b {
      DaysBeforeYearMonotone(a, b - 1);
    }
  }

  lemma {:induction false} DaysBeforeMonthMonotone(y: int, a: int, b: int)
    requires 1 <= a <= b <= 12
    ensures DaysBeforeMonth(y, a) <= DaysBeforeMonth(y, b)
    decreases b - a
  {
    if a < b {
      MonthStep(y, b - 1);
      DaysBeforeMonthMonotone(y, a, b - 1);
    }
  }

  /** A valid date lies inside its year and inside its month. */
  lemma DayNumberWithinYear(t: DateTime)
    requires Valid(t)
    ensures DaysBeforeYear(t.year) < DayNumber(t) <= DaysBeforeYear(t.year + 1)
    ensures DaysBeforeMonth(t.year, t.month) < DayNumber(t) - DaysBeforeYear(t.year)
                                              <= DaysBeforeMonth(t.year, t.month) + DaysInMonth(t.year, t.month)
  {
    MonthsFillYear(t.year);
    if t.month < 12 {
      MonthStep(t.year, t.month);
      DaysBeforeMonthMonotone(t.year, t.month + 1, 12);
    }
  }

  /** No valid date comes after 9999-12-31. */
  lemma DayNumberBound(t: DateTime)
    requires Valid(t)
    ensures DayNumber(t) <= DayNumber(LastInstant)
  {
    DayNumberWithinYear(t);
    DaysBeforeYearMonotone(t.year + 1, MaxYear + 1);
    MonthsFillYear(MaxYear);
  }

  /** Adding days fails exactly when the result would be after 9999-12-31. */
  lemma {:induction false} AddDaysOverflow(t: DateTime, n: nat)
    requires Valid(t)
    ensures AddDays(t, n).Err? <==> DayNumber(t) + n > DayNumber(LastInstant)
    decreases n
  {
    DayNumberBound(t);
    if n > 0 {
      match NextDay(t)
      case Err(_) =>
      case Ok(u) =>
        AddDaysOverflow(u, n - 1);
    }
  }

  /** Adding hours fails exactly when the instant `k` hours later is past the
      last representable second. */
  lemma AddHoursOverflow(t: DateTime, k: nat)
    requires Valid(t)
    ensures AddHours(t, k).Err? <==> Seconds(t) + 3600 * k > Seconds(LastInstant)
  {
    var total := t.hour + k;
    var u := t.(hour := total % 24);
    AddDaysOverflow(u, total / 24);
    assert total == total / 24 * 24 + total % 24;
    assert Seconds(t) + 3600 * k == (DayNumber(t) + total / 24 - 1) * 86400 + u.hour * 3600 + u.minute * 60 + u.second;
  }

  /** A shift that crosses midnight once lands on the next day. */
  lemma AddHoursIntoNextDay(t: DateTime, k: nat)
    requires Valid(t) && 24 <= t.hour + k < 48
    ensures AddHours(t, k) == NextDay(t.(hour := t.hour + k - 24))
  {
    var u := t.(hour := t.hour + k - 24);
    assert (t.hour + k) % 24 == u.hour && (t.hour + k) / 24 == 1;
    match NextDay(u)
    case Err(_) =>
    case Ok(v) => assert AddDays(v, 0) == Ok(v);
  }

  /** The shifted date-time is the only valid one `k` hours later: any valid
      date-time with that second count is the result. */
  lemma AddHoursUnique(t: DateTime, k: nat)
    requires Valid(t)
    ensures forall u :: Valid(u) && Seconds(u) == Seconds(t) + 3600 * k ==> AddHours(t, k) == Ok(u)
  {
    forall u | Valid(u) && Seconds(u) == Seconds(t) + 3600 * k
      ensures AddHours(t, k) == Ok(u)
    {
      DayNumberBound(u);
      AddHoursOverflow(t, k);
      SecondsInjective(AddHours(t, k).value, u);
    }
  }

  /** Distinct valid dates have distinct day numbers. */
  lemma DayNumberInjective(t: DateTime, u: DateTime)
    requires Valid(t) && Valid(u)
    requires DayNumber(t) == DayNumber(u)
    ensures t.year == u.year && t.month == u.month && t.day == u.day
  {
    DayNumberWithinYear(t);
    DayNumberWithinYear(u);
    if t.year < u.year {
      DaysBeforeYearMonotone(t.year + 1, u.year);
    } else if u.year < t.year {
      DaysBeforeYearMonotone(u.year + 1, t.year);
    }
    if t.month < u.month {
      MonthStep(t.year, t.month);
      DaysBeforeMonthMonotone(t.year, t.month + 1, u.month);
    } else if u.month < t.month {
      MonthStep(u.year, u.month);
      DaysBeforeMonthMonotone(u.year, u.month + 1, t.month);
    }
  }

  /** Distinct valid date-times are distinct instants. */
  lemma SecondsInjective(t: DateTime, u: DateTime)
    requires Valid(t) && Valid(u)
    requires Seconds(t) == Seconds(u)
    ensures t == u
  {
    var a, b := t.hour * 3600 + t.minute * 60 + t.second, u.hour * 3600 + u.minute * 60 + u.second;
    assert 0 <= a < 86400 && 0 <= b < 86400;
    assert DayNumber(t) == DayNumber(u);
    DayNumberInjective(t, u);
    assert a == b;
    assert t.hour == u.hour;
  }
}
