/**
  The proleptic Gregorian calendar over day numbers (days since 1970-01-01)
  and timestamps (seconds since 1970-01-01 00:00): what the dashboard uses of
  pandas' `Timestamp.normalize()` and `Timestamp(year=, month=, day=1)`.
 */
module Calendar {

  /** Seconds in one day. */
  const DAY: int := 86400

  datatype Date = Date(year: int, month: int, day: int)

  predicate IsLeapYear(y: int)
  {
    y % 4 == 0 && (y % 100 != 0 || y % 400 == 0)
  }

  function DaysInYear(y: int): int
  {
    if IsLeapYear(y) then 366 else 365
  }

  function DaysInMonth(y: int, m: int): int
    requires 1 <= m <= 12
  {
    if m == 2 then (if IsLeapYear(y) then 29 else 28)
    else if m == 4 || m == 6 || m == 9 || m == 11 then 30
    else 31
  }

  /** Days of year `y` before the first of month `m`. */
  function DaysBeforeMonth(y: int, m: int): int
    requires 1 <= m <= 12
  {
    var common :=
      if m == 1 then 0 else if m == 2 then 31 else if m == 3 then 59
      else if m == 4 then 90 else if m == 5 then 120 else if m == 6 then 151
      else if m == 7 then 181 else if m == 8 then 212 else if m == 9 then 243
      else if m == 10 then 273 else if m == 11 then 304 else 334;
    common + (if 2 < m && IsLeapYear(y) then 1 else 0)
  }

  lemma DaysBeforeMonthStep(y: int, m: int)
    requires 1 <= m <= 12
    ensures m < 12 ==> DaysBeforeMonth(y, m + 1) == DaysBeforeMonth(y, m) + DaysInMonth(y, m)
    ensures m == 12 ==> DaysBeforeMonth(y, m) + DaysInMonth(y, m) == DaysInYear(y)
  {
  }

  predicate ValidDate(d: Date)
  {
    1 <= d.month <= 12 && 1 <= d.day <= DaysInMonth(d.year, d.month)
  }

  /** Day number of January 1st of year `y`. */
  function YearStart(y: int): int
    decreases if y < 1970 then 1970 - y else y - 1970
  {
    if y == 1970 then 0
    else if 1970 < y then YearStart(y - 1) + DaysInYear(y - 1)
    else YearStart(y + 1) - DaysInYear(y)
  }

  lemma YearStartStep(y: int)
    ensures YearStart(y + 1) == YearStart(y) + DaysInYear(y)
  {
  }

  lemma {:induction false} YearStartMonotone(a: int, b: int)
    requires a <= b
    ensures YearStart(a) <= YearStart(b)
    decreases b - a
  {
    if a < b {
      YearStartStep(a);
      YearStartMonotone(a + 1, b);
    }
  }

  /** The year holding day `z`, searched upwards from year `y`. */
  function YearUp(z: int, y: int): (r: int)
    requires YearStart(y) <= z
    ensures YearStart(r) <= z < YearStart(r + 1)
    decreases z - YearStart(y)
  {
    YearStartStep(y);
    if z < YearStart(y + 1) then y else YearUp(z, y + 1)
  }

  /** The year holding day `z`, searched downwards from year `y`. */
  function YearDown(z: int, y: int): (r: int)
    requires z < YearStart(y + 1)
    ensures YearStart(r) <= z < YearStart(r + 1)
    decreases YearStart(y + 1) - z
  {
    YearStartStep(y);
    if YearStart(y) <= z then y else YearDown(z, y - 1)
  }

  /** The month of year `y` holding its day `doy` (counted from 0), searched from month `m`. */
  function MonthFrom(y: int, doy: int, m: int): (r: int)
    requires 1 <= m <= 12 && DaysBeforeMonth(y, m) <= doy < DaysInYear(y)
    ensures 1 <= r <= 12 && DaysBeforeMonth(y, r) <= doy < DaysBeforeMonth(y, r) + DaysInMonth(y, r)
    decreases 12 - m
  {
    DaysBeforeMonthStep(y, m);
    if m == 12 || doy < DaysBeforeMonth(y, m) + DaysInMonth(y, m) then m
    else MonthFrom(y, doy, m + 1)
  }

  /** Day number of a calendar date. */
  function ToDayNumber(d: Date): int
    requires 1 <= d.month <= 12
  {
    YearStart(d.year) + DaysBeforeMonth(d.year, d.month) + d.day - 1
  }

  /** Calendar date of a day number. */
  function FromDayNumber(z: int): (d: Date)
    ensures ValidDate(d) && ToDayNumber(d) == z
  {
    YearStartStep(1969);
    var y := if 0 <= z then YearUp(z, 1970) else YearDown(z, 1969);
    YearStartStep(y);
    DaysBeforeMonthStep(y, 12);
    var m := MonthFrom(y, z - YearStart(y), 1);
    Date(y, m, z - YearStart(y) - DaysBeforeMonth(y, m) + 1)
  }

  lemma {:induction false} DaysBeforeMonthMonotone(y: int, a: int, b: int)
    requires 1 <= a < b <= 12
    ensures DaysBeforeMonth(y, a) + DaysInMonth(y, a) <= DaysBeforeMonth(y, b)
    decreases b - a
  {
    DaysBeforeMonthStep(y, a);
    if a + 1 < b {
      DaysBeforeMonthMonotone(y, a + 1, b);
    }
  }

  /** A day belongs to one year only. */
  lemma YearUnique(z: int, a: int, b: int)
    requires YearStart(a) <= z < YearStart(a + 1)
    requires YearStart(b) <= z < YearStart(b + 1)
    ensures a == b
  {
    if a < b {
      YearStartMonotone(a + 1, b);
    } else if b < a {
      YearStartMonotone(b + 1, a);
    }
  }

  /** A day of a year belongs to one month only. */
  lemma MonthUnique(y: int, doy: int, a: int, b: int)
    requires 1 <= a <= 12 && DaysBeforeMonth(y, a) <= doy < DaysBeforeMonth(y, a) + DaysInMonth(y, a)
    requires 1 <= b <= 12 && DaysBeforeMonth(y, b) <= doy < DaysBeforeMonth(y, b) + DaysInMonth(y, b)
    ensures a == b
  {
    if a < b {
      DaysBeforeMonthMonotone(y, a, b);
    } else if b < a {
      DaysBeforeMonthMonotone(y, b, a);
    }
  }

  /** A valid date's day number lies within its year. */
  lemma DateWithinYear(d: Date)
    requires ValidDate(d)
    ensures YearStart(d.year) <= ToDayNumber(d) < YearStart(d.year + 1)
  {
    YearStartStep(d.year);
    DaysBeforeMonthStep(d.year, 12);
    if d.month < 12 {
      DaysBeforeMonthMonotone(d.year, d.month, 12);
    }
  }

  /** Every valid date is the date of its own day number: the two conversions
      are inverse to each other. */
  lemma FromToDayNumber(d: Date)
    requires ValidDate(d)
    ensures FromDayNumber(ToDayNumber(d)) == d
  {
    var z := ToDayNumber(d);
    var e := FromDayNumber(z);
    DateWithinYear(d);
    DateWithinYear(e);
    YearUnique(z, d.year, e.year);
    MonthUnique(d.year, z - YearStart(d.year), d.month, e.month);
  }

  /** The calendar date of a timestamp: the valid date whose day contains it. */
  function DateOf(t: int): (d: Date)
    ensures ValidDate(d)
    ensures ToDayNumber(d) * DAY <= t < ToDayNumber(d) * DAY + DAY
  {
    FromDayNumber(t / DAY)
  }

  /** `Timestamp.normalize()`: midnight of the timestamp's day. */
  function Normalize(t: int): (r: int)
    ensures r % DAY == 0 && r <= t < r + DAY
    ensures DateOf(r) == DateOf(t)
  {
    assert (t - t % DAY) / DAY == t / DAY;
    t - t % DAY
  }

  /** `Timestamp(year=t.year, month=t.month, day=1)`: midnight of the first
      day of the timestamp's month. */
  function MonthStart(t: int): (r: int)
    ensures r % DAY == 0 && r <= t
    ensures DateOf(r) == Date(DateOf(t).year, DateOf(t).month, 1)
  {
    var d := DateOf(t);
    var first := Date(d.year, d.month, 1);
    FromToDayNumber(first);
    assert ToDayNumber(first) == t / DAY - (d.day - 1);
    assert (ToDayNumber(first) * DAY) / DAY == ToDayNumber(first);
    ToDayNumber(first) * DAY
  }

  /** Every instant from the start of a month up to `t` falls in `t`'s month. */
  lemma MonthToDateSameMonth(t: int, u: int)
    requires MonthStart(t) <= u <= t
    ensures DateOf(u).year == DateOf(t).year && DateOf(u).month == DateOf(t).month
  {
    var d := DateOf(t);
    var z0 := ToDayNumber(Date(d.year, d.month, 1));
    assert MonthStart(t) == z0 * DAY;
    var w := u / DAY;
    assert z0 <= w <= t / DAY;
    var e := Date(d.year, d.month, 1 + (w - z0));
    assert ToDayNumber(e) == w;
    FromToDayNumber(e);
  }
}
