/**
 * Proleptic Gregorian calendar arithmetic, as Go's `time` package does it:
 * day numbers count days since 1970-01-01, years may be any integer, and a
 * day-of-month past the end of its month rolls over into the next month
 * (the normalisation `time.Date` performs).
 */
module Civil {

  const SecondsPerDay: int := 86400
  const SecondsPerHour: int := 3600
  const SecondsPerMinute: int := 60

  /** Days from 0000-01-01 to 1970-01-01. */
  const EpochOffset: int := 719528

  /** Days in one 400-year Gregorian cycle. */
  const DaysPer400Years: int := 146097

  predicate IsLeap(y: int) {
    y % 4 == 0 && (y % 100 != 0 || y % 400 == 0)
  }

  function DaysIn(m: int, y: int): (n: int)
    requires 1 <= m <= 12
    ensures 28 <= n <= 31
  {
    if m == 2 then (if IsLeap(y) then 29 else 28)
    else if m == 4 || m == 6 || m == 9 || m == 11 then 30
    else 31
  }

  /** Days of year `y` that lie before the first of month `m`. */
  function DaysBeforeMonth(m: int, y: int): int
    requires 1 <= m <= 12
  {
    var common :=
      if m == 1 then 0 else if m == 2 then 31 else if m == 3 then 59
      else if m == 4 then 90 else if m == 5 then 120 else if m == 6 then 151
      else if m == 7 then 181 else if m == 8 then 212 else if m == 9 then 243
      else if m == 10 then 273 else if m == 11 then 304 else 334;
    if m > 2 && IsLeap(y) then common + 1 else common
  }

  /** Number of leap years in [0, y) for y >= 0, and minus the number in [y, 0) for y < 0. */
  function LeapsBefore(y: int): int {
    (y + 3) / 4 - (y + 99) / 100 + (y + 399) / 400
  }

  /** Days from 0000-01-01 to y-01-01 (negative for negative years). */
  function DaysBeforeYear(y: int): int {
    365 * y + LeapsBefore(y)
  }

  function DaysInYear(y: int): int {
    if IsLeap(y) then 366 else 365
  }

  /** Day number (days since 1970-01-01) of the civil date y-m-d; d may overflow its month. */
  function DaysFromCivil(y: int, m: int, d: int): int
    requires 1 <= m <= 12
  {
    DaysBeforeYear(y) + DaysBeforeMonth(m, y) + d - 1 - EpochOffset
  }

  /** Day of the week of a day number, Sunday = 0 .. Saturday = 6 (1970-01-01 was a Thursday). */
  function WeekdayOfDay(day: int): (w: int)
    ensures 0 <= w < 7
  {
    (day + 4) % 7
  }

  predicate ValidDate(y: int, m: int, d: int) {
    1 <= m <= 12 && 1 <= d <= DaysIn(m, y)
  }

  datatype Date = Date(year: int, month: int, day: int)

  lemma Step4(y: int)
    ensures (y + 4) / 4 - (y + 3) / 4 == if y % 4 == 0 then 1 else 0
  {
    var q, r := y / 4, y % 4;
    assert y == 4 * q + r;
    assert (y + 4) / 4 == q + 1;
    if r == 0 { assert (y + 3) / 4 == q; } else { assert (y + 3) / 4 == q + 1; }
  }

  lemma Step100(y: int)
    ensures (y + 100) / 100 - (y + 99) / 100 == if y % 100 == 0 then 1 else 0
  {
    var q, r := y / 100, y % 100;
    assert y == 100 * q + r;
    assert (y + 100) / 100 == q + 1;
    if r == 0 { assert (y + 99) / 100 == q; } else { assert (y + 99) / 100 == q + 1; }
  }

  lemma Step400(y: int)
    ensures (y + 400) / 400 - (y + 399) / 400 == if y % 400 == 0 then 1 else 0
  {
    var q, r := y / 400, y % 400;
    assert y == 400 * q + r;
    assert (y + 400) / 400 == q + 1;
    if r == 0 { assert (y + 399) / 400 == q; } else { assert (y + 399) / 400 == q + 1; }
  }

  /** A year is 366 days long exactly when it is a leap year. */
  lemma {:induction false} YearLength(y: int)
    ensures DaysBeforeYear(y + 1) - DaysBeforeYear(y) == DaysInYear(y)
  {
    Step4(y);
    Step100(y);
    Step400(y);
    Divisors(y);
    var leap := if IsLeap(y) then 1 else 0;
    assert LeapsBefore(y + 1) - LeapsBefore(y) == leap;
  }

  /** A multiple of 400 is a multiple of 100, and a multiple of 100 is a multiple of 4. */
  lemma Divisors(y: int)
    ensures y % 400 == 0 ==> y % 100 == 0
    ensures y % 100 == 0 ==> y % 4 == 0
  {
    if y % 100 == 0 {
      assert y == 4 * (25 * (y / 100));
    }
    if y % 400 == 0 {
      assert y == 100 * (4 * (y / 400));
    }
  }

  lemma {:induction false} DaysBeforeYearMonotone(a: int, b: int)
    requires a < b
    ensures DaysBeforeYear(a) < DaysBeforeYear(b)
    decreases b - a
  {
    YearLength(a);
    if a + 1 < b {
      DaysBeforeYearMonotone(a + 1, b);
    }
  }

  lemma {:induction false} CycleStart(q: int)
    ensures DaysBeforeYear(400 * q) == DaysPer400Years * q
  {
    assert (400 * q + 3) / 4 == 100 * q;
    assert (400 * q + 99) / 100 == 4 * q;
    assert (400 * q + 399) / 400 == q;
  }

  /** The year whose span of days, counted from 0000-01-01, holds `z`; searched upwards from `y`. */
  function FindYear(z: int, y: int, bound: int): (r: int)
    requires DaysBeforeYear(y) <= z < DaysBeforeYear(bound)
    ensures y <= r < bound
    ensures DaysBeforeYear(r) <= z < DaysBeforeYear(r + 1)
    decreases bound - y
  {
    if y >= bound then
      DaysBeforeYearMonotone(bound, y);
      assert false;
      y
    else if z < DaysBeforeYear(y + 1) then y
    else FindYear(z, y + 1, bound)
  }

  /** The month of year `y` holding day-of-year `doy` (0-based); searched upwards from `m`. */
  function FindMonth(doy: int, y: int, m: int): (r: int)
    requires 1 <= m <= 12
    requires DaysBeforeMonth(m, y) <= doy < DaysInYear(y)
    ensures m <= r <= 12
    ensures DaysBeforeMonth(r, y) <= doy < DaysBeforeMonth(r, y) + DaysIn(r, y)
    decreases 12 - m
  {
    if m == 12 || doy < DaysBeforeMonth(m + 1, y) then m
    else FindMonth(doy, y, m + 1)
  }

  /** The civil date of a day number: the inverse of DaysFromCivil. */
  function CivilFromDays(day: int): (r: Date)
    ensures ValidDate(r.year, r.month, r.day)
    ensures DaysFromCivil(r.year, r.month, r.day) == day
  {
    var z := day + EpochOffset;
    var q := z / DaysPer400Years;
    CycleStart(q);
    CycleStart(q + 1);
    var y := FindYear(z, 400 * q, 400 * q + 400);
    YearLength(y);
    var doy := z - DaysBeforeYear(y);
    var m := FindMonth(doy, y, 1);
    Date(y, m, doy - DaysBeforeMonth(m, y) + 1)
  }

  /**
   * `t.AddDate(n, 0, 0)` on a day number: the civil date's year moved by
   * `n`, then normalised again, so 29 February lands on 1 March in a common
   * year.
   */
  function AddYears(day: int, n: int): int
  {
    var c := CivilFromDays(day);
    DaysFromCivil(c.year + n, c.month, c.day)
  }

  /** The same month and day one year on is at least 365 days later. */
  lemma YearStep(y: int, m: int, d: int)
    requires 1 <= m <= 12
    ensures DaysFromCivil(y + 1, m, d) >= DaysFromCivil(y, m, d) + 365
  {
    YearLength(y);
  }

  /** A year back is at least 365 days earlier, a year on at least 365 days later. */
  lemma AddYearsBounds(day: int)
    ensures AddYears(day, -1) <= day - 365
    ensures AddYears(day, 1) >= day + 365
  {
    var c := CivilFromDays(day);
    assert DaysFromCivil(c.year, c.month, c.day) == day;
    YearStep(c.year - 1, c.month, c.day);
    assert AddYears(day, -1) == DaysFromCivil(c.year - 1, c.month, c.day);
    YearStep(c.year, c.month, c.day);
    assert AddYears(day, 1) == DaysFromCivil(c.year + 1, c.month, c.day);
  }

  /**
   * A day past the end of its month is that many days into the next month
   * (`time.Date` normalisation); December rolls into January of the next year.
   */
  lemma {:induction false} RollsIntoNextMonth(y: int, m: int, d: int)
    requires 1 <= m <= 12 && d > DaysIn(m, y)
    ensures m < 12 ==> DaysFromCivil(y, m, d) == DaysFromCivil(y, m + 1, d - DaysIn(m, y))
    ensures m == 12 ==> DaysFromCivil(y, 12, d) == DaysFromCivil(y + 1, 1, d - 31)
  {
    if m == 12 {
      YearLength(y);
    }
  }

  /** On a date that needs no normalising, `AddYears` moves the year alone. */
  lemma {:induction false} AddYearsOfValidDate(y: int, m: int, d: int, n: int)
    requires ValidDate(y, m, d)
    ensures AddYears(DaysFromCivil(y, m, d), n) == DaysFromCivil(y + n, m, d)
  {
    CivilRoundTrip(y, m, d);
  }

  /**
   * The year is moved on the normalised date: "30 February 2020" is 1 March
   * 2020, and a year earlier is 1 March 2019, not "30 February 2019".
   */
  lemma AddYearsAfterNormalising()
    ensures AddYears(DaysFromCivil(2020, 2, 30), -1) == DaysFromCivil(2019, 3, 1)
    ensures DaysFromCivil(2019, 2, 30) == DaysFromCivil(2019, 3, 2)
  {
    assert DaysFromCivil(2020, 2, 30) == DaysFromCivil(2020, 3, 1);
    CivilRoundTrip(2020, 3, 1);
  }

  /** Distinct years occupy disjoint spans of day numbers. */
  lemma {:induction false} YearOfDayUnique(z: int, a: int, b: int)
    requires DaysBeforeYear(a) <= z < DaysBeforeYear(a + 1)
    requires DaysBeforeYear(b) <= z < DaysBeforeYear(b + 1)
    ensures a == b
  {
    if a < b {
      if a + 1 < b { DaysBeforeYearMonotone(a + 1, b); }
    } else if b < a {
      if b + 1 < a { DaysBeforeYearMonotone(b + 1, a); }
    }
  }

  /** A valid civil date and its day number determine each other. */
  lemma {:induction false} CivilRoundTrip(y: int, m: int, d: int)
    requires ValidDate(y, m, d)
    ensures CivilFromDays(DaysFromCivil(y, m, d)) == Date(y, m, d)
  {
    var z := DaysFromCivil(y, m, d);
    var r := CivilFromDays(z);
    YearLength(y);
    YearLength(r.year);
    MonthFitsYear(y, m);
    MonthFitsYear(r.year, r.month);
    YearOfDayUnique(z + EpochOffset, y, r.year);
    if r.month < m {
      MonthStartsIncrease(y, r.month, m);
    } else if m < r.month {
      MonthStartsIncrease(y, m, r.month);
    }
  }

  lemma MonthFitsYear(y: int, m: int)
    requires 1 <= m <= 12
    ensures DaysBeforeMonth(m, y) + DaysIn(m, y) <= DaysInYear(y)
  {
  }

  lemma {:induction false} MonthStartsIncrease(y: int, a: int, b: int)
    requires 1 <= a < b <= 12
    ensures DaysBeforeMonth(a, y) + DaysIn(a, y) <= DaysBeforeMonth(b, y)
  {
  }
}
