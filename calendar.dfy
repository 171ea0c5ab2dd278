/** The proleptic Gregorian calendar behind JavaScript's `Date` UTC getters
    (`getUTCFullYear`, `getUTCMonth`, `getUTCDate`): an instant in milliseconds since
    1970-01-01T00:00:00Z falls on one civil date. Days are counted year by year and month
    by month, so the bounds on the fields and the inverse are proved directly. */
module Calendar {

  const MS_PER_DAY: int := 86_400_000

  predicate IsLeapYear(y: int) {
    (y % 4 == 0 && y % 100 != 0) || y % 400 == 0
  }

  function DaysInYear(y: int): (n: int)
    ensures n == 365 || n == 366
  {
    if IsLeapYear(y) then 366 else 365
  }

  function DaysInMonth(y: int, m: int): (n: int)
    requires 1 <= m <= 12
    ensures 28 <= n <= 31
  {
    if m == 2 then (if IsLeapYear(y) then 29 else 28)
    else if m == 4 || m == 6 || m == 9 || m == 11 then 30
    else 31
  }

  /** Days of year y before the first of month m. */
  function DaysBeforeMonth(y: int, m: int): (n: int)
    requires 1 <= m <= 13
    ensures n >= 0
  {
    if m == 1 then 0 else DaysBeforeMonth(y, m - 1) + DaysInMonth(y, m - 1)
  }

  /** The twelve months make up the year. */
  lemma MonthsFillYear(y: int)
    ensures DaysBeforeMonth(y, 13) == DaysInYear(y)
  {
    var feb := DaysInMonth(y, 2);
    assert DaysBeforeMonth(y, 2) == 31;
    assert DaysBeforeMonth(y, 3) == 31 + feb;
    assert DaysBeforeMonth(y, 4) == 62 + feb;
    assert DaysBeforeMonth(y, 5) == 92 + feb;
    assert DaysBeforeMonth(y, 6) == 123 + feb;
    assert DaysBeforeMonth(y, 7) == 153 + feb;
    assert DaysBeforeMonth(y, 8) == 184 + feb;
    assert DaysBeforeMonth(y, 9) == 215 + feb;
    assert DaysBeforeMonth(y, 10) == 245 + feb;
    assert DaysBeforeMonth(y, 11) == 276 + feb;
    assert DaysBeforeMonth(y, 12) == 306 + feb;
  }

  /** Days from 1970-01-01 to the first of January of year y (negative before 1970). */
  function YearStart(y: int): int
    decreases if y >= 1970 then y - 1970 else 1970 - y
  {
    if y == 1970 then 0
    else if y > 1970 then YearStart(y - 1) + DaysInYear(y - 1)
    else YearStart(y + 1) - DaysInYear(y)
  }

  /** The year holding the day `days` counted from the first of January of year y, and the
      day's 0-based position in that year. */
  function YearOf(days: int, y: int): (r: (int, int))
    ensures 0 <= r.1 < DaysInYear(r.0)
    ensures YearStart(r.0) + r.1 == YearStart(y) + days
    decreases if days < 0 then 1 else 0, if days < 0 then -days else days
  {
    if 0 <= days < DaysInYear(y) then (y, days)
    else if days >= DaysInYear(y) then YearOf(days - DaysInYear(y), y + 1)
    else YearOf(days + DaysInYear(y - 1), y - 1)
  }

  /** The month and 1-based day of the 0-based day-of-year `doy`, searching from month m. */
  function MonthOf(y: int, doy: int, m: int): (r: (int, int))
    requires 1 <= m <= 12
    requires DaysBeforeMonth(y, m) <= doy < DaysBeforeMonth(y, 13)
    ensures m <= r.0 <= 12
    ensures 1 <= r.1 <= DaysInMonth(y, r.0)
    ensures DaysBeforeMonth(y, r.0) + r.1 - 1 == doy
    decreases 12 - m
  {
    if doy < DaysBeforeMonth(y, m + 1) then (m, doy - DaysBeforeMonth(y, m) + 1)
    else MonthOf(y, doy, m + 1)
  }

  datatype CivilDate = CivilDate(year: int, month: int, day: int)

  predicate ValidCivil(c: CivilDate) {
    1 <= c.month <= 12 && 1 <= c.day <= DaysInMonth(c.year, c.month)
  }

  /** The civil date of a day number (days since 1970-01-01). */
  function CivilFromDays(days: int): (c: CivilDate)
    ensures ValidCivil(c)
  {
    var (y, doy) := YearOf(days, 1970);
    MonthsFillYear(y);
    var (m, d) := MonthOf(y, doy, 1);
    CivilDate(y, m, d)
  }

  /** The day number of a civil date. */
  function DaysFromCivil(c: CivilDate): int
    requires ValidCivil(c)
  {
    YearStart(c.year) + DaysBeforeMonth(c.year, c.month) + c.day - 1
  }

  /** Counting days forward and back agrees: every day number has exactly one civil date. */
  lemma CivilRoundTrip(days: int)
    ensures DaysFromCivil(CivilFromDays(days)) == days
  {
    var (y, doy) := YearOf(days, 1970);
    MonthsFillYear(y);
    var (m, d) := MonthOf(y, doy, 1);
  }

  /** A valid date lies within its own year. */
  lemma DayInYear(c: CivilDate)
    requires ValidCivil(c)
    ensures YearStart(c.year) <= DaysFromCivil(c) < YearStart(c.year) + DaysInYear(c.year)
  {
    MonthsFillYear(c.year);
    DaysBeforeMonthBound(c.year, c.month + 1);
  }

  /** The days before a month never exceed the days before the end of the year. */
  lemma {:induction false} DaysBeforeMonthBound(y: int, m: int)
    requires 1 <= m <= 13
    ensures DaysBeforeMonth(y, m) <= DaysBeforeMonth(y, 13)
    decreases 13 - m
  {
    if m < 13 {
      DaysBeforeMonthBound(y, m + 1);
    }
  }

  /** The UTC civil date of an instant: `getUTCFullYear`, `getUTCMonth() + 1`, `getUTCDate`.
      Division by a positive divisor rounds down, as the day of a negative instant must. */
  function UtcDate(t: int): (c: CivilDate)
    ensures ValidCivil(c)
    ensures DaysFromCivil(c) * MS_PER_DAY <= t < (DaysFromCivil(c) + 1) * MS_PER_DAY
  {
    CivilRoundTrip(t / MS_PER_DAY);
    CivilFromDays(t / MS_PER_DAY)
  }
}
