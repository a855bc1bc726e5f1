/** Civil-date arithmetic on the proleptic Gregorian calendar, as Python's
    `datetime` module does it: a date is turned into a count of days and back
    with the 400-, 100-, 4- and 1-year cycles of the calendar. Day numbers
    count from 1970-01-01 (day 0); negative numbers are earlier days. */
module Calendar {

  datatype Date = Date(year: int, month: int, day: int)

  predicate IsLeapYear(y: int) {
    y % 4 == 0 && (y % 100 != 0 || y % 400 == 0)
  }

  function YearLength(y: int): int {
    if IsLeapYear(y) then 366 else 365
  }

  function DaysInMonth(y: int, m: int): int
    requires 1 <= m <= 12
  {
    if m == 2 then (if IsLeapYear(y) then 29 else 28)
    else if m == 4 || m == 6 || m == 9 || m == 11 then 30
    else 31
  }

  predicate ValidDate(d: Date) {
    1 <= d.month <= 12 && 1 <= d.day <= DaysInMonth(d.year, d.month)
  }

  /** Days from 0001-01-01 to the first day of year `y`. */
  function DaysBeforeYear(y: int): int {
    var p := y - 1;
    365 * p + p / 4 - p / 100 + p / 400
  }

  /** Days from the first day of year `y` to the first day of month `m`. */
  function DaysBeforeMonth(y: int, m: int): int
    requires 1 <= m <= 12
  {
    var common :=
      if m == 1 then 0 else if m == 2 then 31 else if m == 3 then 59
      else if m == 4 then 90 else if m == 5 then 120 else if m == 6 then 151
      else if m == 7 then 181 else if m == 8 then 212 else if m == 9 then 243
      else if m == 10 then 273 else if m == 11 then 304 else 334;
    if m > 2 && IsLeapYear(y) then common + 1 else common
  }

  /** The ordinal of 1970-01-01 (0001-01-01 has ordinal 1). */
  const EpochOrdinal := 719163

  /** The day number of a date: its ordinal minus that of 1970-01-01. */
  function DayNumber(d: Date): int
    requires ValidDate(d)
  {
    DaysBeforeYear(d.year) + DaysBeforeMonth(d.year, d.month) + d.day - EpochOrdinal
  }

  /** The month in which the `r`-th day (counting from 0) of year `y` falls. */
  function MonthOfDay(y: int, r: int): (m: int)
    requires 0 <= r < YearLength(y)
    ensures 1 <= m <= 12
    ensures DaysBeforeMonth(y, m) <= r < DaysBeforeMonth(y, m) + DaysInMonth(y, m)
  {
    if r < DaysBeforeMonth(y, 2) then 1
    else if r < DaysBeforeMonth(y, 3) then 2
    else if r < DaysBeforeMonth(y, 4) then 3
    else if r < DaysBeforeMonth(y, 5) then 4
    else if r < DaysBeforeMonth(y, 6) then 5
    else if r < DaysBeforeMonth(y, 7) then 6
    else if r < DaysBeforeMonth(y, 8) then 7
    else if r < DaysBeforeMonth(y, 9) then 8
    else if r < DaysBeforeMonth(y, 10) then 9
    else if r < DaysBeforeMonth(y, 11) then 10
    else if r < DaysBeforeMonth(y, 12) then 11
    else 12
  }

  /** The date of day number `n`: the inverse of DayNumber. */
  function DateOfDayNumber(n: int): (d: Date)
    ensures ValidDate(d) && DayNumber(d) == n
  {
    var (year, r) := YearAndDay(n);
    YearAndDayInYear(n);
    var m := MonthOfDay(year, r);
    Date(year, m, r - DaysBeforeMonth(year, m) + 1)
  }

  /** The year in which day number `n` falls and the position (from 0) of
      the day within that year, by the 400-, 100-, 4- and 1-year cycles. */
  function YearAndDay(n: int): (int, int) {
    var m0 := n + EpochOrdinal - 1;
    var n400, r400 := m0 / 146097, m0 % 146097;
    var n100, r100 := r400 / 36524, r400 % 36524;
    var n4, r4 := r100 / 1461, r100 % 1461;
    var n1, r1 := r4 / 365, r4 % 365;
    var year := 400 * n400 + 100 * n100 + 4 * n4 + n1 + 1;
    if n100 == 4 || n1 == 4 then
      // the last day of a 400-year or of a 4-year cycle, a leap day
      (year - 1, 365)
    else
      (year, r1)
  }

  /** The cycles give a year and a day within it whose ordinal is `n`'s. */
  lemma YearAndDayInYear(n: int)
    ensures var (year, r) := YearAndDay(n);
      0 <= r < YearLength(year) && DaysBeforeYear(year) + r == n + EpochOrdinal - 1
  {
    var m0 := n + EpochOrdinal - 1;
    var n400, r400 := m0 / 146097, m0 % 146097;
    var n100, r100 := r400 / 36524, r400 % 36524;
    var n4, r4 := r100 / 1461, r100 % 1461;
    var n1 := r4 / 365;
    if n100 == 4 {
      DaysBeforeYearSplit(n400, 3, 24, 3);
    } else if n1 == 4 {
      DaysBeforeYearSplit(n400, n100, n4, 3);
    } else {
      DaysBeforeYearSplit(n400, n100, n4, n1);
    }
  }

  /** The year in which day number `n` falls. */
  function YearOfDayNumber(n: int): int {
    YearAndDay(n).0
  }

  /** Writing the year before `y` as whole 400-, 100-, 4- and 1-year cycles
      gives the days before `y` as the sum of the cycles' lengths. */
  lemma DaysBeforeYearSplit(a: int, b: int, c: int, e: int)
    requires 0 <= b <= 3 && 0 <= c <= 24 && 0 <= e <= 3
    ensures DaysBeforeYear(400 * a + 100 * b + 4 * c + e + 1)
            == 146097 * a + 36524 * b + 1461 * c + 365 * e
    ensures IsLeapYear(400 * a + 100 * b + 4 * c + e + 1)
            <==> e == 3 && (c != 24 || b == 3)
  {
    CycleDays(a, b, c, e);
    CycleLeapYear(a, b, c, e);
  }

  lemma CycleDays(a: int, b: int, c: int, e: int)
    requires 0 <= b <= 3 && 0 <= c <= 24 && 0 <= e <= 3
    ensures DaysBeforeYear(400 * a + 100 * b + 4 * c + e + 1)
            == 146097 * a + 36524 * b + 1461 * c + 365 * e
  {
    var p := 400 * a + 100 * b + 4 * c + e;
    DivisionUnique(p, 4, 100 * a + 25 * b + c, e);
    DivisionUnique(p, 100, 4 * a + b, 4 * c + e);
    DivisionUnique(p, 400, a, 100 * b + 4 * c + e);
  }

  lemma CycleLeapYear(a: int, b: int, c: int, e: int)
    requires 0 <= b <= 3 && 0 <= c <= 24 && 0 <= e <= 3
    ensures IsLeapYear(400 * a + 100 * b + 4 * c + e + 1)
            <==> e == 3 && (c != 24 || b == 3)
  {
    var y := 400 * a + 100 * b + 4 * c + e + 1;
    if e == 3 {
      DivisionUnique(y, 4, 100 * a + 25 * b + c + 1, 0);
    } else {
      DivisionUnique(y, 4, 100 * a + 25 * b + c, e + 1);
    }
    if c == 24 && e == 3 {
      DivisionUnique(y, 100, 4 * a + b + 1, 0);
    } else {
      DivisionUnique(y, 100, 4 * a + b, 4 * c + e + 1);
    }
    if b == 3 && c == 24 && e == 3 {
      DivisionUnique(y, 400, a + 1, 0);
    } else {
      DivisionUnique(y, 400, a, 100 * b + 4 * c + e + 1);
    }
  }

  /** One year on, the days before the year grow by the year's length. */
  lemma DaysBeforeYearStep(y: int)
    ensures DaysBeforeYear(y + 1) == DaysBeforeYear(y) + YearLength(y)
  {
    DivisionStep(y, 4);
    DivisionStep(y, 100);
    DivisionStep(y, 400);
  }

  /** Counting one further: the quotient grows exactly at the multiples. */
  lemma DivisionStep(y: int, d: int)
    requires 0 < d
    ensures y / d == (y - 1) / d + (if y % d == 0 then 1 else 0)
  {
    var q, r := (y - 1) / d, (y - 1) % d;
    if r == d - 1 {
      DivisionUnique(y, d, q + 1, 0);
    } else {
      DivisionUnique(y, d, q, r + 1);
    }
  }

  /** Euclidean division is unique: a quotient and a remainder in range are
      the quotient and the remainder. */
  lemma DivisionUnique(x: int, d: int, q: int, r: int)
    requires 0 < d && 0 <= r < d && x == d * q + r
    ensures x / d == q && x % d == r
  {
    var q0, r0 := x / d, x % d;
    assert x == d * q0 + r0 && 0 <= r0 < d;
    assert d * (q - q0) == r0 - r;
    if q > q0 {
      MulAtLeast(d, q - q0);
    } else if q < q0 {
      MulAtLeast(d, q0 - q);
    }
  }

  lemma MulAtLeast(d: int, k: int)
    requires 0 < d && 1 <= k
    ensures d * k >= d
  {
  }

  lemma {:induction false} DaysBeforeYearMonotone(a: int, b: int)
    requires a < b
    ensures DaysBeforeYear(a) + YearLength(a) <= DaysBeforeYear(b)
    decreases b - a
  {
    DaysBeforeYearStep(a);
    if a + 1 < b {
      DaysBeforeYearMonotone(a + 1, b);
    }
  }

  /** The position of a date within its year lies within the year. */
  lemma DayOfYearBounds(d: Date)
    requires ValidDate(d)
    ensures 0 <= DaysBeforeMonth(d.year, d.month) + d.day - 1 < YearLength(d.year)
  {
  }

  lemma DayNumberInjective(d: Date, e: Date)
    requires ValidDate(d) && ValidDate(e) && DayNumber(d) == DayNumber(e)
    ensures d == e
  {
    DayOfYearBounds(d);
    DayOfYearBounds(e);
    if d.year < e.year {
      DaysBeforeYearMonotone(d.year, e.year);
    } else if e.year < d.year {
      DaysBeforeYearMonotone(e.year, d.year);
    }
  }

  /** DateOfDayNumber undoes DayNumber on every valid date. */
  lemma DateOfDayNumberOfDate(d: Date)
    requires ValidDate(d)
    ensures DateOfDayNumber(DayNumber(d)) == d
  {
    DayNumberInjective(DateOfDayNumber(DayNumber(d)), d);
  }

  /** The day of the week of day number `n`, Monday being 0 and Sunday 6
      (Python's `date.weekday()`); 1970-01-01 was a Thursday. */
  function Weekday(n: int): int {
    (n + 3) % 7
  }

  const Sunday := 6

  /** The last Sunday of month `m` of year `y`. */
  function LastSunday(y: int, m: int): (d: Date)
    requires 1 <= m <= 12
    ensures ValidDate(d) && d.year == y && d.month == m
    ensures Weekday(DayNumber(d)) == Sunday
    ensures DaysInMonth(y, m) < d.day + 7
  {
    var lastDay := DaysInMonth(y, m);
    var last := DayNumber(Date(y, m, lastDay));
    var back := (last + 4) % 7;
    SundayBefore(last);
    assert DayNumber(Date(y, m, lastDay - back)) == last - back;
    Date(y, m, lastDay - back)
  }

  /** Stepping back `(n + 4) % 7` days from day `n` lands on a Sunday. */
  lemma SundayBefore(n: int)
    ensures 0 <= (n + 4) % 7 < 7
    ensures Weekday(n - (n + 4) % 7) == Sunday
  {
    var q := (n + 4) / 7;
    assert n - (n + 4) % 7 + 3 == 7 * q - 1;
    assert (7 * q - 1) % 7 == 6 by {
      assert 7 * q - 1 == 7 * (q - 1) + 6;
    }
  }
}
