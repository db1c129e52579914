/** Proleptic Gregorian dates and the day numbers the calendar code computes with.

    A day is the integer that Python's `date.toordinal` gives it: 1 is Monday
    1 January of year 1, so `(n + 6) % 7` is the weekday with Monday as 0. Years run
    upwards from 1 without a bound.
  */
module CivilDates {

  datatype Date = Date(year: int, month: int, day: int)

  const MONDAY := 0
  const THURSDAY := 3
  const FRIDAY := 4
  const SATURDAY := 5
  const SUNDAY := 6

  predicate IsLeap(y: int) {
    y % 4 == 0 && (y % 100 != 0 || y % 400 == 0)
  }

  function DaysInMonth(y: int, m: int): int
    requires 1 <= m <= 12
  {
    if m == 2 then (if IsLeap(y) then 29 else 28)
    else if m in {4, 6, 9, 11} then 30
    else 31
  }

  function DaysInYear(y: int): int {
    if IsLeap(y) then 366 else 365
  }

  function DaysBeforeYear(y: int): int
    decreases y
  {
    if y <= 1 then 0 else DaysBeforeYear(y - 1) + DaysInYear(y - 1)
  }

  function DaysBeforeMonth(y: int, m: int): int
    requires 1 <= m <= 13
    decreases m
  {
    if m == 1 then 0 else DaysBeforeMonth(y, m - 1) + DaysInMonth(y, m - 1)
  }

  predicate Valid(d: Date) {
    1 <= d.year && 1 <= d.month <= 12 && 1 <= d.day <= DaysInMonth(d.year, d.month)
  }

  /** The day number of a year, month and day; days outside the month are allowed, as offsets. */
  function DayNumber(y: int, m: int, d: int): int
    requires 1 <= m <= 12
  {
    DaysBeforeYear(y) + DaysBeforeMonth(y, m) + d
  }

  function Ordinal(d: Date): int
    requires 1 <= d.month <= 12
  {
    DayNumber(d.year, d.month, d.day)
  }

  function Weekday(n: int): int {
    (n + 6) % 7
  }

  predicate IsWeekend(n: int) {
    Weekday(n) >= 5
  }

  // ---- From day numbers back to dates ----

  function YearFrom(y: int, n: int): int
    requires 1 <= y && DaysBeforeYear(y) < n
    decreases n - DaysBeforeYear(y)
  {
    if n <= DaysBeforeYear(y + 1) then y else YearFrom(y + 1, n)
  }

  function MonthFrom(y: int, m: int, k: int): int
    requires 1 <= m <= 12
    requires DaysBeforeMonth(y, m) < k <= DaysBeforeMonth(y, 13)
    decreases 12 - m
  {
    if m == 12 || k <= DaysBeforeMonth(y, m + 1) then m else MonthFrom(y, m + 1, k)
  }

  function YearOf(n: int): int
    requires 1 <= n
  {
    YearFrom(1, n)
  }

  function FromOrdinal(n: int): Date
    requires 1 <= n
  {
    YearFromBounds(1, n);
    var y := YearOf(n);
    MonthTable(y);
    var k := n - DaysBeforeYear(y);
    var m := MonthFrom(y, 1, k);
    Date(y, m, k - DaysBeforeMonth(y, m))
  }

  // ---- Facts about years and months ----

  /** A quotient by 4, 100 or 400 grows exactly at the multiples. */
  lemma QuotientSteps(y: int)
    ensures y / 4 == (y - 1) / 4 + (if y % 4 == 0 then 1 else 0)
    ensures y / 100 == (y - 1) / 100 + (if y % 100 == 0 then 1 else 0)
    ensures y / 400 == (y - 1) / 400 + (if y % 400 == 0 then 1 else 0)
  {
  }

  lemma MultipleOf100(y: int, q: int)
    requires y == 100 * q
    ensures y % 100 == 0
  {
  }

  lemma MultipleOf4(y: int, q: int)
    requires y == 4 * q
    ensures y % 4 == 0
  {
  }

  lemma CenturyRule(y: int)
    ensures y % 400 == 0 ==> y % 100 == 0
    ensures y % 100 == 0 ==> y % 4 == 0
  {
    if y % 400 == 0 {
      MultipleOf100(y, 4 * (y / 400));
    }
    if y % 100 == 0 {
      MultipleOf4(y, 25 * (y / 100));
    }
  }

  function ClosedForm(y: int): int { 365 * y + y / 4 - y / 100 + y / 400 }

  lemma ClosedFormStep(y: int)
    ensures ClosedForm(y) == ClosedForm(y - 1) + DaysInYear(y)
  {
    QuotientSteps(y);
    CenturyRule(y);
  }

  /** The days before a year in closed form. */
  lemma {:induction false} DaysBeforeYearClosedForm(y: int)
    requires 1 <= y
    ensures DaysBeforeYear(y + 1) == 365 * y + y / 4 - y / 100 + y / 400
    decreases y
  {
    ClosedFormStep(y);
    if 1 < y {
      DaysBeforeYearClosedForm(y - 1);
    }
  }

  lemma {:induction false} YearsMonotone(y1: int, y2: int)
    requires 1 <= y1 < y2
    ensures DaysBeforeYear(y1 + 1) <= DaysBeforeYear(y2)
    ensures DaysBeforeYear(y1) + 365 <= DaysBeforeYear(y2)
    decreases y2 - y1
  {
    if y1 + 1 < y2 {
      YearsMonotone(y1, y2 - 1);
    }
  }

  /** The cumulative month table of `y`, spelled out. */
  lemma MonthTable(y: int)
    ensures var leap := if IsLeap(y) then 1 else 0;
            && DaysBeforeMonth(y, 1) == 0
            && DaysBeforeMonth(y, 2) == 31
            && DaysBeforeMonth(y, 3) == 59 + leap
            && DaysBeforeMonth(y, 4) == 90 + leap
            && DaysBeforeMonth(y, 5) == 120 + leap
            && DaysBeforeMonth(y, 6) == 151 + leap
            && DaysBeforeMonth(y, 7) == 181 + leap
            && DaysBeforeMonth(y, 8) == 212 + leap
            && DaysBeforeMonth(y, 9) == 243 + leap
            && DaysBeforeMonth(y, 10) == 273 + leap
            && DaysBeforeMonth(y, 11) == 304 + leap
            && DaysBeforeMonth(y, 12) == 334 + leap
            && DaysBeforeMonth(y, 13) == 365 + leap
  {
    assert DaysBeforeMonth(y, 4) == DaysBeforeMonth(y, 3) + 31;
    assert DaysBeforeMonth(y, 7) == DaysBeforeMonth(y, 6) + 30;
    assert DaysBeforeMonth(y, 10) == DaysBeforeMonth(y, 9) + 30;
  }

  lemma {:induction false} MonthsMonotone(y: int, m1: int, m2: int)
    requires 1 <= m1 < m2 <= 13
    ensures DaysBeforeMonth(y, m1) + DaysInMonth(y, m1) <= DaysBeforeMonth(y, m2)
    decreases m2 - m1
  {
    if m1 + 1 < m2 {
      MonthsMonotone(y, m1, m2 - 1);
    }
  }

  lemma {:induction false} YearFromBounds(y: int, n: int)
    requires 1 <= y && DaysBeforeYear(y) < n
    ensures var r := YearFrom(y, n); y <= r && DaysBeforeYear(r) < n <= DaysBeforeYear(r + 1)
    decreases n - DaysBeforeYear(y)
  {
    if n > DaysBeforeYear(y + 1) {
      YearFromBounds(y + 1, n);
    }
  }

  lemma {:induction false} MonthFromBounds(y: int, m: int, k: int)
    requires 1 <= m <= 12
    requires DaysBeforeMonth(y, m) < k <= DaysBeforeMonth(y, 13)
    ensures var r := MonthFrom(y, m, k); m <= r <= 12 && DaysBeforeMonth(y, r) < k <= DaysBeforeMonth(y, r + 1)
    decreases 12 - m
  {
    if m < 12 && k > DaysBeforeMonth(y, m + 1) {
      MonthFromBounds(y, m + 1, k);
    }
  }

  // ---- Dates and day numbers correspond one to one ----

  /** Every day number from 1 on is the number of one valid date. */
  lemma OrdinalOfFromOrdinal(n: int)
    requires 1 <= n
    ensures Valid(FromOrdinal(n)) && Ordinal(FromOrdinal(n)) == n
  {
    YearFromBounds(1, n);
    var y := YearOf(n);
    MonthTable(y);
    MonthFromBounds(y, 1, n - DaysBeforeYear(y));
  }

  lemma OrdinalInYear(d: Date)
    requires Valid(d)
    ensures DaysBeforeYear(d.year) < Ordinal(d) <= DaysBeforeYear(d.year + 1)
    ensures 1 <= Ordinal(d)
  {
    MonthTable(d.year);
    MonthsMonotone(d.year, d.month, 13);
    if d.month > 1 {
      MonthsMonotone(d.year, 1, d.month);
    }
    if d.year > 1 {
      YearsMonotone(1, d.year);
    }
  }

  /** The day number determines the year it lies in. */
  lemma YearOfUnique(y: int, n: int)
    requires 1 <= y && 1 <= n && DaysBeforeYear(y) < n <= DaysBeforeYear(y + 1)
    ensures YearOf(n) == y
  {
    YearFromBounds(1, n);
    var r := YearOf(n);
    if r < y {
      YearsMonotone(r, y);
    } else if y < r {
      YearsMonotone(y, r);
    }
  }

  /** A valid date survives the trip through its day number. */
  lemma FromOrdinalOfOrdinal(d: Date)
    requires Valid(d)
    ensures 1 <= Ordinal(d) && FromOrdinal(Ordinal(d)) == d
  {
    OrdinalInYear(d);
    var n := Ordinal(d);
    YearOfUnique(d.year, n);
    MonthTable(d.year);
    var k := n - DaysBeforeYear(d.year);
    MonthFromBounds(d.year, 1, k);
    var m := MonthFrom(d.year, 1, k);
    if m < d.month {
      MonthsMonotone(d.year, m, d.month);
    } else if d.month < m {
      MonthsMonotone(d.year, d.month, m);
    }
  }

  /** Day numbers are ordered as the dates they stand for. */
  lemma OrdinalOrder(d1: Date, d2: Date)
    requires Valid(d1) && Valid(d2)
    ensures Ordinal(d1) < Ordinal(d2) <==>
              d1.year < d2.year
              || (d1.year == d2.year && (d1.month < d2.month || (d1.month == d2.month && d1.day < d2.day)))
  {
    OrdinalInYear(d1);
    OrdinalInYear(d2);
    if d1.year < d2.year {
      YearsMonotone(d1.year, d2.year);
    } else if d2.year < d1.year {
      YearsMonotone(d2.year, d1.year);
    } else if d1.month < d2.month {
      MonthsMonotone(d1.year, d1.month, d2.month);
    } else if d2.month < d1.month {
      MonthsMonotone(d1.year, d2.month, d1.month);
    }
  }
}
