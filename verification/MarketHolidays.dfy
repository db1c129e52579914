/** Which days the two exchanges are closed: the movable and fixed NYSE holidays of any
    year, and the Korean holidays listed for 2025 and 2026. Days are day numbers.
  */
module MarketHolidays {
  import opened Common
  import opened CivilDates
  import opened Easter

  // ---- The n-th and the last weekday of a month ----

  function NthWeekday(year: int, month: int, weekday: int, n: int): int
    requires 1 <= month <= 12
  {
    var first := DayNumber(year, month, 1);
    var offset := (weekday - Weekday(first)) % 7;
    first + offset + 7 * (n - 1)
  }

  function LastDayOfMonth(year: int, month: int): int
    requires 1 <= month <= 12
  {
    if month == 12 then DayNumber(year + 1, 1, 1) - 1 else DayNumber(year, month + 1, 1) - 1
  }

  function LastWeekday(year: int, month: int, weekday: int): int
    requires 1 <= month <= 12
  {
    var lastDay := LastDayOfMonth(year, month);
    var offset := (Weekday(lastDay) - weekday) % 7;
    lastDay - offset
  }

  /** The n-th `weekday` is the one day of that weekday in the n-th week counted from the 1st. */
  lemma NthWeekdayIsNth(year: int, month: int, weekday: int, n: int, day: int)
    requires 1 <= month <= 12 && 0 <= weekday < 7
    ensures var first := DayNumber(year, month, 1);
            day == NthWeekday(year, month, weekday, n)
            <==> Weekday(day) == weekday && first + 7 * (n - 1) <= day < first + 7 * n
  {
    WeekdayInWeek(DayNumber(year, month, 1), weekday, n - 1, day);
  }

  lemma WeekdayInWeek(first: int, weekday: int, w: int, day: int)
    requires 0 <= weekday < 7
    ensures day == first + (weekday - Weekday(first)) % 7 + 7 * w
            <==> Weekday(day) == weekday && first + 7 * w <= day < first + 7 * (w + 1)
  {
    var offset := (weekday - Weekday(first)) % 7;
    assert Weekday(first + offset) == weekday;
    assert Weekday(first + offset + 7 * w) == weekday;
  }

  /** The last `weekday` is the one day of that weekday in the last seven days of the month. */
  lemma LastWeekdayIsLast(year: int, month: int, weekday: int, day: int)
    requires 1 <= year
    requires 1 <= month <= 12 && 0 <= weekday < 7
    ensures var next := DayNumber(year, month, DaysInMonth(year, month)) + 1;
            day == LastWeekday(year, month, weekday)
            <==> Weekday(day) == weekday && next - 7 <= day < next
  {
    MonthTable(year);
    MonthTable(year + 1);
    WeekdayFromEnd(LastDayOfMonth(year, month), weekday, day);
  }

  lemma WeekdayFromEnd(last: int, weekday: int, day: int)
    requires 0 <= weekday < 7
    ensures day == last - (Weekday(last) - weekday) % 7
            <==> Weekday(day) == weekday && last - 6 <= day <= last
  {
  }

  // ---- The observed day of a fixed holiday ----

  function ObservedHoliday(d: int): int {
    if Weekday(d) == SATURDAY then d - 1
    else if Weekday(d) == SUNDAY then d + 1
    else d
  }

  /** The observed day is the weekday nearest to the holiday. */
  lemma ObservedIsNearestWeekday(d: int, w: int)
    requires !IsWeekend(w)
    ensures !IsWeekend(ObservedHoliday(d))
    ensures w == ObservedHoliday(d) || (if w < d then d - w else w - d) > (if ObservedHoliday(d) < d then d - ObservedHoliday(d) else ObservedHoliday(d) - d)
  {
  }

  // ---- The NYSE holidays of a year ----

  /** Two days before the Easter date of the closed form (see `GoodFridayIsFriday`). */
  function GoodFriday(year: int): int {
    DayNumber(year, 3, 22) + EasterShift(year) - 2
  }

  /** Early closes: 3 July and 24 December on weekdays, and the day after Thanksgiving. */
  function NyseEarlyCloses(year: int): set<int> {
    var july3 := DayNumber(year, 7, 3);
    var december24 := DayNumber(year, 12, 24);
    (if Weekday(july3) < 5 then {july3} else {})
    + {NthWeekday(year, 11, THURSDAY, 4) + 1}
    + (if Weekday(december24) < 5 then {december24} else {})
  }

  /** The ten holidays in calendar order. */
  function Holiday(year: int, k: int): int
    requires 0 <= k < 10
  {
    match k
    case 0 => ObservedHoliday(DayNumber(year, 1, 1))
    case 1 => NthWeekday(year, 1, MONDAY, 3)
    case 2 => NthWeekday(year, 2, MONDAY, 3)
    case 3 => GoodFriday(year)
    case 4 => LastWeekday(year, 5, MONDAY)
    case 5 => ObservedHoliday(DayNumber(year, 6, 19))
    case 6 => ObservedHoliday(DayNumber(year, 7, 4))
    case 7 => NthWeekday(year, 9, MONDAY, 1)
    case 8 => NthWeekday(year, 11, THURSDAY, 4)
    case _ => ObservedHoliday(DayNumber(year, 12, 25))
  }

  /** The holiday set of a year, with the ten holidays added one by one. */
  function NyseHolidays(year: int): set<int> {
    FirstHolidays(year, 10)
  }

  function FirstHolidays(year: int, count: nat): set<int>
    requires count <= 10
  {
    if count == 0 then {} else FirstHolidays(year, count - 1) + {Holiday(year, count - 1)}
  }

  /** Earliest and latest day of the year the k-th holiday can fall on, over all years. */
  function Window(k: int): (int, int)
    requires 0 <= k < 10
  {
    match k
    case 0 => (0, 2)
    case 1 => (15, 21)
    case 2 => (46, 52)
    case 3 => (79, 114)
    case 4 => (145, 152)
    case 5 => (169, 172)
    case 6 => (184, 187)
    case 7 => (244, 251)
    case 8 => (326, 333)
    case _ => (358, 361)
  }

  /** Membership in the holiday set is being one of the ten holidays. */
  lemma {:induction false} FirstHolidaysMembers(year: int, count: nat, n: int)
    requires count <= 10
    ensures n in FirstHolidays(year, count) <==> exists k :: 0 <= k < count && n == Holiday(year, k)
  {
    if count > 0 {
      FirstHolidaysMembers(year, count - 1, n);
      assert n in FirstHolidays(year, count) <==> n in FirstHolidays(year, count - 1) || n == Holiday(year, count - 1);
    }
  }

  lemma HolidayIndex(year: int, n: int) returns (k: int)
    requires n in NyseHolidays(year)
    ensures 0 <= k < 10 && n == Holiday(year, k)
  {
    FirstHolidaysMembers(year, 10, n);
    k :| 0 <= k < 10 && n == Holiday(year, k);
  }

  lemma FixedHolidayWindow(year: int, month: int, day: int)
    requires 1 <= month <= 12
    ensures var n := ObservedHoliday(DayNumber(year, month, day));
            !IsWeekend(n) && DayNumber(year, month, day) - 1 <= n <= DayNumber(year, month, day) + 1
  {
  }

  lemma NthWeekdayWindow(year: int, month: int, weekday: int, n: int)
    requires 1 <= month <= 12 && 0 <= weekday < 5
    ensures var d := NthWeekday(year, month, weekday, n);
            !IsWeekend(d) && DayNumber(year, month, 7 * n - 6) <= d <= DayNumber(year, month, 7 * n)
  {
    NthWeekdayIsNth(year, month, weekday, n, NthWeekday(year, month, weekday, n));
  }

  /** Every holiday is a weekday and stays inside its window. */
  lemma HolidayInWindow(year: int, k: int)
    requires 1 <= year
    requires 0 <= k < 10
    ensures !IsWeekend(Holiday(year, k))
    ensures Window(k).0 <= Holiday(year, k) - DaysBeforeYear(year) <= Window(k).1
  {
    MonthTable(year);
    match k
    case 0 => FixedHolidayWindow(year, 1, 1);
    case 1 => NthWeekdayWindow(year, 1, MONDAY, 3);
    case 2 => NthWeekdayWindow(year, 2, MONDAY, 3);
    case 3 => GoodFridayIsFriday(year);
    case 4 => LastWeekdayIsLast(year, 5, MONDAY, LastWeekday(year, 5, MONDAY));
    case 5 => FixedHolidayWindow(year, 6, 19);
    case 6 => FixedHolidayWindow(year, 7, 4);
    case 7 => NthWeekdayWindow(year, 9, MONDAY, 1);
    case 8 => NthWeekdayWindow(year, 11, THURSDAY, 4);
    case _ => FixedHolidayWindow(year, 12, 25);
  }

  /** Two days before Easter is a Friday between 20 March and 23 April. */
  lemma GoodFridayIsFriday(year: int)
    requires 1 <= year
    ensures Weekday(GoodFriday(year)) == FRIDAY
    ensures DayNumber(year, 3, 20) <= GoodFriday(year) <= DayNumber(year, 4, 23)
    ensures var easter := CalculateEaster(year); Valid(easter) && GoodFriday(year) == Ordinal(easter) - 2
  {
    EasterIsFirstSundayAfterFullMoon(year);
    EasterShiftFindsSunday(year);
    TwoDaysBefore(DayNumber(year, 3, 22) + EasterShift(year));
    MonthTable(year);
  }

  lemma TwoDaysBefore(n: int)
    requires Weekday(n) == SUNDAY
    ensures Weekday(n - 2) == FRIDAY
  {
  }

  // ---- How far apart closed days are ----

  /** Days the NYSE calendar closes beyond weekends: the holiday set is looked up by the
      day's own year, so a New Year's Day observed on 31 December is not among them. */
  predicate IsNyseHoliday(n: int) {
    1 <= n && n in NyseHolidays(YearOf(n))
  }

  lemma NyseHolidayFacts(n: int) returns (y: int, k: int)
    requires IsNyseHoliday(n)
    ensures 1 <= y && 0 <= k < 10 && n == Holiday(y, k) && y == YearOf(n)
    ensures DaysBeforeYear(y) < n
    ensures Window(k).0 <= n - DaysBeforeYear(y) <= Window(k).1
    ensures !IsWeekend(n)
  {
    y := YearOf(n);
    YearFromBounds(1, n);
    k := HolidayIndex(y, n);
    HolidayInWindow(y, k);
  }

  lemma ChristmasToNewYear(year: int)
    requires 1 <= year
    ensures var newYear := ObservedHoliday(DayNumber(year + 1, 1, 1));
            newYear > DaysBeforeYear(year + 1) ==> newYear - ObservedHoliday(DayNumber(year, 12, 25)) >= 7
  {
    MonthTable(year);
    MonthTable(year + 1);
    SevenDaysLater(DayNumber(year, 12, 25));
  }

  lemma SevenDaysLater(d: int)
    ensures ObservedHoliday(d + 7) == ObservedHoliday(d) + 7
  {
  }

  /** Two days in the windows of their holidays are a week apart, unless they are a
      Christmas and the New Year's Day after it. */
  lemma WindowsAWeekApart(y1: int, k1: int, n1: int, y2: int, k2: int, n2: int)
    requires 1 <= y1 && 1 <= y2
    requires 0 <= k1 < 10 && Window(k1).0 <= n1 - DaysBeforeYear(y1) <= Window(k1).1
    requires 0 <= k2 < 10 && Window(k2).0 <= n2 - DaysBeforeYear(y2) <= Window(k2).1
    requires DaysBeforeYear(y2) < n2
    requires n1 < n2 && (y1 == y2 ==> k1 != k2)
    ensures n2 - n1 >= 7 || (y2 == y1 + 1 && k1 == 9 && k2 == 0)
  {
    if y2 < y1 {
      YearsMonotone(y2, y1);
    } else if y1 + 1 < y2 {
      YearsMonotone(y1 + 1, y2);
    }
  }

  lemma HolidayPairApart(y1: int, k1: int, n1: int, y2: int, k2: int, n2: int)
    requires 1 <= y1 && 1 <= y2
    requires 0 <= k1 < 10 && n1 == Holiday(y1, k1) && Window(k1).0 <= n1 - DaysBeforeYear(y1) <= Window(k1).1
    requires 0 <= k2 < 10 && n2 == Holiday(y2, k2) && Window(k2).0 <= n2 - DaysBeforeYear(y2) <= Window(k2).1
    requires DaysBeforeYear(y2) < n2
    requires n1 < n2 && (y1 == y2 ==> k1 != k2)
    ensures n2 - n1 >= 7
  {
    WindowsAWeekApart(y1, k1, n1, y2, k2, n2);
    if y2 == y1 + 1 && k1 == 9 && k2 == 0 {
      ChristmasToNewYear(y1);
    }
  }

  /** Any two NYSE holidays, in the same year or not, are at least a week apart. */
  lemma HolidaysAWeekApart(n1: int, n2: int)
    requires IsNyseHoliday(n1) && IsNyseHoliday(n2) && n1 < n2
    ensures n2 - n1 >= 7
  {
    var y1, k1 := NyseHolidayFacts(n1);
    var y2, k2 := NyseHolidayFacts(n2);
    assert y1 == y2 ==> k1 != k2;
    HolidayPairApart(y1, k1, n1, y2, k2, n2);
  }

  /** A year's ten holidays are ten different days. */
  lemma TenHolidays(year: int, j: int, k: int)
    requires 1 <= year
    requires 0 <= j < k < 10
    ensures Holiday(year, k) - Holiday(year, j) >= 12
  {
    HolidayInWindow(year, j);
    HolidayInWindow(year, k);
    WindowsApart(j, k);
  }

  lemma WindowsApart(j: int, k: int)
    requires 0 <= j < k < 10
    ensures Window(k).0 - Window(j).1 >= 12
  {
  }

  lemma HolidayListed(year: int, k: int)
    requires 0 <= k < 10
    ensures Holiday(year, k) in NyseHolidays(year)
  {
    FirstHolidaysMembers(year, 10, Holiday(year, k));
  }

  lemma SaturdayIsObservedBefore(d: int)
    requires Weekday(d) == SATURDAY
    ensures ObservedHoliday(d) == d - 1
  {
  }

  lemma LastDayIsPastAllWindows(year: int, n: int)
    requires 1 <= year && n == DaysBeforeYear(year + 1)
    ensures 1 <= n && YearOf(n) == year && n - DaysBeforeYear(year) >= 365
  {
    YearsMonotone(1, year + 1);
    YearOfUnique(year, n);
  }

  lemma WindowsEndInTime(k: int)
    requires 0 <= k < 10
    ensures Window(k).1 < 365
  {
  }

  /** 31 December is never a closed day of the calendar. */
  lemma LastDayIsOpen(year: int)
    requires 1 <= year
    ensures !IsNyseHoliday(DaysBeforeYear(year + 1))
  {
    var n := DaysBeforeYear(year + 1);
    LastDayIsPastAllWindows(year, n);
    if IsNyseHoliday(n) {
      var y, k := NyseHolidayFacts(n);
      WindowsEndInTime(k);
      assert false;
    }
  }

  /** A holiday listed for a year falls in that year unless it is a New Year's Day on a
      Saturday, whose observed day is the last of the year before. */
  lemma HolidayYear(year: int, k: int)
    requires 1 <= year && 0 <= k < 10
    requires !(k == 0 && Weekday(DayNumber(year, 1, 1)) == SATURDAY)
    ensures 1 <= Holiday(year, k) && YearOf(Holiday(year, k)) == year
  {
    HolidayInWindow(year, k);
    WindowsEndInTime(k);
    if k == 0 {
      NewYearNotBefore(year);
    } else {
      OnlyNewYearCanBeEarly(k);
    }
    DayInYear(year, Holiday(year, k));
  }

  lemma NewYearNotBefore(year: int)
    requires Weekday(DayNumber(year, 1, 1)) != SATURDAY
    ensures Holiday(year, 0) > DaysBeforeYear(year)
  {
  }

  lemma OnlyNewYearCanBeEarly(k: int)
    requires 0 < k < 10
    ensures Window(k).0 > 0
  {
  }

  /** Every holiday listed for a year is a closed day, with one exception: the New Year's Day
      of a year that begins on a Saturday. */
  lemma ListedHolidayIsClosed(year: int, k: int)
    requires 1 <= year && 0 <= k < 10
    ensures IsNyseHoliday(Holiday(year, k)) <==> !(k == 0 && Weekday(DayNumber(year, 1, 1)) == SATURDAY)
  {
    if k == 0 && Weekday(DayNumber(year, 1, 1)) == SATURDAY {
      SaturdayIsObservedBefore(DayNumber(year, 1, 1));
      if year > 1 {
        LastDayIsOpen(year - 1);
      }
    } else {
      HolidayYear(year, k);
      HolidayListed(year, k);
    }
  }

  /** 2022 is such a year. */
  lemma NewYear2022IsSaturday(year: int)
    requires year == 2022
    ensures Weekday(DayNumber(year, 1, 1)) == SATURDAY
  {
    DaysBeforeYearClosedForm(year - 1);
    assert DayNumber(year, 1, 1) == 738156;
  }

  /** Around a fixed holiday, the day before it is its observed day just when it is a Friday. */
  lemma DayBeforeFixedHoliday(d: int)
    requires Weekday(d) < 5
    ensures d == ObservedHoliday(d + 1) <==> Weekday(d) == FRIDAY
  {
  }

  /** Which holiday, if any, a day near the end of a window can be. */
  lemma HolidayNear(year: int, n: int, k: int)
    requires 1 <= year
    requires 0 <= k < 10
    requires (k == 0 || Window(k - 1).1 < n - DaysBeforeYear(year)) && (k == 9 || n - DaysBeforeYear(year) < Window(k + 1).0)
    ensures n in NyseHolidays(year) <==> n == Holiday(year, k)
  {
    HolidayListed(year, k);
    if n in NyseHolidays(year) {
      var j := HolidayIndex(year, n);
      HolidayInWindow(year, j);
      OnlyWindow(n - DaysBeforeYear(year), j, k);
    }
  }

  lemma OnlyWindow(day: int, j: int, k: int)
    requires 0 <= j < 10 && 0 <= k < 10 && Window(j).0 <= day <= Window(j).1
    requires (k == 0 || Window(k - 1).1 < day) && (k == 9 || day < Window(k + 1).0)
    ensures j == k
  {
  }

  /** An early close falls on a trading day except on the Friday before a Saturday holiday. */
  lemma EarlyClosesOnTradingDays(year: int, n: int)
    requires 1 <= year && n in NyseEarlyCloses(year)
    ensures 1 <= n && YearOf(n) == year && !IsWeekend(n)
    ensures IsNyseHoliday(n) <==>
              Weekday(n) == FRIDAY && (n == DayNumber(year, 7, 3) || n == DayNumber(year, 12, 24))
  {
    var k := EarlyCloseWindow(year, n);
    DayInYear(year, n);
    HolidayNear(year, n, k);
  }

  lemma DayInYear(year: int, n: int)
    requires 1 <= year && 1 <= n - DaysBeforeYear(year) <= 365
    ensures 1 <= n && YearOf(n) == year
  {
    if year > 1 {
      YearsMonotone(1, year);
    }
    YearOfUnique(year, n);
  }

  lemma FridayAfter(n: int)
    requires Weekday(n) == THURSDAY
    ensures Weekday(n + 1) == FRIDAY
  {
  }

  lemma EarlyCloseWindow(year: int, n: int) returns (k: int)
    requires 1 <= year
    requires n in NyseEarlyCloses(year)
    ensures 0 < k < 10 && Window(k - 1).1 < n - DaysBeforeYear(year) && (k == 9 || n - DaysBeforeYear(year) < Window(k + 1).0)
    ensures !IsWeekend(n) && 1 <= n - DaysBeforeYear(year) <= 365
    ensures n == Holiday(year, k) <==>
              Weekday(n) == FRIDAY && (n == DayNumber(year, 7, 3) || n == DayNumber(year, 12, 24))
  {
    MonthTable(year);
    var thanksgiving := NthWeekday(year, 11, THURSDAY, 4);
    if n == thanksgiving + 1 {
      k := 8;
      NthWeekdayIsNth(year, 11, THURSDAY, 4, thanksgiving);
      FridayAfter(thanksgiving);
    } else if n == DayNumber(year, 7, 3) {
      k := 6;
      DayBeforeFixedHoliday(n);
    } else {
      k := 9;
      DayBeforeFixedHoliday(n);
    }
  }

  // ---- Daylight saving ----

  predicate IsDst(n: int)
    requires 1 <= n
  {
    NthWeekday(YearOf(n), 3, SUNDAY, 2) <= n < NthWeekday(YearOf(n), 11, SUNDAY, 1)
  }

  lemma SameWeekday(first: int)
    ensures Weekday(first + 245) == Weekday(first)
  {
  }

  lemma DstWindowLength(year: int)
    requires 1 <= year
    ensures NthWeekday(year, 11, SUNDAY, 1) == NthWeekday(year, 3, SUNDAY, 2) + 238
    ensures 1 <= NthWeekday(year, 3, SUNDAY, 2) - DaysBeforeYear(year) <= 74
  {
    MonthTable(year);
    SameWeekday(DayNumber(year, 3, 1));
  }

  lemma {:induction false} IntervalSize(days: set<int>, low: int, count: nat)
    requires forall n :: n in days <==> low <= n < low + count
    ensures |days| == count
  {
    if count == 0 {
      if days != {} {
        var d := AnElement(days);
        assert false;
      }
    } else {
      IntervalSize(days - {low + count - 1}, low, count - 1);
    }
  }

  function DstDays(year: int): set<int> {
    set n | DaysBeforeYear(year) < n <= DaysBeforeYear(year + 1) && 1 <= n && IsDst(n)
  }

  /** Daylight saving covers 238 days of every year, in one stretch from a Sunday on. */
  lemma DstCovers34Weeks(year: int)
    requires 1 <= year
    ensures var first := NthWeekday(year, 3, SUNDAY, 2);
            Weekday(first) == SUNDAY && forall n :: n in DstDays(year) <==> first <= n < first + 238
    ensures |DstDays(year)| == 238
  {
    var first := NthWeekday(year, 3, SUNDAY, 2);
    DstWindowLength(year);
    NthWeekdayIsNth(year, 3, SUNDAY, 2, first);
    YearsMonotone(1, year + 1);
    if year > 1 {
      YearsMonotone(1, year);
    }
    YearsMonotone(year, year + 1);
    forall n | DaysBeforeYear(year) < n <= DaysBeforeYear(year + 1)
      ensures 1 <= n && (IsDst(n) <==> first <= n < first + 238)
    {
      YearOfUnique(year, n);
    }
    IntervalSize(DstDays(year), first, 238);
  }

  // ---- The Korean holidays ----

  const KR_HOLIDAY_LIST: seq<Date> := [
    Date(2025, 1, 1), Date(2025, 1, 28), Date(2025, 1, 29), Date(2025, 1, 30), Date(2025, 3, 1),
    Date(2025, 5, 5), Date(2025, 5, 6), Date(2025, 6, 6), Date(2025, 8, 15), Date(2025, 10, 3),
    Date(2025, 10, 6), Date(2025, 10, 7), Date(2025, 10, 8), Date(2025, 10, 9), Date(2025, 12, 25),
    Date(2026, 1, 1), Date(2026, 2, 16), Date(2026, 2, 17), Date(2026, 2, 18), Date(2026, 3, 1),
    Date(2026, 5, 5), Date(2026, 5, 24), Date(2026, 6, 6), Date(2026, 8, 15), Date(2026, 9, 24),
    Date(2026, 9, 25), Date(2026, 9, 26), Date(2026, 10, 3), Date(2026, 10, 9), Date(2026, 12, 25)
  ]

  const KR_HOLIDAYS: set<Date> := set d | d in KR_HOLIDAY_LIST

  lemma {:induction false} AtMostAsManyDates(list: seq<Date>)
    ensures |set d | d in list| <= |list|
  {
    if list == [] {
      assert (set d | d in list) == {};
    } else {
      AtMostAsManyDates(list[1..]);
      assert (set d | d in list) == (set d | d in list[1..]) + {list[0]};
    }
  }
}
