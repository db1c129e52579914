/** The NYSE calendar said by date and weekday alone: which days are closed, and which close
    early, against the sets that the calendar computes.
  */
module HolidaysByDate {
  import opened CivilDates
  import opened Easter
  import opened MarketHolidays

  // ---- The calendar by date ----

  /** A fixed holiday is kept on its own weekday, or on the Friday before or the Monday after. */
  predicate IsFixedHoliday(day: int, weekday: int, holiday: int) {
    || (day == holiday && weekday < SATURDAY)
    || (day == holiday - 1 && weekday == FRIDAY)
    || (day == holiday + 1 && weekday == MONDAY)
  }

  /** The holidays other than Good Friday. */
  predicate IsHolidayDate(month: int, day: int, weekday: int) {
    || (month == 1 && IsFixedHoliday(day, weekday, 1))
    || (month == 1 && 15 <= day <= 21 && weekday == MONDAY)
    || (month == 2 && 15 <= day <= 21 && weekday == MONDAY)
    || (month == 5 && 25 <= day <= 31 && weekday == MONDAY)
    || (month == 6 && IsFixedHoliday(day, weekday, 19))
    || (month == 7 && IsFixedHoliday(day, weekday, 4))
    || (month == 9 && 1 <= day <= 7 && weekday == MONDAY)
    || (month == 11 && 22 <= day <= 28 && weekday == THURSDAY)
    || (month == 12 && IsFixedHoliday(day, weekday, 25))
  }

  /** The days that close early. */
  predicate IsEarlyCloseDate(month: int, day: int, weekday: int) {
    || (month == 7 && day == 3 && weekday < SATURDAY)
    || (month == 11 && 23 <= day <= 29 && weekday == FRIDAY)
    || (month == 12 && day == 24 && weekday < SATURDAY)
  }

  // ---- Days of a month as a stretch of day numbers ----

  /** A day lies among some days of a month of its year exactly if its date says so. */
  lemma DayRange(n: int, month: int, low: int, high: int)
    requires 1 <= n && 1 <= month <= 12 && 1 <= low <= high <= DaysInMonth(YearOf(n), month)
    ensures DayNumber(YearOf(n), month, low) <= n <= DayNumber(YearOf(n), month, high)
       <==> FromOrdinal(n).month == month && low <= FromOrdinal(n).day <= high
  {
    OrdinalOfFromOrdinal(n);
    var d := FromOrdinal(n);
    if d.month < month {
      MonthsMonotone(d.year, d.month, month);
    } else if month < d.month {
      MonthsMonotone(d.year, month, d.month);
    }
  }

  lemma OneDay(n: int, month: int, day: int)
    requires 1 <= n && 1 <= month <= 12 && 1 <= day <= DaysInMonth(YearOf(n), month)
    ensures n == DayNumber(YearOf(n), month, day) <==> FromOrdinal(n).month == month && FromOrdinal(n).day == day
  {
    DayRange(n, month, day, day);
  }

  lemma ObservedDays(d: int, n: int)
    ensures n == ObservedHoliday(d) <==>
              || (n == d && Weekday(n) < SATURDAY)
              || (n == d - 1 && Weekday(n) == FRIDAY)
              || (n == d + 1 && Weekday(n) == MONDAY)
  {
  }

  lemma FixedByDate(n: int, month: int, day: int)
    requires 1 <= n && 1 <= month <= 12 && 2 <= day <= 27
    ensures n == ObservedHoliday(DayNumber(YearOf(n), month, day))
       <==> FromOrdinal(n).month == month && IsFixedHoliday(FromOrdinal(n).day, Weekday(n), day)
  {
    ObservedDays(DayNumber(YearOf(n), month, day), n);
    OneDay(n, month, day - 1);
    OneDay(n, month, day);
    OneDay(n, month, day + 1);
  }

  lemma InsideItsYear(n: int)
    requires 1 <= n
    ensures n > DayNumber(YearOf(n), 1, 1) - 1 && FromOrdinal(n).day >= 1
  {
    YearFromBounds(1, n);
    OrdinalOfFromOrdinal(n);
  }

  /** On the first of a month before which the year has no day, nothing is observed earlier. */
  lemma FirstByDate(n: int, month: int, day: int)
    requires 1 <= n && 1 <= month <= 12 && day == 1
    requires n > DayNumber(YearOf(n), month, day) - 1 && FromOrdinal(n).day >= 1
    ensures n == ObservedHoliday(DayNumber(YearOf(n), month, day))
       <==> FromOrdinal(n).month == month && IsFixedHoliday(FromOrdinal(n).day, Weekday(n), day)
  {
    ObservedDays(DayNumber(YearOf(n), month, day), n);
    OneDay(n, month, day);
    OneDay(n, month, day + 1);
  }

  /** New Year's Day, whose Friday before is in another year. */
  lemma NewYearByDate(n: int)
    requires 1 <= n
    ensures n == ObservedHoliday(DayNumber(YearOf(n), 1, 1))
       <==> FromOrdinal(n).month == 1 && IsFixedHoliday(FromOrdinal(n).day, Weekday(n), 1)
  {
    InsideItsYear(n);
    FirstByDate(n, 1, 1);
  }

  lemma NthByDate(n: int, month: int, weekday: int, nth: int)
    requires 1 <= n && 1 <= month <= 12 && 0 <= weekday < 7 && 1 <= nth <= 4
    ensures n == NthWeekday(YearOf(n), month, weekday, nth)
       <==> FromOrdinal(n).month == month && 7 * nth - 6 <= FromOrdinal(n).day <= 7 * nth && Weekday(n) == weekday
  {
    NthWeekdayIsNth(YearOf(n), month, weekday, nth, n);
    DayRange(n, month, 7 * nth - 6, 7 * nth);
  }

  lemma LastMondayOfMayByDate(n: int)
    requires 1 <= n
    ensures n == LastWeekday(YearOf(n), 5, MONDAY)
       <==> FromOrdinal(n).month == 5 && 25 <= FromOrdinal(n).day <= 31 && Weekday(n) == MONDAY
  {
    YearFromBounds(1, n);
    LastWeekdayIsLast(YearOf(n), 5, MONDAY, n);
    DayRange(n, 5, 25, 31);
  }

  lemma GoodFridayByEaster(n: int)
    requires 1 <= n
    ensures n == GoodFriday(YearOf(n)) <==> IsEasterSunday(YearOf(n), n + 2)
  {
    YearFromBounds(1, n);
    GoodFridayIsFriday(YearOf(n));
    EasterSundayIsUnique(YearOf(n), n + 2);
  }

  // ---- The theorem ----

  lemma ListedByIndex(n: int)
    requires 1 <= n
    ensures IsNyseHoliday(n) <==> exists k :: 0 <= k < 10 && n == Holiday(YearOf(n), k)
  {
    FirstHolidaysMembers(YearOf(n), 10, n);
  }

  /** What the k-th holiday of its year amounts to by date. */
  predicate IsKth(n: int, k: int)
    requires 1 <= n && 0 <= k < 10
  {
    var d, w := FromOrdinal(n), Weekday(n);
    match k
    case 0 => d.month == 1 && IsFixedHoliday(d.day, w, 1)
    case 1 => d.month == 1 && 15 <= d.day <= 21 && w == MONDAY
    case 2 => d.month == 2 && 15 <= d.day <= 21 && w == MONDAY
    case 3 => IsEasterSunday(d.year, n + 2)
    case 4 => d.month == 5 && 25 <= d.day <= 31 && w == MONDAY
    case 5 => d.month == 6 && IsFixedHoliday(d.day, w, 19)
    case 6 => d.month == 7 && IsFixedHoliday(d.day, w, 4)
    case 7 => d.month == 9 && 1 <= d.day <= 7 && w == MONDAY
    case 8 => d.month == 11 && 22 <= d.day <= 28 && w == THURSDAY
    case _ => d.month == 12 && IsFixedHoliday(d.day, w, 25)
  }

  lemma KthByDate(n: int, k: int)
    requires 1 <= n && 0 <= k < 10
    ensures n == Holiday(YearOf(n), k) <==> IsKth(n, k)
  {
    match k
    case 0 => NewYearByDate(n);
    case 1 => NthByDate(n, 1, MONDAY, 3);
    case 2 => NthByDate(n, 2, MONDAY, 3);
    case 3 => GoodFridayByEaster(n);
    case 4 => LastMondayOfMayByDate(n);
    case 5 => FixedByDate(n, 6, 19);
    case 6 => FixedByDate(n, 7, 4);
    case 7 => NthByDate(n, 9, MONDAY, 1);
    case 8 => NthByDate(n, 11, THURSDAY, 4);
    case _ => FixedByDate(n, 12, 25);
  }

  lemma SomeKthIsHolidayDate(n: int)
    requires 1 <= n
    ensures (exists k :: 0 <= k < 10 && IsKth(n, k))
       <==> IsHolidayDate(FromOrdinal(n).month, FromOrdinal(n).day, Weekday(n)) || IsEasterSunday(FromOrdinal(n).year, n + 2)
  {
    var d, w := FromOrdinal(n), Weekday(n);
    if IsHolidayDate(d.month, d.day, w) || IsEasterSunday(d.year, n + 2) {
      assert IsKth(n, 0) || IsKth(n, 1) || IsKth(n, 2) || IsKth(n, 3) || IsKth(n, 4)
          || IsKth(n, 5) || IsKth(n, 6) || IsKth(n, 7) || IsKth(n, 8) || IsKth(n, 9);
    }
  }

  /** A day is a holiday of the calendar exactly if its date is one of those above or it is
      two days before the Easter Sunday of its year. */
  lemma NyseHolidaysByDate(n: int)
    requires 1 <= n
    ensures IsNyseHoliday(n)
       <==> IsHolidayDate(FromOrdinal(n).month, FromOrdinal(n).day, Weekday(n)) || IsEasterSunday(FromOrdinal(n).year, n + 2)
  {
    ListedByIndex(n);
    forall k | 0 <= k < 10 {
      KthByDate(n, k);
    }
    SomeKthIsHolidayDate(n);
  }

  /** And it closes early exactly on those dates. */
  lemma NyseEarlyClosesByDate(n: int)
    requires 1 <= n
    ensures n in NyseEarlyCloses(YearOf(n)) <==> IsEarlyCloseDate(FromOrdinal(n).month, FromOrdinal(n).day, Weekday(n))
  {
    OneDay(n, 7, 3);
    OneDay(n, 12, 24);
    DayAfterThanksgivingByDate(n);
  }

  lemma DayAfterThanksgivingByDate(n: int)
    requires 1 <= n
    ensures n == NthWeekday(YearOf(n), 11, THURSDAY, 4) + 1
       <==> FromOrdinal(n).month == 11 && 23 <= FromOrdinal(n).day <= 29 && Weekday(n) == FRIDAY
  {
    NthWeekdayIsNth(YearOf(n), 11, THURSDAY, 4, n - 1);
    DayRange(n, 11, 23, 29);
    ThursdayBefore(n);
  }

  lemma ThursdayBefore(n: int)
    ensures Weekday(n - 1) == THURSDAY <==> Weekday(n) == FRIDAY
  {
  }
}
