/** The trading calendar of the two exchanges: is a day a trading day, the next and the
    previous one, all of them in an interval, and the day of the monthly report.
  */
module MarketCalendars {
  import opened Common
  import opened CivilDates
  import opened Easter
  import opened MarketHolidays
  import opened HolidaysByDate

  /** An exchange. The Korean one closes on a finite list of dates (`KR_HOLIDAYS`, extended
      by hand every year); what follows holds for any such list. */
  datatype Market = NYSE | KRX(holidays: set<Date>)

  predicate IsHoliday(market: Market, n: int)
    requires 1 <= n
  {
    match market
    case KRX(holidays) => FromOrdinal(n) in holidays
    case NYSE => IsNyseHoliday(n)
  }

  predicate Open(market: Market, n: int)
    requires 1 <= n
  {
    !IsWeekend(n) && !IsHoliday(market, n)
  }

  /** Trading days by date: on the NYSE without the holiday set, in Korea with its list. */
  lemma OpenByDate(market: Market, n: int)
    requires 1 <= n
    ensures var d, w := FromOrdinal(n), Weekday(n);
            match market
            case NYSE => Open(market, n) <==>
              w < SATURDAY && !IsHolidayDate(d.month, d.day, w) && !IsEasterSunday(d.year, n + 2)
            case KRX(holidays) => Open(market, n) <==> w < SATURDAY && d !in holidays
  {
    NyseHolidaysByDate(n);
  }

  // ---- A trading day is never far away ----

  /** Days within which the next trading day of a market always lies. */
  function Reach(market: Market): int {
    match market
    case KRX(holidays) => 7 * (|holidays| / 5 + 1)
    case NYSE => 4
  }

  /** A closed run on the NYSE is at most three days long. */
  lemma NyseOpensWithinFourDays(n: int) returns (t: int)
    requires 0 <= n
    ensures n < t <= n + 4 && Open(NYSE, t)
  {
    var i, j := TwoWeekdaysOfFour(n);
    NotBothHolidays(n + i, n + j);
    t := if IsNyseHoliday(n + i) then n + j else n + i;
  }

  lemma NotBothHolidays(a: int, b: int)
    requires 1 <= a < b <= a + 3
    ensures !IsNyseHoliday(a) || !IsNyseHoliday(b)
  {
    if IsNyseHoliday(a) && IsNyseHoliday(b) {
      HolidaysAWeekApart(a, b);
      assert false;
    }
  }

  lemma TwoWeekdaysOfFour(n: int) returns (i: int, j: int)
    ensures 1 <= i < j <= 4 && !IsWeekend(n + i) && !IsWeekend(n + j)
  {
    i := if IsWeekend(n + 1) then (if IsWeekend(n + 2) then 3 else 2) else 1;
    j := if IsWeekend(n + 4) then (if IsWeekend(n + 3) then 2 else 3) else 4;
  }

  /** The weekdays among the 7 * w days after n. */
  function Weekdays(n: int, w: nat): set<int> {
    set d | n < d <= n + 7 * w && !IsWeekend(d)
  }

  lemma {:induction false} FiveWeekdaysAWeek(n: int, w: nat)
    ensures |Weekdays(n, w)| == 5 * w
  {
    if w == 0 {
      assert Weekdays(n, w) == {};
    } else {
      FiveWeekdaysAWeek(n, w - 1);
      var m := n + 7 * (w - 1);
      OneWeek(m);
      assert Weekdays(n, w) == Weekdays(n, w - 1) + Weekdays(m, 1);
      assert Weekdays(n, w - 1) !! Weekdays(m, 1);
    }
  }

  lemma OneWeek(m: int)
    ensures |Weekdays(m, 1)| == 5
  {
    var saturday := m + 1 + (SATURDAY - Weekday(m + 1)) % 7;
    var sunday := m + 1 + (SUNDAY - Weekday(m + 1)) % 7;
    var week := {m + 1, m + 2, m + 3, m + 4, m + 5, m + 6, m + 7};
    assert Weekdays(m, 1) == week - {saturday, sunday};
  }

  /** Finitely many holidays can only close so many weeks: with `closed` dates, some weekday
      of the next 7 * (|closed| / 5 + 1) days is none of them. */
  lemma FiniteHolidaysLeaveAWeekday(n: int, closed: set<Date>) returns (t: int)
    requires 0 <= n
    ensures n < t <= n + 7 * (|closed| / 5 + 1) && !IsWeekend(t) && FromOrdinal(t) !in closed
  {
    var days := Weekdays(n, |closed| / 5 + 1);
    FiveWeekdaysAWeek(n, |closed| / 5 + 1);
    if forall d :: d in days ==> FromOrdinal(d) in closed {
      MoreDaysThanDates(days, closed);
      assert false;
    }
    t :| t in days && FromOrdinal(t) !in closed;
  }

  /** Different days have different dates, so covering `days` takes as many dates. */
  lemma {:induction false} MoreDaysThanDates(days: set<int>, dates: set<Date>)
    requires forall d :: d in days ==> 1 <= d && FromOrdinal(d) in dates
    ensures |days| <= |dates|
  {
    if days != {} {
      var x := AnElement(days);
      forall d | d in days - {x}
        ensures FromOrdinal(d) != FromOrdinal(x)
      {
        OrdinalOfFromOrdinal(d);
        OrdinalOfFromOrdinal(x);
      }
      MoreDaysThanDates(days - {x}, dates - {FromOrdinal(x)});
    }
  }

  lemma OpensWithinReach(market: Market, n: int) returns (t: int)
    requires 0 <= n
    ensures n < t <= n + Reach(market) && Open(market, t)
  {
    match market
    case NYSE =>
      t := NyseOpensWithinFourDays(n);
    case KRX(holidays) =>
      t := FiniteHolidaysLeaveAWeekday(n, holidays);
  }

  // ---- Next and previous trading day ----

  /** The first trading day from `first` on, given one by `limit`. */
  function FirstOpen(market: Market, first: int, limit: int): (r: int)
    requires 1 <= first <= limit && Open(market, limit)
    ensures first <= r <= limit && Open(market, r)
    ensures forall k :: first <= k < r ==> !Open(market, k)
    decreases limit - first
  {
    if Open(market, first) then first else FirstOpen(market, first + 1, limit)
  }

  ghost function Next(market: Market, n: int): int
    requires 0 <= n
  {
    assert exists t :: n < t <= n + Reach(market) && Open(market, t) by {
      var t := OpensWithinReach(market, n);
    }
    var t :| n < t <= n + Reach(market) && Open(market, t);
    FirstOpen(market, n + 1, t)
  }

  /** The last trading day up to `from`, if the calendar has one. */
  function Prev(market: Market, n: int): (r: Option<int>)
    requires 1 <= n
    ensures r.Some? ==> 1 <= r.value < n && Open(market, r.value)
    ensures r.Some? ==> forall k :: r.value < k < n ==> !Open(market, k)
    ensures r.None? ==> forall k :: 1 <= k < n ==> !Open(market, k)
    decreases n
  {
    if n == 1 then None
    else if Open(market, n - 1) then Some(n - 1)
    else Prev(market, n - 1)
  }

  lemma NextFacts(market: Market, n: int)
    requires 0 <= n
    ensures n < Next(market, n) <= n + Reach(market) && Open(market, Next(market, n))
    ensures forall k :: n < k < Next(market, n) ==> !Open(market, k)
  {
  }

  /** `Next` is the least trading day after n, and at most `Reach` days away. */
  lemma NextIsLeast(market: Market, n: int, t: int)
    requires 0 <= n < t
    ensures n < Next(market, n) <= n + Reach(market) && Open(market, Next(market, n))
    ensures t == Next(market, n) <==> Open(market, t) && forall k :: n < k < t ==> !Open(market, k)
  {
    NextFacts(market, n);
    var next := Next(market, n);
    if t < next {
      assert !Open(market, t);
    } else if next < t {
      assert Open(market, next);
    }
  }

  /** On trading days, going forward and going back undo each other. */
  lemma NextAndPrevAreInverse(market: Market, n: int)
    requires 1 <= n && Open(market, n)
    ensures Prev(market, Next(market, n)) == Some(n)
    ensures Prev(market, n).Some? ==> Next(market, Prev(market, n).value) == n
  {
    var next := Next(market, n);
    NextIsLeast(market, n, next);
    var back := Prev(market, next);
    assert back.Some? by {
      assert Open(market, n);
    }
    assert back.value >= n;
    var prev := Prev(market, n);
    if prev.Some? {
      NextIsLeast(market, prev.value, n);
    }
  }

  // ---- All trading days of an interval ----

  function Between(market: Market, start: int, end: int): seq<int>
    requires 1 <= start
    decreases end - start
  {
    if end < start then []
    else Between(market, start, end - 1) + (if Open(market, end) then [end] else [])
  }

  lemma BetweenStep(market: Market, start: int, end: int)
    requires 1 <= start <= end
    ensures Open(market, end) ==> Between(market, start, end) == Between(market, start, end - 1) + [end]
    ensures !Open(market, end) ==> Between(market, start, end) == Between(market, start, end - 1)
  {
  }

  lemma {:induction false} BetweenMembers(market: Market, start: int, end: int, n: int)
    requires 1 <= start
    ensures n in Between(market, start, end) <==> start <= n <= end && Open(market, n)
    decreases end - start
  {
    if start <= end {
      BetweenMembers(market, start, end - 1, n);
      BetweenStep(market, start, end);
    }
  }

  /** Exactly the trading days of the interval, in ascending order. */
  lemma {:induction false} BetweenIsAscending(market: Market, start: int, end: int)
    requires 1 <= start
    ensures forall n :: n in Between(market, start, end) <==> start <= n <= end && Open(market, n)
    ensures forall i, j :: 0 <= i < j < |Between(market, start, end)| ==> Between(market, start, end)[i] < Between(market, start, end)[j]
    decreases end - start
  {
    forall n {
      BetweenMembers(market, start, end, n);
    }
    if start <= end {
      var front := Between(market, start, end - 1);
      BetweenIsAscending(market, start, end - 1);
      BetweenStep(market, start, end);
      forall i | 0 <= i < |front|
        ensures front[i] < end
      {
        assert front[i] in front;
      }
    }
  }

  /** Splitting the interval splits the list, so counts add up. */
  lemma {:induction false} BetweenSplits(market: Market, start: int, mid: int, end: int)
    requires 1 <= start <= mid + 1 <= end + 1
    ensures Between(market, start, end) == Between(market, start, mid) + Between(market, mid + 1, end)
    ensures |Between(market, start, end)| == |Between(market, start, mid)| + |Between(market, mid + 1, end)|
    decreases end - mid
  {
    if mid == end {
      assert Between(market, mid + 1, end) == [];
    } else {
      BetweenSplits(market, start, mid, end - 1);
      var last := if Open(market, end) then [end] else [];
      assert Between(market, start, mid) + (Between(market, mid + 1, end - 1) + last)
          == (Between(market, start, mid) + Between(market, mid + 1, end - 1)) + last;
    }
  }

  /** `Next` applied over and over, starting after n, as long as it stays up to `end`. */
  ghost function Iterated(market: Market, n: int, end: int): seq<int>
    requires 0 <= n
    decreases end - n
  {
    NextFacts(market, n);
    var t := Next(market, n);
    if end < t then [] else [t] + Iterated(market, t, end)
  }

  lemma BetweenFirst(market: Market, n: int, t: int, end: int)
    requires 0 <= n < t <= end && Open(market, t) && forall k :: n < k < t ==> !Open(market, k)
    ensures Between(market, n + 1, end) == [t] + Between(market, t + 1, end)
  {
    BetweenSplits(market, n + 1, t, end);
    NothingOpen(market, n + 1, t - 1);
    BetweenStep(market, n + 1, t);
  }

  /** Listing an interval gives the same days as stepping through it with `Next`. */
  lemma {:induction false} BetweenIsIteratedNext(market: Market, n: int, end: int)
    requires 0 <= n
    ensures Between(market, n + 1, end) == Iterated(market, n, end)
    decreases end - n
  {
    NextFacts(market, n);
    var t := Next(market, n);
    if end < t {
      NothingOpen(market, n + 1, end);
    } else {
      BetweenIsIteratedNext(market, t, end);
      BetweenFirst(market, n, t, end);
    }
  }

  lemma {:induction false} NothingOpen(market: Market, start: int, end: int)
    requires 1 <= start && forall k :: start <= k <= end ==> !Open(market, k)
    ensures Between(market, start, end) == []
    decreases end - start
  {
    if start <= end {
      NothingOpen(market, start, end - 1);
    }
  }

  // ---- The calendar object ----

  /** The calendar with its cache of NYSE holiday sets, filled year by year on demand. */
  class MarketCalendar {
    var nyseHolidayCache: map<int, set<int>>

    ghost predicate Valid()
      reads this
    {
      forall year :: year in nyseHolidayCache ==> nyseHolidayCache[year] == NyseHolidays(year)
    }

    constructor ()
      ensures Valid() && nyseHolidayCache == map[]
    {
      nyseHolidayCache := map[];
    }

    method GetNyseHolidaysCached(year: int) returns (holidays: set<int>)
      requires Valid()
      modifies this
      ensures Valid() && nyseHolidayCache == old(nyseHolidayCache)[year := holidays]
      ensures holidays == NyseHolidays(year)
    {
      if year !in nyseHolidayCache {
        nyseHolidayCache := nyseHolidayCache[year := NyseHolidays(year)];
      }
      holidays := nyseHolidayCache[year];
    }

    method IsTradingDay(n: int, market: Market) returns (open: bool)
      requires Valid() && 1 <= n
      modifies this
      ensures Valid() && open == Open(market, n)
    {
      if Weekday(n) >= 5 {
        return false;
      }
      if market.KRX? {
        return FromOrdinal(n) !in market.holidays;
      }
      var holidays := GetNyseHolidaysCached(YearOf(n));
      return n !in holidays;
    }

    method NextTradingDay(n: int, market: Market) returns (candidate: int)
      requires Valid() && 1 <= n
      modifies this
      ensures Valid() && candidate == Next(market, n) && candidate <= n + Reach(market)
    {
      NextIsLeast(market, n, n + 1);
      candidate := n + 1;
      var open := IsTradingDay(candidate, market);
      while !open
        invariant Valid() && n < candidate <= Next(market, n)
        invariant open == Open(market, candidate)
        invariant forall k :: n < k < candidate ==> !Open(market, k)
        decreases Next(market, n) - candidate
      {
        candidate := candidate + 1;
        open := IsTradingDay(candidate, market);
      }
      NextIsLeast(market, n, candidate);
    }

    /** None when the search runs off the first day of year 1, where the date type ends. */
    method PrevTradingDay(n: int, market: Market) returns (r: Option<int>)
      requires Valid() && 1 <= n
      modifies this
      ensures Valid() && r == Prev(market, n)
    {
      var candidate := n - 1;
      if candidate < 1 {
        return None;
      }
      var open := IsTradingDay(candidate, market);
      while !open
        invariant Valid() && 1 <= candidate < n
        invariant open == Open(market, candidate)
        invariant Prev(market, n) == Prev(market, candidate + 1)
        decreases candidate
      {
        candidate := candidate - 1;
        if candidate < 1 {
          return None;
        }
        open := IsTradingDay(candidate, market);
      }
      return Some(candidate);
    }

    method TradingDaysBetween(start: int, end: int, market: Market) returns (days: seq<int>)
      requires Valid() && 1 <= start
      modifies this
      ensures Valid() && days == Between(market, start, end)
    {
      days := [];
      var current := start;
      assert Between(market, start, start - 1) == [];
      while current <= end
        invariant Valid() && start <= current && (current <= end + 1 || current == start)
        invariant days == Between(market, start, current - 1)
        decreases end + 1 - current
      {
        BetweenStep(market, start, current);
        var open := IsTradingDay(current, market);
        if open {
          days := days + [current];
        }
        current := current + 1;
      }
    }

    /** The monthly report is due on trading days whose next trading day has another month. */
    method ShouldGenerateMonthly(n: int, holidays: set<Date>) returns (due: bool)
      requires Valid() && 1 <= n
      modifies this
      ensures Valid() && due == MonthlyReportDue(KRX(holidays), n)
    {
      var open := IsTradingDay(n, KRX(holidays));
      if !open {
        return false;
      }
      var next := NextTradingDay(n, KRX(holidays));
      due := FromOrdinal(next).month != FromOrdinal(n).month;
    }
  }

  // ---- The monthly report ----

  ghost predicate MonthlyReportDue(market: Market, n: int)
    requires 1 <= n
  {
    Open(market, n) && FromOrdinal(Next(market, n)).month != FromOrdinal(n).month
  }

  predicate SameMonth(a: int, b: int)
    requires 1 <= a && 1 <= b
  {
    FromOrdinal(a).year == FromOrdinal(b).year && FromOrdinal(a).month == FromOrdinal(b).month
  }

  /** Within 300 days, an equal month number means the same month of the same year. */
  lemma EqualMonthNumber(a: int, b: int)
    requires 1 <= a <= b <= a + 300
    ensures SameMonth(a, b) <==> FromOrdinal(a).month == FromOrdinal(b).month
  {
    OrdinalOfFromOrdinal(a);
    OrdinalOfFromOrdinal(b);
    var d1, d2 := FromOrdinal(a), FromOrdinal(b);
    OrdinalInYear(d1);
    OrdinalInYear(d2);
    if d1.month == d2.month && d1.year != d2.year {
      if d2.year < d1.year {
        YearsMonotone(d2.year, d1.year);
      } else {
        YearsMonotone(d1.year, d2.year);
        MonthTable(d1.year);
        MonthTable(d2.year);
      }
    }
  }

  /** Between two days of one month there are only days of that month. */
  lemma MonthsAreConvex(a: int, b: int, c: int)
    requires 1 <= a <= b <= c && SameMonth(a, c)
    ensures SameMonth(a, b)
  {
    OrdinalOfFromOrdinal(a);
    OrdinalOfFromOrdinal(b);
    OrdinalOfFromOrdinal(c);
    OrdinalOrder(FromOrdinal(b), FromOrdinal(a));
    OrdinalOrder(FromOrdinal(c), FromOrdinal(b));
  }

  ghost predicate LastOfMonth(market: Market, n: int)
    requires 1 <= n
  {
    Open(market, n) && forall k :: n < k && SameMonth(n, k) ==> !Open(market, k)
  }

  /** The turn to the next trading day shows in the month number, if it is one of the year. */
  ghost predicate TurnShows(market: Market, n: int)
    requires 1 <= n
  {
    FromOrdinal(Next(market, n)).year != FromOrdinal(n).year ==> FromOrdinal(Next(market, n)).month != FromOrdinal(n).month
  }

  lemma LastOfMonthByNext(market: Market, n: int)
    requires 1 <= n && Open(market, n)
    ensures LastOfMonth(market, n) <==> !SameMonth(n, Next(market, n))
  {
    NextFacts(market, n);
    var next := Next(market, n);
    forall k | n < k && SameMonth(n, k) && Open(market, k)
      ensures SameMonth(n, next)
    {
      MonthsAreConvex(n, next, k);
    }
  }

  /** On a trading day the report's test agrees with being the last trading day of the month
      exactly if the turn to the next trading day shows; the test compares month numbers. */
  lemma MonthlyReportOnLastTradingDay(market: Market, n: int)
    requires 1 <= n && Open(market, n)
    ensures (MonthlyReportDue(market, n) <==> LastOfMonth(market, n)) <==> TurnShows(market, n)
  {
    LastOfMonthByNext(market, n);
  }

  /** A next trading day within 300 days is near enough. */
  lemma ShortClosureShows(market: Market, n: int)
    requires 1 <= n && Next(market, n) <= n + 300
    ensures TurnShows(market, n)
  {
    NextFacts(market, n);
    EqualMonthNumber(n, Next(market, n));
  }

  /** The last trading day of the month of a trading day. */
  lemma {:induction false} LastTradingDayOfMonth(market: Market, n: int) returns (last: int)
    requires 1 <= n && Open(market, n)
    ensures n <= last && SameMonth(n, last) && Open(market, last)
    ensures forall k :: last < k && SameMonth(n, k) ==> !Open(market, k)
    decreases DaysBeforeYear(YearOf(n) + 1) - n
  {
    last := n;
    if k :| n < k && SameMonth(n, k) && Open(market, k) {
      SameMonthBounds(n, k);
      last := LastTradingDayOfMonth(market, k);
    }
  }

  lemma SameMonthBounds(n: int, k: int)
    requires 1 <= n && 1 <= k && SameMonth(n, k)
    ensures YearOf(n) == YearOf(k) && k <= DaysBeforeYear(YearOf(n) + 1)
  {
    OrdinalOfFromOrdinal(k);
    OrdinalInYear(FromOrdinal(k));
  }

  /** In a month with a trading day the report is due on its last trading day, exactly if the
      turn from that day shows, and on no other day. */
  lemma MonthlyReportOncePerMonth(market: Market, n: int) returns (last: int)
    requires 1 <= n && Open(market, n)
    ensures 1 <= last && SameMonth(n, last) && LastOfMonth(market, last)
    ensures forall k :: 1 <= k && SameMonth(n, k) && MonthlyReportDue(market, k) ==> k == last
    ensures MonthlyReportDue(market, last) <==> TurnShows(market, last)
  {
    last := LastTradingDayOfMonth(market, n);
    MonthlyReportOnLastTradingDay(market, last);
    forall k | 1 <= k && SameMonth(n, k) && MonthlyReportDue(market, k)
      ensures k == last
    {
      LastOfMonthByNext(market, k);
      assert LastOfMonth(market, k);
    }
  }

  /** With the shipped list, and on the NYSE, that is always so. */
  lemma ShippedMarketsReport(market: Market, n: int)
    requires market == NYSE || market == KRX(KR_HOLIDAYS)
    requires 1 <= n
    ensures MonthlyReportDue(market, n) <==> LastOfMonth(market, n)
  {
    if Open(market, n) {
      NextFacts(market, n);
      AtMostAsManyDates(KR_HOLIDAY_LIST);
      ShortClosureShows(market, n);
      MonthlyReportOnLastTradingDay(market, n);
    }
  }

  /** Closed between `n` and a day of the same month number in a later year, the exchange gets
      no report on `n`, the last trading day of its month. */
  lemma YearLongClosureMissesReport(n: int, m: int) returns (market: Market)
    requires 1 <= n < m && !IsWeekend(n) && !IsWeekend(m)
    requires FromOrdinal(n).month == FromOrdinal(m).month && FromOrdinal(n).year != FromOrdinal(m).year
    ensures LastOfMonth(market, n) && !MonthlyReportDue(market, n)
  {
    market := KRX(set d | n < d < m :: FromOrdinal(d));
    forall d | d == n || d == m
      ensures Open(market, d)
    {
      forall e | n < e < m
        ensures FromOrdinal(e) != FromOrdinal(d)
      {
        OrdinalOfFromOrdinal(d);
        OrdinalOfFromOrdinal(e);
      }
    }
    NextIsLeast(market, n, m);
    LastOfMonthByNext(market, n);
  }

  /** For one, a common year in which 2 January is a weekday, as in 2025: with a list closing
      the rest of that year, its 2 January gets none. */
  lemma ClosedYearMissesReport(year: int) returns (market: Market, n: int)
    requires 1 <= year && !IsLeap(year) && !IsWeekend(DayNumber(year, 1, 2))
    ensures 1 <= n && FromOrdinal(n) == Date(year, 1, 2)
    ensures LastOfMonth(market, n) && !MonthlyReportDue(market, n)
  {
    n := DayNumber(year, 1, 2);
    var m := DayNumber(year + 1, 1, 1);
    OrdinalInYear(Date(year, 1, 2));
    OrdinalInYear(Date(year + 1, 1, 1));
    FromOrdinalOfOrdinal(Date(year, 1, 2));
    FromOrdinalOfOrdinal(Date(year + 1, 1, 1));
    FiftyTwoWeeksLater(n);
    market := YearLongClosureMissesReport(n, m);
  }

  /** 2025 is such a year. */
  lemma SecondOfJanuary2025IsWeekday(year: int)
    requires year == 2025
    ensures !IsLeap(year) && !IsWeekend(DayNumber(year, 1, 2))
  {
    DaysBeforeYearClosedForm(year - 1);
    assert DayNumber(year, 1, 2) == 739253;
  }

  lemma FiftyTwoWeeksLater(n: int)
    ensures Weekday(n + 364) == Weekday(n)
  {
  }
}
