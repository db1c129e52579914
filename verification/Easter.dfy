/** The Easter computation of the market calendar against the rule it stands for.

    `CalculateEaster` is the closed form the calendar uses. The rule is stated without
    it: Easter is the first Sunday strictly after the Paschal full moon, and the full
    moon is read off the Gregorian epact (golden number, with the solar and the lunar
    equation of the century).
  */
module Easter {
  import opened CivilDates

  // ---- The closed form ----

  function MoonShift(year: int): int {
    var a := year % 19;
    var b := year / 100;
    var d := b / 4;
    var f := (b + 8) / 25;
    var g := (b - f + 1) / 3;
    (19 * a + b - d - g + 15) % 30
  }

  function SundayShift(year: int): int {
    var e := (year / 100) % 4;
    var c := year % 100;
    (32 + 2 * e + 2 * (c / 4) - MoonShift(year) - c % 4) % 7
  }

  /** Days from 22 March to Easter. */
  function EasterShift(year: int): int {
    var a := year % 19;
    var h := MoonShift(year);
    var l := SundayShift(year);
    var m := (a + 11 * h + 22 * l) / 451;
    h + l - 7 * m
  }

  function CalculateEaster(year: int): Date {
    var n := EasterShift(year) + 114;
    Date(year, n / 31, n % 31 + 1)
  }

  // ---- The rule ----

  function GoldenNumber(year: int): int { year % 19 + 1 }

  function Century(year: int): int { year / 100 + 1 }

  function SolarEquation(year: int): int { 3 * Century(year) / 4 - 12 }

  function LunarEquation(year: int): int { (8 * Century(year) + 5) / 25 - 5 }

  /** The age of the moon on 1 January, with the two exceptions of the Gregorian tables. */
  function Epact(year: int): int {
    var e := (11 * GoldenNumber(year) + 20 + LunarEquation(year) - SolarEquation(year)) % 30;
    if e == 24 || (e == 25 && GoldenNumber(year) > 11) then e + 1 else e
  }

  /** Day number of the first full moon on or after 21 March. */
  function PaschalFullMoon(year: int): int {
    var n := 44 - Epact(year);
    DayNumber(year, 3, if n < 21 then n + 30 else n)
  }

  predicate IsEasterSunday(year: int, n: int) {
    Weekday(n) == SUNDAY && PaschalFullMoon(year) < n <= PaschalFullMoon(year) + 7
  }

  // ---- The moon ----

  /** The correction of the closed form and the lunar equation agree on every century. */
  lemma LunarEquationClosedForm(b: int)
    ensures (b - (b + 8) / 25 + 1) / 3 == (8 * b + 13) / 25
  {
    var q, r := b / 25, b % 25;
    assert b == 25 * q + r;
    assert (b + 8) / 25 == q + (r + 8) / 25;
    assert (8 * b + 13) / 25 == 8 * q + (8 * r + 13) / 25;
    assert b - (b + 8) / 25 + 1 == 24 * q + (r - (r + 8) / 25 + 1);
  }

  lemma SolarEquationClosedForm(b: int)
    ensures 3 * (b + 1) / 4 == b - b / 4
  {
  }

  /** Two remainders by 30 that add up to 23 modulo 30. */
  lemma Complement30(x: int, y: int, q: int)
    requires x + y == 30 * q + 23
    ensures x % 30 == (if y % 30 <= 23 then 23 - y % 30 else 53 - y % 30)
  {
  }

  /** `h` counts from the full moon of 21 March; the epact's exceptions pull it back a day. */
  lemma MoonShiftIsEpact(year: int)
    ensures var h := MoonShift(year);
            0 <= h < 30
            && PaschalFullMoon(year)
               == DayNumber(year, 3, 21) + (if h == 29 || (h == 28 && year % 19 > 10) then h - 1 else h)
  {
    var a, b := year % 19, year / 100;
    LunarEquationClosedForm(b);
    SolarEquationClosedForm(b);
    var g := (8 * b + 13) / 25;
    var x := 19 * a + b - b / 4 - g + 15;
    var y := 11 * GoldenNumber(year) + 20 + LunarEquation(year) - SolarEquation(year);
    assert MoonShift(year) == x % 30;
    Complement30(x, y, a + 1);
  }

  // ---- The Sunday ----

  /** The quotients of a year by 4, 100 and 400 in terms of its century and year of century. */
  lemma YearQuotients(year: int)
    ensures year / 4 == 25 * (year / 100) + (year % 100) / 4
    ensures year / 400 == (year / 100) / 4
  {
  }

  /** 22 March counted back from the end of its year, where the leap day is settled. */
  lemma TwentySecondOfMarch(year: int)
    requires 1 <= year
    ensures DayNumber(year, 3, 22) == 365 * year + year / 4 - year / 100 + year / 400 - 284
  {
    MonthTable(year);
    DaysBeforeYearClosedForm(year);
  }

  lemma MultipleOfSeven(x: int, q: int)
    requires x == 7 * q
    ensures (x + 6) % 7 == 6
  {
  }

  /** Shifting 22 March by `h` and then by `l` always lands on a Sunday. */
  lemma SundayShiftLandsOnSunday(year: int)
    requires 1 <= year
    ensures var l := SundayShift(year);
            0 <= l < 7 && Weekday(DayNumber(year, 3, 22) + MoonShift(year) + l) == SUNDAY
  {
    var b, c := year / 100, year % 100;
    var d, e := b / 4, b % 4;
    var i, k := c / 4, c % 4;
    var h, l := MoonShift(year), SundayShift(year);
    var t := (32 + 2 * e + 2 * i - h - k) / 7;
    TwentySecondOfMarch(year);
    YearQuotients(year);
    MultipleOfSeven(DayNumber(year, 3, 22) + h + l, 5217 * b + 52 * c + 3 * d + e + i - t - 36);
  }

  /** The correction term is one exactly when the rule's Sunday falls a week earlier. */
  lemma WeekCorrection(a: int, h: int, l: int)
    requires 0 <= a < 19 && 0 <= h < 30 && 0 <= l < 7
    ensures (a + 11 * h + 22 * l) / 451 == (if l == 6 && (h == 29 || (h == 28 && a > 10)) then 1 else 0)
  {
  }

  /** Decoding month and day from the running number of the closed form. */
  lemma MonthAndDay(year: int, x: int)
    requires 1 <= year && 0 <= x < 35
    ensures var d := Date(year, (x + 114) / 31, (x + 114) % 31 + 1);
            Valid(d) && Ordinal(d) == DayNumber(year, 3, 22) + x && x <= 34
    ensures DayNumber(year, 4, 25) == DayNumber(year, 3, 22) + 34
  {
    MonthTable(year);
    assert (x + 114) / 31 == (if x < 10 then 3 else 4);
    assert (x + 114) % 31 + 1 == (if x < 10 then x + 22 else x - 9);
  }

  /** `sunday` is the Sunday in the week from the `h`-th day after 22 March on. Moving it
      back a week in the two exceptional cases gives the first Sunday after `moon`. */
  lemma FirstSundayAfter(march21: int, moon: int, a: int, h: int, l: int)
    requires 0 <= a < 19 && 0 <= h < 30 && 0 <= l < 7
    requires moon == march21 + (if h == 29 || (h == 28 && a > 10) then h - 1 else h)
    requires Weekday(march21 + 1 + h + l) == SUNDAY
    ensures var x := h + l - 7 * ((a + 11 * h + 22 * l) / 451);
            0 <= x < 35
            && Weekday(march21 + 1 + x) == SUNDAY
            && moon < march21 + 1 + x <= moon + 7
  {
    WeekCorrection(a, h, l);
  }

  lemma EasterShiftFindsSunday(year: int)
    requires 1 <= year
    ensures 0 <= EasterShift(year) < 35
    ensures IsEasterSunday(year, DayNumber(year, 3, 22) + EasterShift(year))
  {
    MoonShiftIsEpact(year);
    SundayShiftLandsOnSunday(year);
    var a, h, l := year % 19, MoonShift(year), SundayShift(year);
    FirstSundayAfter(DayNumber(year, 3, 21), PaschalFullMoon(year), a, h, l);
  }

  /** The closed form is the first Sunday strictly after the Paschal full moon, in every
      year, and its month and day always make a date from 22 March to 25 April. */
  lemma EasterIsFirstSundayAfterFullMoon(year: int)
    requires 1 <= year
    ensures Valid(CalculateEaster(year)) && CalculateEaster(year).year == year
    ensures Ordinal(CalculateEaster(year)) == DayNumber(year, 3, 22) + EasterShift(year)
    ensures IsEasterSunday(year, Ordinal(CalculateEaster(year)))
    ensures DayNumber(year, 3, 22) <= Ordinal(CalculateEaster(year)) <= DayNumber(year, 4, 25)
  {
    EasterShiftFindsSunday(year);
    MonthAndDay(year, EasterShift(year));
  }

  /** No other day of the year satisfies the rule. */
  lemma EasterSundayIsUnique(year: int, n: int)
    requires 1 <= year
    ensures IsEasterSunday(year, n) <==> n == Ordinal(CalculateEaster(year))
  {
    EasterIsFirstSundayAfterFullMoon(year);
    SundaysAWeekApart(PaschalFullMoon(year), n, Ordinal(CalculateEaster(year)));
  }

  lemma SundaysAWeekApart(moon: int, n: int, e: int)
    requires Weekday(e) == SUNDAY && moon < e <= moon + 7
    ensures Weekday(n) == SUNDAY && moon < n <= moon + 7 <==> n == e
  {
  }
}
