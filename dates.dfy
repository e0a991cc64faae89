/**
 * The Gregorian-to-Hijri converter and the two date formatters.
 *
 * The converter is arithmetic, not an observational calendar: a Gregorian
 * date becomes a Julian Day Number (JDN), the Hijri year is estimated from a
 * mean lunar year of 354.36708 days counted from the epoch JDN 1948439.5,
 * and the months of that year are walked with lengths 30, 29, 30, ... and a
 * 30-day twelfth month in the years of the 30-year tabular leap cycle.
 *
 * The two fractional constants are kept exact: 354.36708 = 35436708 / 100000
 * and 1948439.5 = 3896879 / 2. Dafny's `/` on `int` rounds towards minus
 * infinity when the divisor is positive, as `Math.floor` of the quotient does.
 */
module Dates {
  import opened Base
  import opened JsText

  datatype GregorianDate = GregorianDate(year: int, month: int, day: int)
  datatype HijriDate = HijriDate(year: int, month: int, day: int)

  /** The pair `formatDate` returns. */
  datatype DateInfo = DateInfo(hijri: string, gregorian: string)

  // ---------------------------------------------------------------------------
  // Month-name tables

  const HijriMonthsAr: seq<string> := [
    "محرم", "صفر", "ربيع الأول", "ربيع الثاني", "جمادى الأولى", "جمادى الثانية",
    "رجب", "شعبان", "رمضان", "شوال", "ذو القعدة", "ذو الحجة"
  ]

  const HijriMonthsEn: seq<string> := [
    "Muharram", "Safar", "Rabi' al-awwal", "Rabi' al-thani", "Jumada al-awwal", "Jumada al-thani",
    "Rajab", "Sha'ban", "Ramadan", "Shawwal", "Dhu al-Qi'dah", "Dhu al-Hijjah"
  ]

  const HijriMonthsFr: seq<string> := [
    "Mouharram", "Safar", "Rabi al-awwal", "Rabi al-thani", "Joumada al-awwal", "Joumada al-thani",
    "Rajab", "Chaaban", "Ramadan", "Chawwal", "Dhou al-qi'dah", "Dhou al-hijjah"
  ]

  // ---------------------------------------------------------------------------
  // Gregorian calendar and Julian Day Numbers

  predicate IsGregorianLeapYear(year: int) {
    year % 4 == 0 && (year % 100 != 0 || year % 400 == 0)
  }

  function DaysInGregorianMonth(year: int, month: int): int {
    if month == 2 then (if IsGregorianLeapYear(year) then 29 else 28)
    else if month == 4 || month == 6 || month == 9 || month == 11 then 30
    else 31
  }

  /** A date a JavaScript `Date` can denote: a real month and a real day of it. */
  predicate ValidGregorian(d: GregorianDate) {
    1 <= d.month <= 12 && 1 <= d.day <= DaysInGregorianMonth(d.year, d.month)
  }

  /** The calendar day after `d`. */
  function NextDay(d: GregorianDate): GregorianDate {
    if d.day < DaysInGregorianMonth(d.year, d.month) then GregorianDate(d.year, d.month, d.day + 1)
    else if d.month < 12 then GregorianDate(d.year, d.month + 1, 1)
    else GregorianDate(d.year + 1, 1, 1)
  }

  /** `gregorianToJulianDay`: the usual integer formula, March-based year. */
  function GregorianToJulianDay(date: GregorianDate): int {
    var a := (14 - date.month) / 12;
    var y := date.year + 4800 - a;
    var m := date.month + 12 * a - 3;
    date.day + (153 * m + 2) / 5 + 365 * y + y / 4 - y / 100 + y / 400 - 32045
  }

  /** 1 January 2000 is JDN 2451545. */
  lemma JulianDayOfJanuary2000()
    ensures GregorianToJulianDay(GregorianDate(2000, 1, 1)) == 2451545
  {
  }

  /** Days from 1 March to the first of `month`: the month term of the formula. */
  function MarchOffset(month: int): int
    requires 1 <= month <= 12
  {
    [306, 337, 0, 31, 61, 92, 122, 153, 184, 214, 245, 275][month - 1]
  }

  /** Days before 1 March of the March-based year `y`, counted from the formula's origin. */
  function YearTerm(y: int): int {
    365 * y + y / 4 - y / 100 + y / 400
  }

  lemma JulianDayByMonth(d: GregorianDate)
    requires 1 <= d.month <= 12
    ensures GregorianToJulianDay(d)
         == d.day + MarchOffset(d.month) + YearTerm(d.year + 4800 - (if d.month <= 2 then 1 else 0)) - 32045
  {
    var m := d.month;
    if m == 1 { assert (14 - m) / 12 == 1 && (153 * 10 + 2) / 5 == 306; }
    else if m == 2 { assert (14 - m) / 12 == 1 && (153 * 11 + 2) / 5 == 337; }
    else if m == 3 { assert (14 - m) / 12 == 0 && (153 * 0 + 2) / 5 == 0; }
    else if m == 4 { assert (14 - m) / 12 == 0 && (153 * 1 + 2) / 5 == 31; }
    else if m == 5 { assert (14 - m) / 12 == 0 && (153 * 2 + 2) / 5 == 61; }
    else if m == 6 { assert (14 - m) / 12 == 0 && (153 * 3 + 2) / 5 == 92; }
    else if m == 7 { assert (14 - m) / 12 == 0 && (153 * 4 + 2) / 5 == 122; }
    else if m == 8 { assert (14 - m) / 12 == 0 && (153 * 5 + 2) / 5 == 153; }
    else if m == 9 { assert (14 - m) / 12 == 0 && (153 * 6 + 2) / 5 == 184; }
    else if m == 10 { assert (14 - m) / 12 == 0 && (153 * 7 + 2) / 5 == 214; }
    else if m == 11 { assert (14 - m) / 12 == 0 && (153 * 8 + 2) / 5 == 245; }
    else { assert (14 - m) / 12 == 0 && (153 * 9 + 2) / 5 == 275; }
  }

  /** A March-based year has 366 days exactly when the following February is a leap month. */
  lemma YearTermStep(year: int)
    ensures YearTerm(year + 4800) - YearTerm(year + 4799) == if IsGregorianLeapYear(year) then 366 else 365
  {
    var y := year + 4799;
    assert (y + 1) % 4 == year % 4 && (y + 1) % 100 == year % 100 && (y + 1) % 400 == year % 400;
    if (y + 1) % 4 == 0 { assert (y + 1) / 4 == y / 4 + 1; } else { assert (y + 1) / 4 == y / 4; }
    if (y + 1) % 100 == 0 { assert (y + 1) / 100 == y / 100 + 1; } else { assert (y + 1) / 100 == y / 100; }
    if (y + 1) % 400 == 0 { assert (y + 1) / 400 == y / 400 + 1; } else { assert (y + 1) / 400 == y / 400; }
  }

  /** Consecutive calendar days have consecutive Julian Day Numbers. */
  lemma NextDayIsNextJulianDay(d: GregorianDate)
    requires ValidGregorian(d)
    ensures ValidGregorian(NextDay(d))
    ensures GregorianToJulianDay(NextDay(d)) == GregorianToJulianDay(d) + 1
  {
    JulianDayByMonth(d);
    JulianDayByMonth(NextDay(d));
    NextDayByParts(d);
  }

  /** The day, month and year terms of the formula add up to one more on the next day. */
  lemma NextDayByParts(d: GregorianDate)
    requires ValidGregorian(d)
    ensures ValidGregorian(NextDay(d))
    ensures var n := NextDay(d);
            n.day + MarchOffset(n.month) + YearTerm(n.year + 4800 - (if n.month <= 2 then 1 else 0))
            == d.day + MarchOffset(d.month) + YearTerm(d.year + 4800 - (if d.month <= 2 then 1 else 0)) + 1
  {
    if d.day < DaysInGregorianMonth(d.year, d.month) {
    } else if d.month == 2 {
      YearTermStep(d.year);
    } else if d.month < 12 {
      MarchOffsetStep(d.year, d.month);
    }
  }

  /** Outside February, the month term grows by the length of the month just ended. */
  lemma MarchOffsetStep(year: int, month: int)
    requires 1 <= month <= 11 && month != 2
    ensures MarchOffset(month + 1) == MarchOffset(month) + DaysInGregorianMonth(year, month)
  {
  }

  // ---------------------------------------------------------------------------
  // Hijri years

  /** `hijriYearToJulianDay`: floor((hijriYear - 1) * 354.36708 + 1948439.5). */
  function HijriYearToJulianDay(hijriYear: int): int {
    ((hijriYear - 1) * 35436708 + 194843950000) / 100000
  }

  /** The number of days the arithmetic gives Hijri year `y`. */
  function YearLength(y: int): int {
    HijriYearToJulianDay(y + 1) - HijriYearToJulianDay(y)
  }

  lemma HijriYearOneStarts()
    ensures HijriYearToJulianDay(1) == 1948439
  {
  }

  /** Successive year starts are 354 or 355 days apart. */
  lemma YearLengthBounds(y: int)
    ensures 354 <= YearLength(y) <= 355
  {
    var n := (y - 1) * 35436708 + 194843950000;
    var q := n / 100000;
    var q' := (n + 35436708) / 100000;
    assert (y + 1 - 1) * 35436708 + 194843950000 == n + 35436708;
    assert q * 100000 <= n < q * 100000 + 100000;
    assert q' * 100000 <= n + 35436708 < q' * 100000 + 100000;
  }

  /** The year starts strictly increase. */
  lemma {:induction false} HijriYearStartsIncrease(y1: int, y2: int)
    requires y1 < y2
    ensures HijriYearToJulianDay(y1) < HijriYearToJulianDay(y2)
    decreases y2 - y1
  {
    YearLengthBounds(y2 - 1);
    if y1 < y2 - 1 {
      HijriYearStartsIncrease(y1, y2 - 1);
    }
  }

  /** JavaScript's `%`: the remainder takes the sign of the dividend. */
  function JsRem(a: int, n: int): (r: int)
    requires n > 0
    ensures -n < r < n
    ensures a >= 0 ==> r == a % n
  {
    if a >= 0 then a % n else -((-a) % n)
  }

  /** `isHijriLeapYear`: the 30-year tabular rule (11y + 14) mod 30 < 11. */
  predicate IsHijriLeapYear(hijriYear: int) {
    JsRem(hijriYear * 11 + 14, 30) < 11
  }

  lemma YearTwoIsLeap()
    ensures IsHijriLeapYear(2)
  {
  }

  /** How many of the `count` years from `start` on are leap years. */
  function LeapYearsIn(start: int, count: nat): nat
    decreases count
  {
    if count == 0 then 0
    else LeapYearsIn(start, count - 1) + (if IsHijriLeapYear(start + count - 1) then 1 else 0)
  }

  lemma {:induction false} LeapYearsInFirst(start: int, count: nat)
    ensures LeapYearsIn(start, count + 1)
         == (if IsHijriLeapYear(start) then 1 else 0) + LeapYearsIn(start + 1, count)
    decreases count
  {
    if count > 0 {
      LeapYearsInFirst(start, count - 1);
    }
  }

  /** The leap rule repeats every 30 years. */
  lemma LeapRuleRepeats(y: int)
    requires y >= 1
    ensures IsHijriLeapYear(y + 30) == IsHijriLeapYear(y)
  {
    var a := y * 11 + 14;
    assert (y + 30) * 11 + 14 == a + 330;
    assert (a + 330) % 30 == a % 30;
  }

  lemma {:induction false} LeapYearsInSplit(start: int, a: nat, b: nat)
    ensures LeapYearsIn(start, a + b) == LeapYearsIn(start, a) + LeapYearsIn(start + a, b)
    decreases b
  {
    if b > 0 {
      LeapYearsInSplit(start, a, b - 1);
    }
  }

  lemma LeapYearsFrom1()
    ensures LeapYearsIn(1, 10) == 4
  {
  }

  lemma LeapYearsFrom11()
    ensures LeapYearsIn(11, 10) == 3
  {
  }

  lemma LeapYearsFrom21()
    ensures LeapYearsIn(21, 10) == 4
  {
  }

  lemma LeapYearsInFirstCycle()
    ensures LeapYearsIn(1, 30) == 11
  {
    LeapYearsFrom1();
    LeapYearsFrom11();
    LeapYearsFrom21();
    LeapYearsInSplit(1, 10, 10);
    LeapYearsInSplit(1, 20, 10);
  }

  /** Exactly 11 of any 30 consecutive years from year 1 on are leap years. */
  lemma {:induction false} ElevenLeapYearsPerCycle(start: int)
    requires start >= 1
    ensures LeapYearsIn(start, 30) == 11
    decreases start
  {
    if start == 1 {
      LeapYearsInFirstCycle();
    } else {
      ElevenLeapYearsPerCycle(start - 1);
      LeapYearsInFirst(start - 1, 30);
      LeapRuleRepeats(start - 1);
    }
  }

  // ---------------------------------------------------------------------------
  // The month walk

  /** The month length the loop of `gregorianToHijri` uses for month `m` of year `y`. */
  function MonthLength(y: int, m: int): (len: int)
    ensures 29 <= len <= 30
  {
    if m == 12 && IsHijriLeapYear(y) then 30 else if m % 2 == 1 then 30 else 29
  }

  /** Days of year `y` before month `m` begins. */
  function DaysBeforeMonth(y: int, m: int): int
    decreases m
  {
    if m <= 1 then 0 else DaysBeforeMonth(y, m - 1) + MonthLength(y, m - 1)
  }

  lemma {:induction false} DaysBeforeMonthClosedForm(y: int, m: int)
    requires 1 <= m <= 12
    ensures DaysBeforeMonth(y, m) == 29 * (m - 1) + m / 2
    decreases m
  {
    if m > 1 {
      DaysBeforeMonthClosedForm(y, m - 1);
    }
  }

  /** The twelve months fill 354 days, or 355 in a leap year. */
  lemma MonthsFillYear(y: int)
    ensures DaysBeforeMonth(y, 12) == 325
    ensures DaysBeforeMonth(y, 13) == if IsHijriLeapYear(y) then 355 else 354
  {
    DaysBeforeMonthClosedForm(y, 12);
  }

  lemma {:induction false} DaysBeforeMonthIncreases(y: int, m: int, k: int)
    requires 1 <= m <= k
    ensures DaysBeforeMonth(y, m) + 29 * (k - m) <= DaysBeforeMonth(y, k)
    decreases k - m
  {
    if m < k {
      DaysBeforeMonthIncreases(y, m, k - 1);
    }
  }

  /**
   * The loop at dates.ts lines 50-59 as a function: from month `m` with `d`
   * days left, subtract whole months while at least one fits.
   * The result is (month, day).
   */
  function MonthWalk(y: int, m: int, d: int): (int, int)
    decreases d
  {
    if d >= MonthLength(y, m) then MonthWalk(y, m + 1, d - MonthLength(y, m)) else (m, d + 1)
  }

  /** The walk lands on a day of a month, and that day is `d` days after month `m` began. */
  lemma {:induction false} MonthWalkAccounts(y: int, m: int, d: int)
    requires m >= 1 && d >= 0
    ensures MonthWalk(y, m, d).0 >= m
    ensures 1 <= MonthWalk(y, m, d).1 <= MonthLength(y, MonthWalk(y, m, d).0)
    ensures DaysBeforeMonth(y, MonthWalk(y, m, d).0) + MonthWalk(y, m, d).1 - 1 == DaysBeforeMonth(y, m) + d
    decreases d
  {
    if d >= MonthLength(y, m) {
      MonthWalkAccounts(y, m + 1, d - MonthLength(y, m));
    }
  }

  /** The walk reaches month `k` exactly when month `k` has begun by day `d`. */
  lemma {:induction false} MonthWalkReaches(y: int, m: int, d: int, k: int)
    requires 1 <= m <= k && d >= 0
    ensures MonthWalk(y, m, d).0 >= k <==> DaysBeforeMonth(y, m) + d >= DaysBeforeMonth(y, k)
    decreases d
  {
    var w := MonthWalk(y, m, d);
    MonthWalkAccounts(y, m, d);
    if w.0 >= k {
      DaysBeforeMonthIncreases(y, k, w.0);
    } else {
      DaysBeforeMonthIncreases(y, w.0 + 1, k);
    }
  }

  // ---------------------------------------------------------------------------
  // gregorianToHijri

  /** The year estimate floor((jd - 1948439.5) / 354.36708) + 1, in exact arithmetic. */
  function EstimateHijriYear(jd: int): int {
    ((2 * jd - 3896879) * 50000) / 35436708 + 1
  }

  /** The estimate brackets `jd`: its year starts on or before `jd`, the next year on or after it. */
  lemma EstimateBrackets(jd: int)
    ensures HijriYearToJulianDay(EstimateHijriYear(jd)) <= jd
    ensures jd <= HijriYearToJulianDay(EstimateHijriYear(jd) + 1)
  {
    var x := (2 * jd - 3896879) * 50000;
    var q := x / 35436708;
    assert q * 35436708 <= x < q * 35436708 + 35436708;
    assert x == 100000 * jd - 194843950000;
    var lo := q * 35436708 + 194843950000;
    assert HijriYearToJulianDay(q + 1) == lo / 100000;
    assert lo <= 100000 * jd;
    assert HijriYearToJulianDay(q + 2) == (lo + 35436708) / 100000;
    assert lo + 35436708 > 100000 * jd;
  }

  /** The days of the estimated year before `jd`, and the dead correction of lines 41-44. */
  function YearAndDaysInto(jd: int): (int, int) {
    var y := EstimateHijriYear(jd);
    var d := jd - HijriYearToJulianDay(y);
    if d < 0 then (y - 1, jd - HijriYearToJulianDay(y - 1)) else (y, d)
  }

  /**
   * After the estimate, 0 <= daysIntoYear <= the year's length (at most 355),
   * so the decrement branch never fires in exact arithmetic.
   */
  lemma DaysIntoYearBounds(jd: int)
    ensures jd - HijriYearToJulianDay(EstimateHijriYear(jd)) >= 0
    ensures YearAndDaysInto(jd) == (EstimateHijriYear(jd), jd - HijriYearToJulianDay(EstimateHijriYear(jd)))
    ensures 0 <= YearAndDaysInto(jd).1 <= YearLength(YearAndDaysInto(jd).0) <= 355
  {
    EstimateBrackets(jd);
    YearLengthBounds(EstimateHijriYear(jd));
  }

  /** `gregorianToHijri` after its first line, as a function of the JDN. */
  function HijriOf(jd: int): HijriDate {
    var yd := YearAndDaysInto(jd);
    var w := MonthWalk(yd.0, 1, yd.1);
    HijriDate(yd.0, w.0, w.1)
  }

  /** The JDN a Hijri date denotes under the same arithmetic: year start plus days in. */
  function HijriToJulianDay(h: HijriDate): int {
    HijriYearToJulianDay(h.year) + DaysBeforeMonth(h.year, h.month) + h.day - 1
  }

  /**
   * What `gregorianToHijri` guarantees: month >= 1, 1 <= day <= 30, the month
   * is at most 13 (not 12), and the date denotes exactly the day converted.
   */
  lemma HijriOfProperties(jd: int)
    ensures 1 <= HijriOf(jd).month <= 13
    ensures 1 <= HijriOf(jd).day <= 30
    ensures HijriToJulianDay(HijriOf(jd)) == jd
    ensures HijriOf(jd).year == EstimateHijriYear(jd)
  {
    DaysIntoYearBounds(jd);
    var yd := YearAndDaysInto(jd);
    MonthWalkAccounts(yd.0, 1, yd.1);
    MonthWalkReaches(yd.0, 1, yd.1, 14);
    MonthsFillYear(yd.0);
  }

  /** The walk overruns into a thirteenth month exactly when the days left exceed the twelve months. */
  lemma MonthThirteenExactly(jd: int)
    ensures HijriOf(jd).month == 13
        <==> YearAndDaysInto(jd).1 >= DaysBeforeMonth(YearAndDaysInto(jd).0, 13)
  {
    DaysIntoYearBounds(jd);
    var yd := YearAndDaysInto(jd);
    HijriOfProperties(jd);
    MonthWalkReaches(yd.0, 1, yd.1, 13);
  }

  /**
   * `gregorianToHijri`: converts, estimates the year, applies the (dead)
   * correction and walks the months in a loop.
   */
  method GregorianToHijri(date: GregorianDate) returns (h: HijriDate)
    ensures h == HijriOf(GregorianToJulianDay(date))
    ensures HijriToJulianDay(h) == GregorianToJulianDay(date)
    ensures 1 <= h.month <= 13 && 1 <= h.day <= 30
  {
    var julianDay := GregorianToJulianDay(date);
    var hijriYear := EstimateHijriYear(julianDay);
    var daysIntoYear := julianDay - HijriYearToJulianDay(hijriYear);
    if daysIntoYear < 0 {
      hijriYear := hijriYear - 1;
      daysIntoYear := julianDay - HijriYearToJulianDay(hijriYear);
    }
    ghost var start := daysIntoYear;
    var hijriMonth := 1;
    var daysInMonth := 30;
    while daysIntoYear >= daysInMonth
      invariant daysInMonth == MonthLength(hijriYear, hijriMonth)
      invariant MonthWalk(hijriYear, hijriMonth, daysIntoYear) == MonthWalk(hijriYear, 1, start)
      decreases daysIntoYear
    {
      daysIntoYear := daysIntoYear - daysInMonth;
      hijriMonth := hijriMonth + 1;
      daysInMonth := if hijriMonth % 2 == 1 then 30 else 29;
      if hijriMonth == 12 && IsHijriLeapYear(hijriYear) {
        daysInMonth := 30;
      }
    }
    h := HijriDate(hijriYear, hijriMonth, daysIntoYear + 1);
    HijriOfProperties(julianDay);
  }

  // ---------------------------------------------------------------------------
  // The year-start defect and its correction

  /** `y * 354.36708 + 1948439.5` is a whole number, so floor loses nothing at the start of year y + 1. */
  predicate YearStartIsExact(y: int) {
    (y * 35436708 + 194843950000) % 100000 == 0
  }

  /**
   * As written, the first day of year y + 1 is converted into year y,
   * `daysIntoYear` being the whole length of year y (unless that year start is
   * an exact whole number, which happens once every 25000 years).
   */
  lemma YearStartAssignedToPreviousYear(y: int)
    requires !YearStartIsExact(y)
    ensures HijriOf(HijriYearToJulianDay(y + 1)).year == y
    ensures YearAndDaysInto(HijriYearToJulianDay(y + 1)).1 == YearLength(y)
  {
    var jd := HijriYearToJulianDay(y + 1);
    YearStartBelow(y);
    EstimateAtMost(jd, y);
    var e := EstimateHijriYear(jd);
    EstimateBrackets(jd);
    DaysIntoYearBounds(jd);
    HijriOfProperties(jd);
    if e < y {
      HijriYearStartsIncrease(e + 1, y + 1);
    }
  }

  /** Unless it is exact, the floor taken for the start of year y + 1 lies strictly below the real value. */
  lemma YearStartBelow(y: int)
    requires !YearStartIsExact(y)
    ensures 100000 * HijriYearToJulianDay(y + 1) < y * 35436708 + 194843950000
  {
    assert (y + 1 - 1) * 35436708 + 194843950000 == y * 35436708 + 194843950000;
  }

  /** A day strictly before the real start of year y + 1 is estimated to lie in year y or earlier. */
  lemma EstimateAtMost(jd: int, y: int)
    requires 100000 * jd < y * 35436708 + 194843950000
    ensures EstimateHijriYear(jd) <= y
  {
    var x := (2 * jd - 3896879) * 50000;
    assert x == 100000 * jd - 194843950000;
    assert x < y * 35436708;
    assert x / 35436708 < y;
  }

  /** Worked example: JDN 1948793, the start of year 2, converts to year 1, month 13, day 1. */
  lemma MonthThirteenExample()
    ensures GregorianToJulianDay(GregorianDate(623, 7, 7)) == 1948793
    ensures HijriOf(1948793) == HijriDate(1, 13, 1)
  {
    assert GregorianToJulianDay(GregorianDate(623, 7, 7)) == 1948793;
    assert EstimateHijriYear(1948793) == 1;
    assert YearAndDaysInto(1948793) == (1, 354);
    assert JsRem(1 * 11 + 14, 30) == 25;
    MonthsFillYear(1);
    FullYearWalk(1, 354);
  }

  /** Walking a whole year's days from month 1 ends on day 1 of month 13. */
  lemma FullYearWalk(y: int, d: int)
    requires d == DaysBeforeMonth(y, 13)
    ensures MonthWalk(y, 1, d) == (13, 1)
  {
    MonthsFillYear(y);
    MonthWalkReaches(y, 1, d, 13);
    MonthWalkAccounts(y, 1, d);
    var w := MonthWalk(y, 1, d);
    if w.0 >= 14 {
      DaysBeforeMonthIncreases(y, 13, w.0);
    }
  }

  /** Days past the first eleven months but short of the twelve months' total land in month 12. */
  lemma WalkIntoLastMonth(y: int, d: int)
    requires DaysBeforeMonth(y, 12) <= d < DaysBeforeMonth(y, 13)
    ensures MonthWalk(y, 1, d) == (12, d - DaysBeforeMonth(y, 12) + 1)
  {
    MonthsFillYear(y);
    MonthWalkReaches(y, 1, d, 12);
    MonthWalkReaches(y, 1, d, 13);
    MonthWalkAccounts(y, 1, d);
  }

  /**
   * The leap rule and the mean-year length disagree in AH 15: the year has
   * 355 days between its start and the next, but is not a leap year, so its
   * twelve months hold only 354 and its last day falls into month 13.
   */
  lemma MonthThirteenMidYear()
    ensures HijriYearToJulianDay(15) == 1953400 && HijriYearToJulianDay(16) == 1953755
    ensures YearLength(15) == 355 && !IsHijriLeapYear(15)
    ensures YearAndDaysInto(1953754) == (15, 354)
    ensures HijriOf(1953754) == HijriDate(15, 13, 1)
  {
    assert EstimateHijriYear(1953754) == 15;
    assert JsRem(15 * 11 + 14, 30) == 29;
    MonthsFillYear(15);
    FullYearWalk(15, 354);
  }

  /**
   * The other way round in AH 16: a leap year whose twelve months hold 355
   * days, while only 354 lie between its start and the next. The first day
   * of AH 17 is then day 30 of month 12 of AH 16, not month 13.
   */
  lemma YearStartOutsideMonthThirteen()
    ensures HijriYearToJulianDay(16) == 1953755 && HijriYearToJulianDay(17) == 1954109
    ensures YearLength(16) == 354 && IsHijriLeapYear(16)
    ensures YearAndDaysInto(1954109) == (16, 354)
    ensures HijriOf(1954109) == HijriDate(16, 12, 30)
  {
    assert EstimateHijriYear(1954109) == 16;
    assert JsRem(16 * 11 + 14, 30) == 10;
    MonthsFillYear(16);
    WalkIntoLastMonth(16, 354);
  }

  /**
   * The walk the source evidently intends: month 12 takes whatever days are
   * left, so the month never passes 12.
   */
  function CappedMonthWalk(y: int, m: int, d: int): (int, int)
    decreases d
  {
    if m < 12 && d >= MonthLength(y, m) then CappedMonthWalk(y, m + 1, d - MonthLength(y, m)) else (m, d + 1)
  }

  /** The year containing `jd` when every year is the half-open range [start, next start). */
  function CorrectedYear(jd: int): int {
    var e := EstimateHijriYear(jd);
    if jd >= HijriYearToJulianDay(e + 1) then e + 1 else e
  }

  /** The corrected conversion: half-open years and a month walk capped at 12. */
  function HijriOfCorrected(jd: int): HijriDate {
    var y := CorrectedYear(jd);
    var w := CappedMonthWalk(y, 1, jd - HijriYearToJulianDay(y));
    HijriDate(y, w.0, w.1)
  }

  /** A date the corrected conversion can produce: month 1..12, month 12 ending with the year. */
  predicate ValidHijri(h: HijriDate) {
    && 1 <= h.month <= 12 && 1 <= h.day
    && (h.month < 12 ==> h.day <= MonthLength(h.year, h.month))
    && (h.month == 12 ==> DaysBeforeMonth(h.year, 12) + h.day <= YearLength(h.year))
  }

  lemma CorrectedYearContains(jd: int)
    ensures HijriYearToJulianDay(CorrectedYear(jd)) <= jd < HijriYearToJulianDay(CorrectedYear(jd) + 1)
  {
    EstimateBrackets(jd);
    var e := EstimateHijriYear(jd);
    if jd >= HijriYearToJulianDay(e + 1) {
      YearLengthBounds(e + 1);
    }
  }

  /** Only one year contains a given JDN. */
  lemma YearContainingIsUnique(jd: int, y1: int, y2: int)
    requires HijriYearToJulianDay(y1) <= jd < HijriYearToJulianDay(y1 + 1)
    requires HijriYearToJulianDay(y2) <= jd < HijriYearToJulianDay(y2 + 1)
    ensures y1 == y2
  {
    if y1 < y2 {
      if y1 + 1 < y2 { HijriYearStartsIncrease(y1 + 1, y2); }
    } else if y2 < y1 {
      if y2 + 1 < y1 { HijriYearStartsIncrease(y2 + 1, y1); }
    }
  }

  lemma {:induction false} CappedMonthWalkAccounts(y: int, m: int, d: int)
    requires 1 <= m <= 12 && d >= 0
    requires DaysBeforeMonth(y, m) + d < YearLength(y)
    ensures ValidHijri(HijriDate(y, CappedMonthWalk(y, m, d).0, CappedMonthWalk(y, m, d).1))
    ensures CappedMonthWalk(y, m, d).0 >= m
    ensures DaysBeforeMonth(y, CappedMonthWalk(y, m, d).0) + CappedMonthWalk(y, m, d).1 - 1 == DaysBeforeMonth(y, m) + d
    decreases d
  {
    if m < 12 && d >= MonthLength(y, m) {
      CappedMonthWalkAccounts(y, m + 1, d - MonthLength(y, m));
    }
  }

  /** Corrected conversion: a valid date with month 1..12 and day 1..30 that denotes `jd`. */
  lemma CorrectedIsValid(jd: int)
    ensures ValidHijri(HijriOfCorrected(jd))
    ensures 1 <= HijriOfCorrected(jd).month <= 12 && 1 <= HijriOfCorrected(jd).day <= 30
    ensures HijriToJulianDay(HijriOfCorrected(jd)) == jd
  {
    var y := CorrectedYear(jd);
    CorrectedYearContains(jd);
    YearLengthBounds(y);
    CappedMonthWalkAccounts(y, 1, jd - HijriYearToJulianDay(y));
    MonthsFillYear(y);
  }

  /**
   * Walking from month k the days that lie before `day` of month `month`
   * lands on exactly that month and day.
   */
  lemma {:induction false} CappedMonthWalkInverse(y: int, k: int, month: int, day: int)
    requires 1 <= k <= month <= 12 && 1 <= day
    requires month < 12 ==> day <= MonthLength(y, month)
    ensures CappedMonthWalk(y, k, DaysBeforeMonth(y, month) - DaysBeforeMonth(y, k) + day - 1) == (month, day)
    decreases month - k
  {
    if k < month {
      var d := DaysBeforeMonth(y, month) - DaysBeforeMonth(y, k) + day - 1;
      DaysBeforeMonthIncreases(y, k + 1, month);
      assert DaysBeforeMonth(y, k + 1) == DaysBeforeMonth(y, k) + MonthLength(y, k);
      assert d - MonthLength(y, k) == DaysBeforeMonth(y, month) - DaysBeforeMonth(y, k + 1) + day - 1;
      CappedMonthWalkInverse(y, k + 1, month, day);
    }
  }

  /** Corrected conversion, other direction: every valid Hijri date comes back unchanged. */
  lemma CorrectedRoundTrip(h: HijriDate)
    requires ValidHijri(h)
    ensures HijriOfCorrected(HijriToJulianDay(h)) == h
  {
    var jd := HijriToJulianDay(h);
    var y := h.year;
    ValidHijriInItsYear(h);
    CorrectedYearContains(jd);
    YearContainingIsUnique(jd, y, CorrectedYear(jd));
    assert DaysBeforeMonth(y, 1) == 0;
    assert jd - HijriYearToJulianDay(y) == DaysBeforeMonth(y, h.month) - DaysBeforeMonth(y, 1) + h.day - 1;
    CappedMonthWalkInverse(y, 1, h.month, h.day);
  }

  /**
   * The corrected conversion lets month 12 run to the next year start, so the
   * leap rule no longer fixes its length: AH 15, not a leap year, ends on 12/30.
   */
  lemma CorrectedNonLeapYearEndsOnThirty()
    ensures !IsHijriLeapYear(15) && MonthLength(15, 12) == 29
    ensures HijriYearToJulianDay(16) == 1953754 + 1
    ensures HijriOfCorrected(1953754) == HijriDate(15, 12, 30)
  {
    assert JsRem(15 * 11 + 14, 30) == 29;
    MonthsFillYear(15);
    var h := HijriDate(15, 12, 30);
    assert ValidHijri(h) by { assert YearLength(15) == 355; }
    assert HijriToJulianDay(h) == 1953754;
    CorrectedRoundTrip(h);
  }

  /** And AH 16, a leap year, ends on 12/29. */
  lemma CorrectedLeapYearEndsOnTwentyNine()
    ensures IsHijriLeapYear(16) && MonthLength(16, 12) == 30
    ensures HijriYearToJulianDay(17) == 1954108 + 1
    ensures HijriOfCorrected(1954108) == HijriDate(16, 12, 29)
  {
    assert JsRem(16 * 11 + 14, 30) == 10;
    MonthsFillYear(16);
    var h := HijriDate(16, 12, 29);
    assert ValidHijri(h) by { assert YearLength(16) == 354; }
    assert HijriToJulianDay(h) == 1954108;
    CorrectedRoundTrip(h);
  }

  /** A valid Hijri date denotes a day of its own year. */
  lemma ValidHijriInItsYear(h: HijriDate)
    requires ValidHijri(h)
    ensures HijriYearToJulianDay(h.year) <= HijriToJulianDay(h) < HijriYearToJulianDay(h.year + 1)
  {
    var y := h.year;
    DaysBeforeMonthIncreases(y, 1, h.month);
    MonthsFillYear(y);
    if h.month < 12 {
      DaysBeforeMonthIncreases(y, h.month + 1, 12);
      YearLengthBounds(y);
    }
  }

  lemma {:induction false} WalksAgree(y: int, m: int, d: int)
    requires 1 <= m && d >= 0 && MonthWalk(y, m, d).0 <= 12
    ensures CappedMonthWalk(y, m, d) == MonthWalk(y, m, d)
    decreases d
  {
    MonthWalkAccounts(y, m, d);
    if d >= MonthLength(y, m) {
      MonthWalkAccounts(y, m + 1, d - MonthLength(y, m));
      WalksAgree(y, m + 1, d - MonthLength(y, m));
    }
  }

  /**
   * The two conversions differ only on the two defects: they agree whenever
   * the source's result has a month of at most 12 and `jd` is not the first
   * day of the next year.
   */
  lemma CorrectedAgreesElsewhere(jd: int)
    requires HijriOf(jd).month <= 12
    requires jd != HijriYearToJulianDay(HijriOf(jd).year + 1)
    ensures HijriOfCorrected(jd) == HijriOf(jd)
  {
    DaysIntoYearBounds(jd);
    HijriOfProperties(jd);
    var yd := YearAndDaysInto(jd);
    assert CorrectedYear(jd) == yd.0;
    WalksAgree(yd.0, 1, yd.1);
  }

  // ---------------------------------------------------------------------------
  // formatDate and formatDateTimeWithBoth

  /** The month-name table `formatDate` picks; anything but 'en' and 'fr' gets the Arabic one. */
  function MonthNames(language: Language): (names: seq<string>)
    ensures |names| == 12
    ensures forall i :: 0 <= i < 12 ==> |names[i]| > 0
  {
    match language
    case En => HijriMonthsEn
    case Fr => HijriMonthsFr
    case Ar => HijriMonthsAr
  }

  /** `names[i]` as JavaScript reads it inside a template literal: "undefined" past the end. */
  function NameAt(names: seq<string>, i: int): string {
    if 0 <= i < |names| then names[i] else "undefined"
  }

  /** The ending of the Hijri text: "هـ" glued to the Arabic year, " AH" after the others. */
  function HijriSuffix(language: Language): string {
    if language == Ar then "هـ" else " AH"
  }

  /** The Hijri half of `formatDate` for an already converted date. */
  function FormatHijri(h: HijriDate, language: Language): string {
    var name := NameAt(MonthNames(language), h.month - 1);
    IntToString(h.day) + " " + name + " " + IntToString(h.year) + HijriSuffix(language)
  }

  /** Every name in the three tables is a single line, and none is the text "undefined". */
  lemma MonthNamesAreReal(language: Language)
    ensures forall n :: n in MonthNames(language) ==> HasNoNewline(n) && n != "undefined"
  {
    match language
    case Ar => ArabicNamesAreReal();
    case En => EnglishNamesAreReal();
    case Fr => FrenchNamesAreReal();
  }

  predicate TableIsReal(names: seq<string>) {
    forall i :: 0 <= i < |names| ==> HasNoNewline(names[i]) && names[i] != "undefined"
  }

  lemma ArabicNamesAreReal()
    ensures TableIsReal(HijriMonthsAr)
  {
  }

  lemma EnglishNamesAreReal()
    ensures TableIsReal(HijriMonthsEn)
  {
  }

  lemma FrenchNamesAreReal()
    ensures TableIsReal(HijriMonthsFr)
  {
  }

  lemma ConcatAffixes(a: string, b: string)
    ensures StartsWith(a + b, a) && EndsWith(a + b, b)
  {
    assert (a + b)[..|a|] == a;
    assert (a + b)[|a + b| - |b|..] == b;
  }

  /**
   * Arabic text ends in "هـ", English and French text in " AH"; the day comes
   * first, then the month's name, which is a real name for months 1..12 and
   * "undefined" otherwise.
   */
  lemma FormatHijriShape(h: HijriDate, language: Language)
    ensures language == Ar ==> EndsWith(FormatHijri(h, language), "هـ")
    ensures language != Ar ==> EndsWith(FormatHijri(h, language), " AH")
    ensures StartsWith(FormatHijri(h, language), IntToString(h.day) + " " + NameAt(MonthNames(language), h.month - 1) + " ")
    ensures 1 <= h.month <= 12 <==> NameAt(MonthNames(language), h.month - 1) != "undefined"
    ensures HasNoNewline(FormatHijri(h, language))
  {
    IntToStringHasNoNewline(h.day);
    IntToStringHasNoNewline(h.year);
    MonthNameFacts(language, h.month);
    var suffix := HijriSuffix(language);
    assert HasNoNewline(suffix);
    TextShape(IntToString(h.day), NameAt(MonthNames(language), h.month - 1), IntToString(h.year), suffix);
  }

  /** The name a month number selects is one line, and reads "undefined" exactly outside 1..12. */
  lemma MonthNameFacts(language: Language, month: int)
    ensures HasNoNewline(NameAt(MonthNames(language), month - 1))
    ensures 1 <= month <= 12 <==> NameAt(MonthNames(language), month - 1) != "undefined"
  {
    MonthNamesAreReal(language);
    var names := MonthNames(language);
    if 1 <= month <= 12 {
      assert names[month - 1] in names;
    }
  }

  /** The Hijri text is `day name year` glued to the suffix; its parts fix its start, end and lines. */
  lemma TextShape(day: string, name: string, year: string, suffix: string)
    requires HasNoNewline(day) && HasNoNewline(name) && HasNoNewline(year) && HasNoNewline(suffix)
    ensures StartsWith(day + " " + name + " " + year + suffix, day + " " + name + " ")
    ensures EndsWith(day + " " + name + " " + year + suffix, suffix)
    ensures HasNoNewline(day + " " + name + " " + year + suffix)
  {
    var head := day + " " + name + " ";
    var s := day + " " + name + " " + year + suffix;
    assert s == head + (year + suffix);
    ConcatAffixes(head, year + suffix);
    assert s == (head + year) + suffix;
    ConcatAffixes(head + year, suffix);
  }

  predicate StartsWith(s: string, prefix: string) {
    |prefix| <= |s| && s[..|prefix|] == prefix
  }

  predicate EndsWith(s: string, suffix: string) {
    |suffix| <= |s| && s[|s| - |suffix|..] == suffix
  }

  /** The locale `formatDate` and `formatDateTimeWithBoth` pass to `Intl`. */
  function LocaleTag(language: Language): string {
    match language
    case En => "en-US"
    case Fr => "fr-FR"
    case Ar => "ar-SA"
  }

  /**
   * `formatDate`. `localeDate(tag)` stands for
   * `date.toLocaleDateString(tag, { year: 'numeric', month: 'long', day: 'numeric' })`,
   * which this model does not compute.
   */
  function FormatDate(date: GregorianDate, language: Language, localeDate: string -> string): (info: DateInfo)
  {
    DateInfo(FormatHijri(HijriOf(GregorianToJulianDay(date)), language), localeDate(LocaleTag(language)))
  }

  /** The Gregorian text is the one `Intl` gives for the language's locale; the Hijri text has the converted day first. */
  lemma FormatDateParts(date: GregorianDate, language: Language, localeDate: string -> string)
    ensures FormatDate(date, language, localeDate).gregorian == localeDate(LocaleTag(language))
    ensures var h := HijriOf(GregorianToJulianDay(date));
            StartsWith(FormatDate(date, language, localeDate).hijri, IntToString(h.day) + " ")
    ensures language == Ar ==> EndsWith(FormatDate(date, language, localeDate).hijri, "هـ")
    ensures language != Ar ==> EndsWith(FormatDate(date, language, localeDate).hijri, " AH")
  {
    FormatHijriEnds(HijriOf(GregorianToJulianDay(date)), language);
  }

  /** The Hijri text starts with the day and a space, and ends in the language's suffix. */
  lemma FormatHijriEnds(h: HijriDate, language: Language)
    ensures StartsWith(FormatHijri(h, language), IntToString(h.day) + " ")
    ensures language == Ar ==> EndsWith(FormatHijri(h, language), "هـ")
    ensures language != Ar ==> EndsWith(FormatHijri(h, language), " AH")
  {
    FormatHijriShape(h, language);
    var p := IntToString(h.day) + " " + NameAt(MonthNames(language), h.month - 1) + " ";
    assert (IntToString(h.day) + " ") == p[..|IntToString(h.day) + " "|];
  }

  /** The first day of AH 2 (7 July 623) is printed with no month name at all. */
  lemma FormatDateMonthThirteen(localeDate: string -> string)
    ensures FormatDate(GregorianDate(623, 7, 7), En, localeDate).hijri == "1 undefined 1 AH"
  {
    MonthThirteenExample();
    FormatHijriMonthThirteen();
  }

  lemma FormatHijriMonthThirteen()
    ensures FormatHijri(HijriDate(1, 13, 1), En) == "1 undefined 1 AH"
  {
    assert NameAt(MonthNames(En), 12) == "undefined";
    assert IntToString(1) == "1";
  }

  /** Labels of the three lines of `formatDateTimeWithBoth`. */
  function Labels(language: Language): (string, string, string) {
    match language
    case En => ("Gregorian: ", "Hijri: ", "Time: ")
    case Fr => ("Grégorien: ", "Hijri: ", "Heure: ")
    case Ar => ("الميلادي: ", "الهجري: ", "الوقت: ")
  }

  /**
   * `formatDateTimeWithBoth`. `localeTime(tag)` stands for
   * `date.toLocaleTimeString(tag, { hour: 'numeric', minute: '2-digit' })`.
   */
  function FormatDateTimeWithBoth(date: GregorianDate, language: Language,
                                  localeDate: string -> string, localeTime: string -> string): string
  {
    var info := FormatDate(date, language, localeDate);
    var labels := Labels(language);
    labels.0 + info.gregorian + "\n" + labels.1 + info.hijri + "\n" + labels.2 + localeTime(LocaleTag(language))
  }

  /** `s.split('\n')`. */
  function SplitLines(s: string): (lines: seq<string>)
    ensures |lines| >= 1
  {
    if s == [] then [""]
    else
      var rest := SplitLines(s[1..]);
      if s[0] == '\n' then [""] + rest else [[s[0]] + rest[0]] + rest[1..]
  }

  lemma {:induction false} SplitLinesAfterLine(a: string, b: string)
    requires HasNoNewline(a)
    ensures SplitLines(a + "\n" + b) == [a] + SplitLines(b)
    ensures SplitLines(a) == [a]
    decreases |a|
  {
    if a != [] {
      SplitLinesAfterLine(a[1..], b);
      assert (a + "\n" + b)[1..] == a[1..] + "\n" + b;
      assert [a[0]] + a[1..] == a;
    } else {
      assert a + "\n" + b == "\n" + b;
      assert ("\n" + b)[1..] == b;
    }
  }

  /**
   * The label is three lines: the Gregorian text, the Hijri text and the
   * time, each after its language's label (when the `Intl` texts contain no
   * line break, which they do not).
   */
  lemma FormatDateTimeWithBothLines(date: GregorianDate, language: Language,
                                    localeDate: string -> string, localeTime: string -> string)
    requires HasNoNewline(localeDate(LocaleTag(language)))
    requires HasNoNewline(localeTime(LocaleTag(language)))
    ensures var labels := Labels(language);
            var info := FormatDate(date, language, localeDate);
            SplitLines(FormatDateTimeWithBoth(date, language, localeDate, localeTime))
              == [labels.0 + info.gregorian, labels.1 + info.hijri, labels.2 + localeTime(LocaleTag(language))]
  {
    var info := FormatDate(date, language, localeDate);
    FormatHijriShape(HijriOf(GregorianToJulianDay(date)), language);
    LabelsAreLines(language);
    LinesOfParts(Labels(language), info.gregorian, info.hijri, localeTime(LocaleTag(language)));
  }

  /** Three labelled one-line texts joined by line breaks split back into those three lines. */
  lemma LinesOfParts(labels: (string, string, string), gregorian: string, hijri: string, time: string)
    requires HasNoNewline(labels.0) && HasNoNewline(labels.1) && HasNoNewline(labels.2)
    requires HasNoNewline(gregorian) && HasNoNewline(hijri) && HasNoNewline(time)
    ensures SplitLines(labels.0 + gregorian + "\n" + labels.1 + hijri + "\n" + labels.2 + time)
              == [labels.0 + gregorian, labels.1 + hijri, labels.2 + time]
  {
    var l1, l2, l3 := labels.0 + gregorian, labels.1 + hijri, labels.2 + time;
    assert HasNoNewline(l1) && HasNoNewline(l2) && HasNoNewline(l3);
    assert labels.0 + gregorian + "\n" + labels.1 + hijri + "\n" + labels.2 + time == l1 + "\n" + l2 + "\n" + l3;
    ThreeLines(l1, l2, l3);
  }

  lemma LabelsAreLines(language: Language)
    ensures HasNoNewline(Labels(language).0) && HasNoNewline(Labels(language).1) && HasNoNewline(Labels(language).2)
  {
  }

  lemma ThreeLines(l1: string, l2: string, l3: string)
    requires HasNoNewline(l1) && HasNoNewline(l2) && HasNoNewline(l3)
    ensures SplitLines(l1 + "\n" + l2 + "\n" + l3) == [l1, l2, l3]
  {
    assert l1 + "\n" + l2 + "\n" + l3 == l1 + "\n" + (l2 + "\n" + l3);
    SplitLinesAfterLine(l1, l2 + "\n" + l3);
    SplitLinesAfterLine(l2, l3);
    SplitLinesAfterLine(l3, "");
  }
}
