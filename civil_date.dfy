/** The calendar date of a draft: the `YYYY-MM-DD` part of
    `new Date(created * 1000).toISOString()`, i.e. the UTC day of a Unix
    timestamp in the proleptic Gregorian calendar. */
module CivilDate {

  datatype Date = Date(year: int, month: int, day: int)

  /** JavaScript's time values are limited to 8.64e15 ms either side of the
      epoch; `new Date` of anything further is an invalid date. */
  const MaxTimeSeconds: int := 8_640_000_000_000

  predicate InTimeRange(created: int)
  {
    -MaxTimeSeconds <= created <= MaxTimeSeconds
  }

  // ------------------------------------------------------------ calendar

  predicate IsLeapYear(y: int)
  {
    y % 4 == 0 && (y % 100 != 0 || y % 400 == 0)
  }

  function DaysInYear(y: int): int
  {
    if IsLeapYear(y) then 366 else 365
  }

  function DaysInMonth(y: int, m: int): int
    requires 1 <= m <= 12
  {
    if m == 2 then (if IsLeapYear(y) then 29 else 28)
    else if m == 4 || m == 6 || m == 9 || m == 11 then 30
    else 31
  }

  /** Days of year `y` before the first of month `m`; month 13 stands for the
      first day of the next year. */
  function DaysBeforeMonth(y: int, m: int): int
    requires 1 <= m <= 13
  {
    var leap := if IsLeapYear(y) then 1 else 0;
    if m == 1 then 0
    else if m == 2 then 31
    else if m == 3 then 59 + leap
    else if m == 4 then 90 + leap
    else if m == 5 then 120 + leap
    else if m == 6 then 151 + leap
    else if m == 7 then 181 + leap
    else if m == 8 then 212 + leap
    else if m == 9 then 243 + leap
    else if m == 10 then 273 + leap
    else if m == 11 then 304 + leap
    else if m == 12 then 334 + leap
    else 365 + leap
  }

  predicate Valid(d: Date)
  {
    1 <= d.month <= 12 && 1 <= d.day <= DaysInMonth(d.year, d.month)
  }

  /** Number of leap years among 1..n (extended to all integers so that each
      step adds exactly the leap-ness of the year stepped over). */
  function LeapYearsThrough(n: int): int
  {
    n / 4 - n / 100 + n / 400
  }

  /** Days from 1970-01-01 to the first of January of year `y`. */
  function DaysBeforeYear(y: int): int
  {
    365 * (y - 1970) + LeapYearsThrough(y - 1) - LeapYearsThrough(1969)
  }

  /** Days from 1970-01-01 to `d`: the reference meaning of a date. */
  function DaysFromCivil(d: Date): int
    requires 1 <= d.month <= 12
  {
    DaysBeforeYear(d.year) + DaysBeforeMonth(d.year, d.month) + d.day - 1
  }

  lemma MonthsFillYear(y: int, m: int)
    requires 1 <= m <= 12
    ensures DaysBeforeMonth(y, m + 1) == DaysBeforeMonth(y, m) + DaysInMonth(y, m)
    ensures DaysBeforeMonth(y, 13) == DaysInYear(y)
  {
  }

  /** Stepping over year `y` adds exactly its length: the closed form of
      DaysBeforeYear agrees with counting year by year from 1970. */
  lemma DaysBeforeNextYear(y: int)
    ensures DaysBeforeYear(1970) == 0
    ensures DaysBeforeYear(y + 1) == DaysBeforeYear(y) + DaysInYear(y)
  {
    QuarterStep(y);
    CenturyStep(y);
    QuadricentennialStep(y);
    LeapDivisors(y);
    var leaps := LeapYearsThrough(y) - LeapYearsThrough(y - 1);
    assert DaysBeforeYear(y + 1) == DaysBeforeYear(y) + 365 + leaps;
    assert leaps == (if y % 4 == 0 then 1 else 0) - (if y % 100 == 0 then 1 else 0) + (if y % 400 == 0 then 1 else 0);
  }

  /** A multiple of 400 is one of 100, and a multiple of 100 one of 4. */
  lemma LeapDivisors(y: int)
    ensures y % 400 == 0 ==> y % 100 == 0
    ensures y % 100 == 0 ==> y % 4 == 0
  {
    if y % 400 == 0 {
      QuadricentennialIsCentury(y);
    }
    if y % 100 == 0 {
      CenturyIsQuarter(y);
    }
  }

  lemma QuadricentennialIsCentury(y: int)
    requires y % 400 == 0
    ensures y % 100 == 0
  {
    var q := y / 400;
    assert y == 100 * (4 * q) + 0;
  }

  lemma CenturyIsQuarter(y: int)
    requires y % 100 == 0
    ensures y % 4 == 0
  {
    var q := y / 100;
    assert y == 4 * (25 * q) + 0;
  }

  /** Stepping back from `y` lowers `y / 4` exactly when 4 divides `y`; the
      same for 100 and 400 below. */
  lemma QuarterStep(y: int)
    ensures (y - 1) / 4 == if y % 4 == 0 then y / 4 - 1 else y / 4
  {
    assert y == 4 * (y / 4) + y % 4;
  }

  lemma CenturyStep(y: int)
    ensures (y - 1) / 100 == if y % 100 == 0 then y / 100 - 1 else y / 100
  {
    assert y == 100 * (y / 100) + y % 100;
  }

  lemma QuadricentennialStep(y: int)
    ensures (y - 1) / 400 == if y % 400 == 0 then y / 400 - 1 else y / 400
  {
    assert y == 400 * (y / 400) + y % 400;
  }

  /** Four hundred Gregorian years are exactly 146097 days. */
  lemma {:induction false} FourHundredYears(c: int)
    ensures DaysBeforeYear(1970 + 400 * c) == 146097 * c
  {
    var n := 1969 + 400 * c;
    assert n == 4 * (492 + 100 * c) + 1;
    assert n / 4 == 492 + 100 * c;
    assert n == 100 * (19 + 4 * c) + 69;
    assert n / 100 == 19 + 4 * c;
    assert n == 400 * (4 + c) + 369;
    assert n / 400 == 4 + c;
  }

  /** Every later year starts at least a whole year after an earlier one. */
  lemma {:induction false} YearsIncrease(a: int, b: int)
    requires a < b
    ensures DaysBeforeYear(a) + DaysInYear(a) <= DaysBeforeYear(b)
    decreases b - a
  {
    DaysBeforeNextYear(a);
    if a + 1 < b {
      YearsIncrease(a + 1, b);
      DaysBeforeNextYear(a + 1);
    }
  }

  // ---------------------------------------------- days -> calendar date

  /** Walks year by year from `y`, `r` days into it, to the year that holds
      that day. */
  function YearOf(y: int, r: int): (yr: (int, int))
    requires r >= 0
    ensures 0 <= yr.1 < DaysInYear(yr.0)
    ensures DaysBeforeYear(yr.0) + yr.1 == DaysBeforeYear(y) + r
    decreases r
  {
    if r < DaysInYear(y) then (y, r)
    else
      DaysBeforeNextYear(y);
      YearOf(y + 1, r - DaysInYear(y))
  }

  /** Walks month by month from `m` to the month that holds day `r` of year `y`. */
  function MonthOf(y: int, m: int, r: int): (md: (int, int))
    requires 1 <= m <= 12
    requires DaysBeforeMonth(y, m) <= r < DaysInYear(y)
    ensures 1 <= md.0 <= 12 && 0 <= md.1 < DaysInMonth(y, md.0)
    ensures DaysBeforeMonth(y, md.0) + md.1 == r
    decreases 12 - m
  {
    MonthsFillYear(y, m);
    if r < DaysBeforeMonth(y, m + 1) || m == 12 then (m, r - DaysBeforeMonth(y, m))
    else MonthOf(y, m + 1, r)
  }

  /** The calendar date `z` days after 1970-01-01 (before it when negative). */
  function CivilFromDays(z: int): (d: Date)
    ensures Valid(d) && DaysFromCivil(d) == z
  {
    var cycles := z / 146097;
    FourHundredYears(cycles);
    var yr := YearOf(1970 + 400 * cycles, z % 146097);
    MonthsFillYear(yr.0, 1);
    var md := MonthOf(yr.0, 1, yr.1);
    Date(yr.0, md.0, md.1 + 1)
  }

  /** Distinct valid dates are distinct days: the date CivilFromDays returns
      is the only valid one for its day count. */
  lemma DaysFromCivilInjective(d1: Date, d2: Date)
    requires Valid(d1) && Valid(d2)
    requires DaysFromCivil(d1) == DaysFromCivil(d2)
    ensures d1 == d2
  {
    MonthsFillYear(d1.year, d1.month);
    MonthsFillYear(d2.year, d2.month);
    if d1.year < d2.year {
      YearsIncrease(d1.year, d2.year);
      MonthBound(d1);
      assert false;
    } else if d2.year < d1.year {
      YearsIncrease(d2.year, d1.year);
      MonthBound(d2);
      assert false;
    } else if d1.month != d2.month {
      MonthsOrdered(d1.year, d1.month, d2.month);
      MonthsOrdered(d1.year, d2.month, d1.month);
    }
  }

  lemma MonthBound(d: Date)
    requires Valid(d)
    ensures DaysBeforeMonth(d.year, d.month) + d.day - 1 < DaysInYear(d.year)
  {
    MonthsFillYear(d.year, d.month);
    MonthsOrdered(d.year, d.month, 13);
  }

  lemma MonthsOrdered(y: int, m1: int, m2: int)
    requires 1 <= m1 < m2 <= 13
    ensures m1 <= 12 && DaysBeforeMonth(y, m1) + DaysInMonth(y, m1) <= DaysBeforeMonth(y, m2)
  {
  }

  /** The UTC calendar day of a Unix timestamp in seconds. */
  function UtcDate(created: int): (d: Date)
    ensures Valid(d)
    ensures DaysFromCivil(d) * 86400 <= created < (DaysFromCivil(d) + 1) * 86400
  {
    CivilFromDays(created / 86400)
  }

  // ----------------------------------------------------------- formatting

  /** `n` in decimal, zero-padded on the left to `width` digits. */
  function Digits(n: nat, width: nat): (s: string)
    requires n < Pow10(width)
    ensures |s| == width
    ensures forall i :: 0 <= i < |s| ==> '0' <= s[i] <= '9'
    ensures DigitsValue(s) == n
  {
    if width == 0 then ""
    else Digits(n / 10, width - 1) + [(('0' as int) + n % 10) as char]
  }

  function Pow10(k: nat): nat
  {
    if k == 0 then 1 else 10 * Pow10(k - 1)
  }

  /** The number a string of decimal digits denotes. */
  function DigitsValue(s: string): int
  {
    if s == [] then 0
    else 10 * DigitsValue(s[..|s| - 1]) + (s[|s| - 1] as int - '0' as int)
  }

  /** `-MM-DD`: the month and day part of an ISO date. */
  function MonthDay(month: int, day: int): (t: string)
    requires 1 <= month <= 12 && 1 <= day <= 31
    ensures |t| == 6 && t[0] == '-' && t[3] == '-'
    ensures forall i :: 0 <= i < 6 && i != 0 && i != 3 ==> '0' <= t[i] <= '9'
    ensures DigitsValue(t[1..3]) == month && DigitsValue(t[4..]) == day
  {
    assert Pow10(2) == 100;
    var mm := Digits(month, 2);
    var dd := Digits(day, 2);
    var t := "-" + mm + "-" + dd;
    assert t[1..3] == mm && t[4..] == dd;
    t
  }

  /** The year part of an ISO date: four digits for years 0 to 9999,
      otherwise a sign and six digits. */
  function IsoYear(year: int): (s: string)
    requires -1_000_000 < year < 1_000_000
    ensures 0 <= year <= 9999 ==> |s| == 4 && DigitsValue(s) == year
    ensures !(0 <= year <= 9999) ==> |s| == 7 && s[0] == (if year < 0 then '-' else '+')
    ensures !(0 <= year <= 9999) ==> DigitsValue(s[1..]) == if year < 0 then -year else year
    ensures 0 <= year <= 9999 ==> forall i :: 0 <= i < 4 ==> '0' <= s[i] <= '9'
    ensures !(0 <= year <= 9999) ==> forall i :: 1 <= i < 7 ==> '0' <= s[i] <= '9'
  {
    assert Pow10(4) == 10_000 && Pow10(6) == 1_000_000;
    if 0 <= year <= 9999 then Digits(year, 4)
    else
      var digits := Digits(if year < 0 then -year else year, 6);
      var s := (if year < 0 then "-" else "+") + digits;
      assert s[1..] == digits;
      s
  }

  /** The date part of `toISOString()`. */
  function IsoDate(d: Date): (s: string)
    requires Valid(d) && -1_000_000 < d.year < 1_000_000
    ensures |s| >= 10 && s[|s| - 6] == '-' && s[|s| - 3] == '-'
    ensures 0 <= d.year <= 9999 ==> |s| == 10 && DigitsValue(s[..4]) == d.year
    ensures !(0 <= d.year <= 9999) ==> |s| == 13 && s[0] == (if d.year < 0 then '-' else '+')
    ensures !(0 <= d.year <= 9999) ==> DigitsValue(s[1..7]) == if d.year < 0 then -d.year else d.year
    ensures DigitsValue(s[|s| - 5..|s| - 3]) == d.month && DigitsValue(s[|s| - 2..]) == d.day
  {
    var y := IsoYear(d.year);
    var t := MonthDay(d.month, d.day);
    DateParts(y, t);
    y + t
  }

  /** Where the year `y` and the six characters `t` of `-MM-DD` sit in an
      ISO date. */
  lemma DateParts(y: string, t: string)
    requires |t| == 6
    ensures (y + t)[..|y|] == y
    ensures |y| == 7 ==> (y + t)[1..7] == y[1..]
    ensures (y + t)[|y| + 1..|y| + 3] == t[1..3]
    ensures (y + t)[|y| + 4..] == t[4..]
  {
  }

  /** Every character of an ISO date but the sign and the two dashes is a
      decimal digit. */
  lemma IsoDateDigits(d: Date)
    requires Valid(d) && -1_000_000 < d.year < 1_000_000
    ensures var s := IsoDate(d);
      && (0 <= d.year <= 9999 ==> forall i :: 0 <= i < 4 ==> '0' <= s[i] <= '9')
      && (!(0 <= d.year <= 9999) ==> forall i :: 1 <= i < 7 ==> '0' <= s[i] <= '9')
      && forall i :: |s| - 6 < i < |s| && i != |s| - 3 ==> '0' <= s[i] <= '9'
  {
    var y := IsoYear(d.year);
    var t := MonthDay(d.month, d.day);
    var s := y + t;
    assert IsoDate(d) == s;
    forall i | |s| - 6 < i < |s| && i != |s| - 3
      ensures '0' <= s[i] <= '9'
    {
      assert s[i] == t[i - |y|];
    }
    if 0 <= d.year <= 9999 {
      forall i | 0 <= i < 4
        ensures '0' <= s[i] <= '9'
      {
        assert s[i] == y[i];
      }
    } else {
      forall i | 1 <= i < 7
        ensures '0' <= s[i] <= '9'
      {
        assert s[i] == y[i];
      }
    }
  }

  /** Within JavaScript's time range the year fits the six-digit form. */
  lemma {:induction false} YearInRange(created: int)
    requires InTimeRange(created)
    ensures -1_000_000 < UtcDate(created).year < 1_000_000
  {
    var d := UtcDate(created);
    var z := created / 86400;
    assert -100_000_000 <= z <= 100_000_000;
    if d.year >= 1_000_000 {
      YearsIncrease(1970 + 400 * 2500, d.year);
      FourHundredYears(2500);
      assert false;
    } else if d.year <= -1_000_000 {
      MonthBound(d);
      YearsIncrease(d.year, 1970 - 400 * 2500);
      FourHundredYears(-2500);
      assert false;
    }
  }

  /** The `date` field every draft carries: the UTC day of `created`. */
  function DateOfCreated(created: int): (s: string)
    requires InTimeRange(created)
    ensures exists d ::
      && Valid(d) && -1_000_000 < d.year < 1_000_000 && s == IsoDate(d)
      && DaysFromCivil(d) * 86400 <= created < (DaysFromCivil(d) + 1) * 86400
  {
    YearInRange(created);
    IsoDate(UtcDate(created))
  }

  /** Day 18993 after the epoch is 2022-01-01, and no other valid date. */
  lemma NewYearsDay2022(d: Date)
    requires Valid(d) && DaysFromCivil(d) == 18993
    ensures d == Date(2022, 1, 1)
  {
    assert DaysFromCivil(Date(2022, 1, 1)) == 18993 by {
      assert DaysBeforeYear(2022) == 18993;
    }
    DaysFromCivilInjective(d, Date(2022, 1, 1));
  }

  /** Every second of 2022-01-01 UTC (the day of the test fixtures' Unix
      timestamp 1640995200) carries the date "2022-01-01". */
  lemma NewYear2022(created: int)
    requires 1_640_995_200 <= created < 1_640_995_200 + 86400
    ensures DateOfCreated(created) == "2022-01-01"
  {
    UtcDayNumber(created);
    assert created / 86400 == 18993;
    NewYearsDay2022(UtcDate(created));
    NewYear2022Formatted();
  }

  /** The UTC day of a timestamp is its day number since the epoch, counted
      down for times before it. */
  lemma UtcDayNumber(created: int)
    ensures DaysFromCivil(UtcDate(created)) == created / 86400
  {
  }

  lemma NewYear2022Formatted()
    ensures IsoDate(Date(2022, 1, 1)) == "2022-01-01"
  {
    Year2022Formatted();
    NewYearsDayFormatted();
    var s := IsoYear(2022) + MonthDay(1, 1);
    assert s == IsoDate(Date(2022, 1, 1));
    assert |s| == 10;
    assert forall i :: 0 <= i < 10 ==> s[i] == "2022-01-01"[i];
  }

  lemma Year2022Formatted()
    ensures IsoYear(2022) == "2022"
  {
    assert Digits(2, 1) == "2";
    assert Digits(20, 2) == "20";
    assert Digits(202, 3) == "202";
  }

  lemma NewYearsDayFormatted()
    ensures MonthDay(1, 1) == "-01-01"
  {
    assert Digits(1, 2) == "01";
  }
}
