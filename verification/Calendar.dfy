/** The Julian-day arithmetic of src/base/src/Date.cc and the proleptic Gregorian calendar it encodes. */
module Calendar {
  import opened Integers

  datatype YearMonthDay = YearMonthDay(year: int, month: int, day: int)

  // ---------------------------------------------------------------- the C++ conversions

  function GetJulianDayNumber(year: int, month: int, day: int): int {
    var a := TruncDiv(14 - month, 12);
    var y := year + 4800 - a;
    var m := month + 12 * a - 3;
    day + TruncDiv(153 * m + 2, 5) + y * 365 + TruncDiv(y, 4) - TruncDiv(y, 100) + TruncDiv(y, 400) - 32045
  }

  function GetYearMonthDay(julianDayNumber: int): YearMonthDay {
    var a := julianDayNumber + 32044;
    var b := TruncDiv(4 * a + 3, 146097);
    FromDayOfCentury(b, a - TruncDiv(b * 146097, 4))
  }

  /** The middle lines of getYearMonthDay, for day `c` of century `b`. */
  function FromDayOfCentury(b: int, c: int): YearMonthDay {
    var d := TruncDiv(4 * c + 3, 1461);
    FromDayOfYear(b, d, c - TruncDiv(1461 * d, 4))
  }

  /** Its last lines: century, year of the century and day `e` of the year from March. */
  function FromDayOfYear(b: int, d: int, e: int): YearMonthDay {
    var m := TruncDiv(5 * e + 2, 153);
    YearMonthDay(
      b * 100 + d - 4800 + TruncDiv(m, 10),
      Int8(m + 3 - 12 * TruncDiv(m, 10)),
      Int8(e - TruncDiv(153 * m + 2, 5) + 1))
  }

  function Number(d: YearMonthDay): int {
    GetJulianDayNumber(d.year, d.month, d.day)
  }

  // ---------------------------------------------------------------- the calendar itself

  predicate LeapYear(year: int) {
    year % 4 == 0 && (year % 100 != 0 || year % 400 == 0)
  }

  function DaysInMonth(year: int, month: int): int {
    if month == 2 then (if LeapYear(year) then 29 else 28)
    else if month in {4, 6, 9, 11} then 30
    else 31
  }

  predicate ValidDate(d: YearMonthDay) {
    1 <= d.month <= 12 && 1 <= d.day <= DaysInMonth(d.year, d.month)
  }

  predicate Before(d: YearMonthDay, e: YearMonthDay) {
    d.year < e.year || (d.year == e.year && (d.month < e.month || (d.month == e.month && d.day < e.day)))
  }

  function NextDay(d: YearMonthDay): YearMonthDay {
    if d.day < DaysInMonth(d.year, d.month) then d.(day := d.day + 1)
    else if d.month < 12 then YearMonthDay(d.year, d.month + 1, 1)
    else YearMonthDay(d.year + 1, 1, 1)
  }

  const FIRST := YearMonthDay(-4800, 3, 1)

  /** The dates the formula is meant for: the civil dates from 1 March -4800 on. */
  predicate InRange(d: YearMonthDay) {
    ValidDate(d) && !Before(d, FIRST)
  }

  // ---------------------------------------------------------------- years from March to February

  /** Day of the March-based year on which its month `m` (0 is March) begins. */
  function MonthStart(m: nat): nat {
    (153 * m + 2) / 5
  }

  /** Days before the March-based year `y`, counted from 1 March -4800. */
  function YearStart(y: nat): nat {
    365 * y + y / 4 - y / 100 + y / 400
  }

  predicate MarchLeap(y: nat) {
    LeapYear(y + 1)
  }

  function YearLength(y: nat): nat {
    if MarchLeap(y) then 366 else 365
  }

  lemma QuotientStep(y: nat, q: nat, k: nat)
    requires k in {4, 100, 400} && q == y / k
    ensures (y + 1) / k == q + (if (y + 1) % k == 0 then 1 else 0)
  {
  }

  lemma LeapMultiples(year: nat)
    ensures year % 400 == 0 ==> year % 100 == 0
    ensures year % 100 == 0 ==> year % 4 == 0
  {
    var q4, q1 := year / 400, year / 100;
    if year == 400 * q4 {
      assert year == 100 * (4 * q4);
    }
    if year == 100 * q1 {
      assert year == 4 * (25 * q1);
    }
  }

  lemma YearStartStep(y: nat)
    ensures YearStart(y + 1) == YearStart(y) + YearLength(y)
  {
    QuotientStep(y, y / 4, 4);
    QuotientStep(y, y / 100, 100);
    QuotientStep(y, y / 400, 400);
    LeapMultiples(y + 1);
  }

  /** Centuries: a year `100 c + r` starts `r` years into century `c`. */
  lemma YearStartByCentury(c: nat, r: nat)
    requires r < 100
    ensures YearStart(100 * c + r) == 146097 * c / 4 + 1461 * r / 4
  {
    var y := 100 * c + r;
    assert y / 100 == c;
    assert y / 4 == 25 * c + r / 4;
    assert y / 400 == c / 4;
    assert 146097 * c / 4 == 36524 * c + c / 4;
    assert 1461 * r / 4 == 365 * r + r / 4;
  }

  /** The March-based coordinates of a date: year, month from March, day from 0. */
  function MarchYear(d: YearMonthDay): int {
    d.year + 4800 - (if d.month <= 2 then 1 else 0)
  }

  function MarchMonth(d: YearMonthDay): int {
    if d.month <= 2 then d.month + 9 else d.month - 3
  }

  lemma NumberByMarchYear(d: YearMonthDay)
    requires InRange(d)
    ensures MarchYear(d) >= 0 && 0 <= MarchMonth(d) <= 11
    ensures Number(d) + 32044 == YearStart(MarchYear(d)) + MonthStart(MarchMonth(d)) + d.day - 1
  {
    var a := TruncDiv(14 - d.month, 12);
    assert a == if d.month <= 2 then 1 else 0;
  }

  lemma LeapYearsRepeat(year: int)
    ensures LeapYear(year + 4800) == LeapYear(year)
  {
    assert year + 4800 == year + 4 * 1200 == year + 100 * 48 == year + 400 * 12;
    assert (year + 4800) % 4 == year % 4;
    assert (year + 4800) % 100 == year % 100;
    assert (year + 4800) % 400 == year % 400;
  }

  lemma MonthStartBrackets(m: nat, k: nat)
    requires m <= 11 && k < MonthStart(m + 1) - MonthStart(m)
    ensures (5 * (MonthStart(m) + k) + 2) / 153 == m
  {
  }

  lemma DayOfYearInYear(d: YearMonthDay)
    requires ValidDate(d) && MarchYear(d) >= 0
    ensures 0 <= MarchMonth(d) <= 11
    ensures var e := MonthStart(MarchMonth(d)) + d.day - 1;
            0 <= e < YearLength(MarchYear(d)) && (5 * e + 2) / 153 == MarchMonth(d)
  {
    var m := MarchMonth(d);
    if d.month == 2 {
      LeapYearsRepeat(d.year);
      assert MarchYear(d) + 1 == d.year + 4800;
    }
    assert MonthStart(0) == 0 && MonthStart(1) == 31 && MonthStart(2) == 61 && MonthStart(3) == 92;
    assert MonthStart(4) == 122 && MonthStart(5) == 153 && MonthStart(6) == 184 && MonthStart(7) == 214;
    assert MonthStart(8) == 245 && MonthStart(9) == 275 && MonthStart(10) == 306 && MonthStart(11) == 337;
    assert MonthStart(12) == 367;
    MonthStartBrackets(m, d.day - 1);
  }

  /** Within the March-based year `y` the decoder finds the century `b`, the day `c` of the century,
      the year `d` of the century and the day of the year. */
  lemma DecodeYear(y: nat, e: nat, a: nat) returns (b: nat, c: nat, d: nat)
    requires e < YearLength(y) && a == YearStart(y) + e
    ensures b == (4 * a + 3) / 146097 && c == a - 146097 * b / 4
    ensures d == (4 * c + 3) / 1461 && e == c - 1461 * d / 4
    ensures y == 100 * b + d
  {
    b, d := y / 100, y % 100;
    c := 1461 * d / 4 + e;
    YearStartByCentury(b, d);
    CenturyBound(b, d, e);
  }

  /** A long year is the last of four, and the last of a century only in every fourth century. */
  lemma LongYear(b: nat, r: nat)
    requires r < 100 && MarchLeap(100 * b + r)
    ensures r % 4 == 3 && (r == 99 ==> b % 4 == 3)
  {
    assert 100 * b + r + 1 == 4 * (25 * b) + (r + 1);
    if r == 99 {
      HundredthLeap(b + 1);
    }
  }

  /** The same bounds with the quotients by 4 written out. */
  lemma QuarterBound(q: nat, j: nat, p: nat, i: nat, e: nat)
    requires i < 4 && j < 4 && 4 * p + i < 100 && e <= 365
    requires e == 365 ==> i == 3 && (p == 24 ==> j == 3)
    ensures var b, r := 4 * q + j, 4 * p + i;
            var c := 365 * r + p + e;
            && 146097 * b <= 4 * (36524 * b + q + c) + 3 < 146097 * (b + 1)
            && 1461 * r <= 4 * c + 3 < 1461 * (r + 1)
  {
  }

  lemma CenturyBound(b: nat, r: nat, e: nat)
    requires r < 100 && e < YearLength(100 * b + r)
    ensures var c := 1461 * r / 4 + e;
            && 146097 * b <= 4 * (146097 * b / 4 + c) + 3 < 146097 * (b + 1)
            && 1461 * r <= 4 * c + 3 < 1461 * (r + 1)
  {
    assert 146097 * b / 4 == 36524 * b + b / 4;
    assert 1461 * r / 4 == 365 * r + r / 4;
    if e == 365 {
      LongYear(b, r);
    }
    QuarterBound(b / 4, b % 4, r / 4, r % 4, e);
  }

  lemma HundredthLeap(c: nat)
    ensures LeapYear(100 * c) == (c % 4 == 0)
  {
    var q, k := c / 4, c % 4;
    Multiple(25 * c, 4);
    Multiple(c, 100);
    Residue(q, 100 * k);
  }

  lemma Multiple(n: nat, k: nat)
    requires k in {4, 100}
    ensures (k * n) % k == 0
  {
  }

  lemma Residue(q: nat, k: nat)
    requires k < 400
    ensures (400 * q + k) % 400 == k
  {
  }

  // ---------------------------------------------------------------- main results

  /** Where the day number is not negative, the decoder's divisions are plain ones. */
  lemma PlainDivisions(a: nat, b: nat, c: nat)
    requires b == (4 * a + 3) / 146097 && c == a - 146097 * b / 4
    ensures b == TruncDiv(4 * a + 3, 146097) && c == a - TruncDiv(b * 146097, 4)
  {
    assert b * 146097 == 146097 * b;
  }

  lemma DecodeUnfolds(number: int, b: int, c: int)
    requires b == TruncDiv(4 * (number + 32044) + 3, 146097) && c == number + 32044 - TruncDiv(b * 146097, 4)
    ensures GetYearMonthDay(number) == FromDayOfCentury(b, c)
  {
  }

  lemma FromDayOfCenturyUnfolds(b: nat, c: nat, d: nat, e: nat)
    requires d == (4 * c + 3) / 1461 && e == c - 1461 * d / 4
    ensures FromDayOfCentury(b, c) == FromDayOfYear(b, d, e)
  {
  }

  /** Year, month and day as the decoder puts them together. */
  function Assemble(y: nat, m: nat, day: nat): YearMonthDay {
    YearMonthDay(y - 4800 + m / 10, Int8(m + 3 - 12 * (m / 10)), Int8(day))
  }

  lemma FromDayOfYearUnfolds(b: nat, d: nat, e: nat, m: nat, day: nat)
    requires m == (5 * e + 2) / 153 && e + 1 == MonthStart(m) + day
    ensures FromDayOfYear(b, d, e) == Assemble(100 * b + d, m, day)
  {
  }

  lemma MarchFields(d: YearMonthDay, y: nat, m: nat)
    requires ValidDate(d) && y == MarchYear(d) && m == MarchMonth(d)
    ensures Assemble(y, m, d.day) == d
  {
    assert m / 10 == if m < 10 then 0 else 1;
  }

  lemma DecodeParts(y: nat, e: nat, m: nat, day: nat, number: int)
    requires e < YearLength(y) && m == (5 * e + 2) / 153 && e + 1 == MonthStart(m) + day
    requires number + 32044 == YearStart(y) + e
    ensures GetYearMonthDay(number) == Assemble(y, m, day)
  {
    var a := number + 32044;
    var b, c, d := DecodeYear(y, e, a);
    PlainDivisions(a, b, c);
    DecodeUnfolds(number, b, c);
    FromDayOfCenturyUnfolds(b, c, d, e);
    FromDayOfYearUnfolds(b, d, e, m, day);
  }

  lemma DecodeMarch(d: YearMonthDay, y: nat, m: nat, number: int)
    requires ValidDate(d) && y == MarchYear(d) && m == MarchMonth(d)
    requires number + 32044 == YearStart(y) + MonthStart(m) + d.day - 1
    ensures GetYearMonthDay(number) == d
  {
    DayOfYearInYear(d);
    MarchFields(d, y, m);
    DecodeParts(y, MonthStart(m) + d.day - 1, m, d.day, number);
  }

  /** getYearMonthDay undoes getJulianDayNumber on every civil date from 1 March -4800 on. */
  lemma DateRoundTrip(d: YearMonthDay)
    requires InRange(d)
    ensures GetYearMonthDay(Number(d)) == d
  {
    NumberByMarchYear(d);
    DecodeMarch(d, MarchYear(d), MarchMonth(d), Number(d));
  }

  /** Every day number from 1 March -4800 on lies in one March-based year. */
  lemma {:induction false} YearOf(a: nat) returns (y: nat, e: nat)
    ensures a == YearStart(y) + e && e < YearLength(y)
  {
    if a == 0 {
      y, e := 0, 0;
    } else {
      y, e := YearOf(a - 1);
      YearStartStep(y);
      if e + 1 < YearLength(y) {
        e := e + 1;
      } else {
        y, e := y + 1, 0;
      }
    }
  }

  lemma MonthOf(e: nat) returns (m: nat, k: nat)
    requires e <= 365
    ensures m <= 11 && e == MonthStart(m) + k && k < MonthStart(m + 1) - MonthStart(m)
  {
    m := (5 * e + 2) / 153;
    k := e - MonthStart(m);
  }

  function FromMarch(y: nat, m: nat, k: nat): YearMonthDay {
    YearMonthDay(y - 4800 + (if m >= 10 then 1 else 0), if m >= 10 then m - 9 else m + 3, k + 1)
  }

  lemma FromMarchIsValid(y: nat, m: nat, k: nat)
    requires m <= 11 && k < MonthStart(m + 1) - MonthStart(m) && MonthStart(m) + k < YearLength(y)
    ensures var d := FromMarch(y, m, k);
            InRange(d) && MarchYear(d) == y && MarchMonth(d) == m
  {
    LeapYearsRepeat(y + 1 - 4800);
    assert MonthStart(0) == 0 && MonthStart(1) == 31 && MonthStart(2) == 61 && MonthStart(3) == 92;
    assert MonthStart(4) == 122 && MonthStart(5) == 153 && MonthStart(6) == 184 && MonthStart(7) == 214;
    assert MonthStart(8) == 245 && MonthStart(9) == 275 && MonthStart(10) == 306 && MonthStart(11) == 337;
    assert MonthStart(12) == 367;
  }

  lemma DateWithNumber(number: int) returns (d: YearMonthDay)
    requires number >= -32044
    ensures InRange(d) && Number(d) == number
  {
    var y, e := YearOf(number + 32044);
    var m, k := MonthOf(e);
    FromMarchIsValid(y, m, k);
    d := FromMarch(y, m, k);
    NumberByMarchYear(d);
  }

  /** From day -32044 on, decoding gives a civil date, and encoding that date gives the day back. */
  lemma NumberRoundTrip(number: int)
    requires number >= -32044
    ensures InRange(GetYearMonthDay(number)) && Number(GetYearMonthDay(number)) == number
  {
    var d := DateWithNumber(number);
    DateRoundTrip(d);
  }

  lemma NegativeDivision(x: int, y: nat)
    requires x < 0 && y in {4, 5, 153, 1461, 146097}
    ensures x <= TruncDiv(x, y) * y <= 0
  {
  }

  /** Before day -32044 truncation breaks the decoder: the day of the month comes out as 0 or less. */
  lemma EarlyNumbersDecodeToNothing(number: int)
    requires number < -32044
    ensures GetYearMonthDay(number).day <= 0
  {
    var a := number + 32044;
    var b := TruncDiv(4 * a + 3, 146097);
    NegativeDivision(4 * a + 3, 146097);
    var c := a - TruncDiv(b * 146097, 4);
    assert c < 0 by {
      if b * 146097 < 0 { NegativeDivision(b * 146097, 4); }
    }
    EarlyDayOfCentury(b, c);
  }

  lemma EarlyDayOfCentury(b: int, c: int)
    requires c < 0
    ensures FromDayOfCentury(b, c).day <= 0
  {
    var d := TruncDiv(4 * c + 3, 1461);
    NegativeDivision(4 * c + 3, 1461);
    var e := c - TruncDiv(1461 * d, 4);
    assert e < 0 by {
      if 1461 * d < 0 { NegativeDivision(1461 * d, 4); }
    }
    assert -367 < e by {
      assert TruncDiv(4 * c + 3, 1461) * 1461 < 4 * c + 3 + 1461;
    }
    EarlyDayOfYear(b, d, e);
  }

  lemma EarlyDayOfYear(b: int, d: int, e: int)
    requires -367 < e < 0
    ensures FromDayOfYear(b, d, e).day <= 0
  {
    var m := TruncDiv(5 * e + 2, 153);
    assert 5 * e + 2 <= 153 * m < 5 * e + 2 + 153;
    assert e < TruncDiv(153 * m + 2, 5) + 1 <= e + 33;
  }

  /** The exact domain of the conversion: a civil date survives encoding and decoding if and only if
      it is not before 1 March -4800. */
  lemma RoundTripExactlyFromFirst(d: YearMonthDay)
    requires ValidDate(d)
    ensures GetYearMonthDay(Number(d)) == d <==> !Before(d, FIRST)
  {
    if !Before(d, FIRST) {
      DateRoundTrip(d);
    } else if Number(d) >= -32044 {
      NumberRoundTrip(Number(d));
    } else {
      EarlyNumbersDecodeToNothing(Number(d));
    }
  }

  /** 29 February -4800 and 1 March -4800 share a day number. */
  lemma EarlyDatesCollide()
    ensures var d := YearMonthDay(-4800, 2, 29);
            ValidDate(d) && Number(d) == Number(FIRST) && GetYearMonthDay(Number(d)) == FIRST
  {
    EarlyNumbers();
    DateRoundTrip(FIRST);
  }

  lemma EarlyNumbers()
    ensures Number(YearMonthDay(-4800, 2, 29)) == -32044 && Number(FIRST) == -32044
  {
    assert GetJulianDayNumber(-4800, 2, 29) == -32044;
    assert GetJulianDayNumber(-4800, 3, 1) == -32044;
  }

  lemma NextDayInRange(d: YearMonthDay)
    requires InRange(d)
    ensures InRange(NextDay(d)) && Before(d, NextDay(d))
  {
  }

  /** The day after `d` in March-based coordinates: the next day of the month, the first of the next
      month, or the first of the next year. */
  lemma NextDayInMarchYear(d: YearMonthDay)
    requires InRange(d)
    ensures InRange(NextDay(d)) && MarchYear(d) >= 0 && 0 <= MarchMonth(d) <= 11
    ensures var n := NextDay(d);
            if d.day < DaysInMonth(d.year, d.month) then
              MarchYear(n) == MarchYear(d) && MarchMonth(n) == MarchMonth(d) && n.day == d.day + 1
            else if d.month != 2 then
              && MarchYear(n) == MarchYear(d) && MarchMonth(n) == MarchMonth(d) + 1 && n.day == 1
              && d.day == MonthStart(MarchMonth(d) + 1) - MonthStart(MarchMonth(d))
            else
              && MarchYear(n) == MarchYear(d) + 1 && MarchMonth(n) == 0 && n.day == 1
              && MonthStart(MarchMonth(d)) + d.day == YearLength(MarchYear(d))
  {
    NextDayInRange(d);
    if d.month == 2 {
      LeapYearsRepeat(d.year);
      assert MarchYear(d) + 1 == d.year + 4800;
    }
  }

  /** Consecutive civil days have consecutive numbers, across month ends, leap days and year ends. */
  lemma NextDayIsNextNumber(d: YearMonthDay)
    requires InRange(d)
    ensures Number(NextDay(d)) == Number(d) + 1
  {
    NextDayInMarchYear(d);
    NumberByMarchYear(d);
    NumberByMarchYear(NextDay(d));
    if d.day == DaysInMonth(d.year, d.month) && d.month == 2 {
      YearStartStep(MarchYear(d));
    }
  }

  lemma {:induction false} YearStartMonotone(y: nat, z: nat)
    requires y <= z
    ensures YearStart(y) <= YearStart(z)
    decreases z
  {
    if y < z {
      YearStartMonotone(y, z - 1);
      YearStartStep(z - 1);
    }
  }

  /** Days counted from the beginning of their years are in the order of year, month and day. */
  lemma EarlierDaySmallerCount(y: nat, m: nat, k: nat, z: nat, n: nat, l: nat)
    requires MonthStart(m) + k < YearLength(y) && k < MonthStart(m + 1) - MonthStart(m)
    requires y < z || (y == z && (m < n || (m == n && k < l)))
    ensures YearStart(y) + MonthStart(m) + k < YearStart(z) + MonthStart(n) + l
  {
    if y < z {
      YearStartStep(y);
      YearStartMonotone(y + 1, z);
    } else if m < n {
      MonthStartMonotone(m + 1, n);
    }
  }

  lemma EarlierDateSmallerNumber(d: YearMonthDay, e: YearMonthDay)
    requires InRange(d) && InRange(e) && Before(d, e)
    ensures Number(d) < Number(e)
  {
    NumberByMarchYear(d);
    NumberByMarchYear(e);
    DayOfYearInYear(d);
    MonthFits(d);
    EarlierDaySmallerCount(MarchYear(d), MarchMonth(d), d.day - 1, MarchYear(e), MarchMonth(e), e.day - 1);
  }

  lemma MonthFits(d: YearMonthDay)
    requires ValidDate(d)
    ensures 0 <= MarchMonth(d) <= 11 && d.day <= MonthStart(MarchMonth(d) + 1) - MonthStart(MarchMonth(d))
  {
  }

  lemma MonthStartMonotone(m: nat, n: nat)
    requires m <= n
    ensures MonthStart(m) <= MonthStart(n)
  {
  }

  /** Comparing day numbers, as operator< on Date does, is comparing civil dates. */
  lemma OrderIsCalendarOrder(d: YearMonthDay, e: YearMonthDay)
    requires InRange(d) && InRange(e)
    ensures Number(d) < Number(e) <==> Before(d, e)
    ensures Number(d) == Number(e) <==> d == e
  {
    if Before(d, e) {
      EarlierDateSmallerNumber(d, e);
    } else if Before(e, d) {
      EarlierDateSmallerNumber(e, d);
    }
  }

  /** The date `n` days after `d`. */
  function DaysLater(d: YearMonthDay, n: nat): YearMonthDay {
    if n == 0 then d else NextDay(DaysLater(d, n - 1))
  }

  lemma {:induction false} DaysLaterNumber(d: YearMonthDay, n: nat)
    requires InRange(d)
    ensures InRange(DaysLater(d, n)) && Number(DaysLater(d, n)) == Number(d) + n
  {
    if n > 0 {
      DaysLaterNumber(d, n - 1);
      NextDayInRange(DaysLater(d, n - 1));
      NextDayIsNextNumber(DaysLater(d, n - 1));
    }
  }

  /** Numbers count days: later by `n` is `n` days later. */
  lemma NumbersCountDays(d: YearMonthDay, e: YearMonthDay, n: nat)
    requires InRange(d) && InRange(e)
    ensures Number(e) == Number(d) + n <==> e == DaysLater(d, n)
  {
    DaysLaterNumber(d, n);
    OrderIsCalendarOrder(e, DaysLater(d, n));
  }

  /** The numbers are the Julian day numbers: day 0 is 24 November -4713 of the Gregorian calendar. */
  lemma JulianDayZero()
    ensures InRange(YearMonthDay(-4713, 11, 24)) && Number(YearMonthDay(-4713, 11, 24)) == 0
    ensures GetYearMonthDay(0) == YearMonthDay(-4713, 11, 24)
  {
    assert GetJulianDayNumber(-4713, 11, 24) == 0;
    DateRoundTrip(YearMonthDay(-4713, 11, 24));
  }

  // ---------------------------------------------------------------- 32-bit arithmetic

  predicate Int32(x: int) {
    -0x8000_0000 <= x < 0x8000_0000
  }

  /** Every int that getYearMonthDay computes from a day number. */
  ghost predicate DecoderFits(number: int) {
    var a := number + 32044;
    var b := TruncDiv(4 * a + 3, 146097);
    var c := a - TruncDiv(b * 146097, 4);
    var d := TruncDiv(4 * c + 3, 1461);
    var e := c - TruncDiv(1461 * d, 4);
    && Int32(a) && Int32(4 * a + 3) && Int32(b * 146097)
    && Int32(4 * c + 3) && Int32(1461 * d) && Int32(5 * e + 2) && Int32(b * 100 + d)
  }

  /** From day -32044 on, no int overflows if and only if 4 a + 3 does not. */
  lemma DecoderFitsExactly(number: int)
    requires -32044 <= number
    ensures DecoderFits(number) <==> number <= 536_838_867
  {
    var a := number + 32044;
    var b := TruncDiv(4 * a + 3, 146097);
    assert 0 <= b * 146097 <= 4 * a + 3 < b * 146097 + 146097;
    var c := a - TruncDiv(b * 146097, 4);
    assert 0 <= c <= 36525;
    var d := TruncDiv(4 * c + 3, 1461);
    assert 0 <= 1461 * d <= 4 * c + 3;
    var e := c - TruncDiv(1461 * d, 4);
    assert 0 <= e <= 366;
  }
}
