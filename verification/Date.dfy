/** Julian day numbers: the closed forms of netlib/base/Date.cc against a calendar
    that is advanced one day at a time. */
module Date {
  import opened CInt

  datatype YearMonthDay = YearMonthDay(year: int, month: int, day: int)

  function GetJulianDayNumber(year: int, month: int, day: int): int {
    var a := Quo(14 - month, 12);
    var y := year + 4800 - a;
    var m := month + 12 * a - 3;
    day + Quo(153 * m + 2, 5) + y * 365 + Quo(y, 4) - Quo(y, 100) + Quo(y, 400) - 32045
  }

  function GetYearMonthDay(julianNumber: int): YearMonthDay {
    var a := julianNumber + 32044;
    var b := Quo(4 * a + 3, 146097);
    var c := a - Quo(b * 146097, 4);
    var d := Quo(4 * c + 3, 1461);
    var e := c - Quo(d * 1461, 4);
    var m := Quo(5 * e + 2, 153);
    YearMonthDay(b * 100 + d - 4800 + Quo(m, 10), m + 3 - 12 * Quo(m, 10), e - Quo(153 * m + 2, 5) + 1)
  }

  function WeekDay(julianNumber: int): int {
    Rem(julianNumber + 1, 7)
  }

  const JULIAN_DAY_OF_1970_01_01 := GetJulianDayNumber(1970, 1, 1)

  // ---- The calendar, counted by hand ----

  predicate IsLeap(year: int) {
    year % 4 == 0 && (year % 100 != 0 || year % 400 == 0)
  }

  function DaysInMonth(year: int, month: int): int
    requires 1 <= month <= 12
  {
    if month == 2 then (if IsLeap(year) then 29 else 28)
    else if month in {4, 6, 9, 11} then 30 else 31
  }

  predicate ValidDate(d: YearMonthDay) {
    1 <= d.month <= 12 && 1 <= d.day <= DaysInMonth(d.year, d.month)
  }

  predicate Before(d: YearMonthDay, e: YearMonthDay) {
    d.year < e.year || (d.year == e.year && (d.month < e.month || (d.month == e.month && d.day < e.day)))
  }

  /** The first date the closed forms are meant for. */
  const FIRST_DATE := YearMonthDay(-4800, 3, 1)
  const FIRST_NUMBER := -32044

  /** A valid date on or after FIRST_DATE. */
  predicate InCalendar(d: YearMonthDay) {
    ValidDate(d) && !Before(d, FIRST_DATE)
  }

  function NextDay(d: YearMonthDay): YearMonthDay
    requires ValidDate(d)
  {
    if d.day < DaysInMonth(d.year, d.month) then d.(day := d.day + 1)
    else if d.month < 12 then YearMonthDay(d.year, d.month + 1, 1)
    else YearMonthDay(d.year + 1, 1, 1)
  }

  /** The date `n` days after FIRST_DATE, by counting. */
  function DateAfter(n: nat): (d: YearMonthDay)
    ensures InCalendar(d)
  {
    if n == 0 then FIRST_DATE else NextDay(DateAfter(n - 1))
  }

  function Number(d: YearMonthDay): int {
    GetJulianDayNumber(d.year, d.month, d.day)
  }

  // ---- March years ----

  /** Days before the first of March that opens the y-th March year after FIRST_DATE. */
  function YearStart(y: int): int {
    365 * y + y / 4 - y / 100 + y / 400
  }

  /** Days before the m-th month of a March year: March is month 0. */
  function MonthStart(m: int): int {
    (153 * m + 2) / 5
  }

  /** The March year of a date, from -4800 on, and the month's position in it. */
  function MarchYear(d: YearMonthDay): (r: (int, int))
    requires InCalendar(d)
    ensures r.0 >= 0 && 0 <= r.1 <= 11
  {
    if d.month <= 2 then (d.year + 4799, d.month + 9) else (d.year + 4800, d.month - 3)
  }

  lemma MarchNumber(d: YearMonthDay)
    requires InCalendar(d)
    ensures var (y, m) := MarchYear(d); Number(d) == d.day + MonthStart(m) + YearStart(y) - 32045
  {
    hide IsLeap;
  }

  lemma MarchLength(d: YearMonthDay)
    requires InCalendar(d)
    ensures var (y, m) := MarchYear(d);
            DaysInMonth(d.year, d.month) ==
            if m < 11 then MonthStart(m + 1) - MonthStart(m) else if IsLeap(y + 1 - 4800) then 29 else 28
  {
    hide IsLeap;
  }

  /** The inverse of MarchYear. */
  lemma FromMarch(y: int, m: int, day: int)
    requires y >= 0 && 0 <= m <= 11 && day >= 1
    requires m < 11 ==> day <= MonthStart(m + 1) - MonthStart(m)
    requires m == 11 ==> day <= if IsLeap(y + 1 - 4800) then 29 else 28
    ensures var d := YearMonthDay(y - 4800 + m / 10, m + 3 - 12 * (m / 10), day);
            InCalendar(d) && Number(d) == day + MonthStart(m) + YearStart(y) - 32045
  {
    hide YearStart, IsLeap, Number;
    var d := YearMonthDay(y - 4800 + m / 10, m + 3 - 12 * (m / 10), day);
    assert MarchYear(d) == (y, m);
    MarchNumber(d);
  }

  lemma MonthLengths()
    ensures MonthStart(0) == 0 && MonthStart(11) == 337
  {
  }

  lemma MonthStartMonotone(m: int, n: int)
    requires m <= n
    ensures MonthStart(m) <= MonthStart(n)
  {
  }

  lemma YearStartStep(y: int)
    ensures YearStart(y + 1) == YearStart(y) + if IsLeap(y + 1 - 4800) then 366 else 365
  {
    Carry4(y);
    Carry100(y);
    Carry400(y);
    LeapShift(y + 1);
    Divides400(y + 1);
    Divides100(y + 1);
  }

  lemma Carry4(y: int)
    ensures (y + 1) / 4 == y / 4 + if (y + 1) % 4 == 0 then 1 else 0
  {
  }

  lemma Carry100(y: int)
    ensures (y + 1) / 100 == y / 100 + if (y + 1) % 100 == 0 then 1 else 0
  {
  }

  lemma Carry400(y: int)
    ensures (y + 1) / 400 == y / 400 + if (y + 1) % 400 == 0 then 1 else 0
  {
  }

  lemma Mod4(n: int, q: int, r: int)
    requires n == 4 * q + r && 0 <= r < 4
    ensures n % 4 == r && n / 4 == q
  {
  }

  lemma Mod100(n: int, q: int, r: int)
    requires n == 100 * q + r && 0 <= r < 100
    ensures n % 100 == r && n / 100 == q
  {
  }

  lemma Mod400(n: int, q: int, r: int)
    requires n == 400 * q + r && 0 <= r < 400
    ensures n % 400 == r && n / 400 == q
  {
  }

  lemma Divides400(n: int)
    ensures n % 400 == 0 ==> n % 100 == 0
  {
    if n % 400 == 0 {
      Mod100(n, 4 * (n / 400), 0);
    }
  }

  lemma Divides100(n: int)
    ensures n % 100 == 0 ==> n % 4 == 0
  {
    if n % 100 == 0 {
      Mod4(n, 25 * (n / 100), 0);
    }
  }

  lemma LeapShift(y: int)
    ensures IsLeap(y - 4800) == IsLeap(y)
  {
    assert (y - 4800) % 4 == y % 4 by { Mod4(y - 4800, y / 4 - 1200, y % 4); }
    assert (y - 4800) % 100 == y % 100 by { Mod100(y - 4800, y / 100 - 48, y % 100); }
    assert (y - 4800) % 400 == y % 400 by { Mod400(y - 4800, y / 400 - 12, y % 400); }
  }

  lemma {:induction false} YearStartMonotone(y: int, z: int)
    requires y < z
    ensures YearStart(y) + (if IsLeap(y + 1 - 4800) then 366 else 365) <= YearStart(z)
    decreases z - y
  {
    hide IsLeap, YearStart;
    YearStartStep(y);
    if y + 1 < z {
      YearStartMonotone(y + 1, z);
    }
  }

  // ---- The number counts days ----

  /** One calendar day is one number, across every month and year end. */
  lemma NextDayIsNextNumber(d: YearMonthDay)
    requires InCalendar(d)
    ensures InCalendar(NextDay(d)) && Number(NextDay(d)) == Number(d) + 1
  {
    hide Number, YearStart, MonthStart, IsLeap;
    var (y, m) := MarchYear(d);
    var (z, n) := MarchYear(NextDay(d));
    MarchNumber(d);
    MarchLength(d);
    MarchNumber(NextDay(d));
    MonthLengths();
    if d.day == DaysInMonth(d.year, d.month) {
      if m == 11 {
        YearStartStep(y);
        assert z == y + 1 && n == 0;
      } else {
        assert z == y && n == m + 1;
      }
    }
  }

  lemma MarchOrder(d: YearMonthDay, e: YearMonthDay)
    requires InCalendar(d) && InCalendar(e) && Before(d, e)
    ensures var (y, m) := MarchYear(d); var (z, n) := MarchYear(e);
            y < z || (y == z && (m < n || (m == n && d.day < e.day)))
  {
    hide DaysInMonth;
  }

  lemma NumberIncreases(d: YearMonthDay, e: YearMonthDay)
    requires InCalendar(d) && InCalendar(e) && Before(d, e)
    ensures Number(d) < Number(e)
  {
    hide Number, YearStart, IsLeap, MonthStart, MarchYear, Before;
    var (y, m) := MarchYear(d);
    var (z, n) := MarchYear(e);
    MarchOrder(d, e);
    MarchNumber(d);
    MarchLength(d);
    MarchNumber(e);
    MonthLengths();
    if y < z {
      YearStartMonotone(y, z);
      MonthStartMonotone(0, n);
      if m < 11 {
        MonthStartMonotone(m + 1, 11);
      }
    } else if m < n {
      MonthStartMonotone(m + 1, n);
    }
  }

  /** The number is strictly monotone in (year, month, day). */
  lemma NumberMonotone(d: YearMonthDay, e: YearMonthDay)
    requires InCalendar(d) && InCalendar(e)
    ensures Before(d, e) <==> Number(d) < Number(e)
  {
    hide Number;
    if Before(d, e) {
      NumberIncreases(d, e);
    } else if d != e {
      NumberIncreases(e, d);
    }
  }

  // ---- The inverse ----

  lemma SplitCenturies(a: int) returns (b: int, c: int)
    requires a >= 0
    ensures b == Quo(4 * a + 3, 146097) && c == a - Quo(b * 146097, 4)
    ensures b >= 0 && 0 <= c <= 36524 && (c == 36524 ==> b % 4 == 3)
    ensures a == c + 36524 * b + b / 4
  {
    b := (4 * a + 3) / 146097;
    c := a - b * 146097 / 4;
  }

  lemma SplitYears(c: int) returns (d: int, e: int)
    requires 0 <= c <= 36524
    ensures d == Quo(4 * c + 3, 1461) && e == c - Quo(d * 1461, 4)
    ensures 0 <= d <= 99 && 0 <= e <= 365
    ensures e == 365 ==> d % 4 == 3 && (d == 99 ==> c == 36524)
    ensures c == e + 365 * d + d / 4
  {
    d := (4 * c + 3) / 1461;
    e := c - d * 1461 / 4;
  }

  lemma SplitMonths(e: int) returns (m: int)
    requires 0 <= e <= 365
    ensures m == Quo(5 * e + 2, 153) && 0 <= m <= 11
    ensures MonthStart(m) <= e && (m < 11 ==> e < MonthStart(m + 1))
    ensures Quo(153 * m + 2, 5) == MonthStart(m) && Quo(m, 10) == m / 10
  {
    m := (5 * e + 2) / 153;
  }

  /** The century, year of the century, day of the March year and month that GetYearMonthDay finds. */
  lemma Decompose(j: int) returns (b: int, d: int, e: int, m: int)
    requires j >= FIRST_NUMBER
    ensures b >= 0 && 0 <= d <= 99 && 0 <= e <= 365 && 0 <= m <= 11
    ensures j + 32044 == e + 365 * d + d / 4 + 36524 * b + b / 4
    ensures e == 365 ==> d % 4 == 3 && (d == 99 ==> b % 4 == 3)
    ensures MonthStart(m) <= e && (m < 11 ==> e < MonthStart(m + 1))
    ensures GetYearMonthDay(j) == YearMonthDay(100 * b + d - 4800 + m / 10, m + 3 - 12 * (m / 10), e - MonthStart(m) + 1)
  {
    hide Quo, MonthStart;
    var c;
    b, c := SplitCenturies(j + 32044);
    d, e := SplitYears(c);
    m := SplitMonths(e);
  }

  lemma YearsOfCentury(b: int, d: int)
    requires b >= 0 && 0 <= d <= 99
    ensures YearStart(100 * b + d) == 36524 * b + b / 4 + 365 * d + d / 4
  {
    var y := 100 * b + d;
    Mod4(y, 25 * b + d / 4, d % 4);
    Mod100(y, b, d);
    Mod400(y, b / 4, 100 * (b % 4) + d);
  }

  lemma LongYear(b: int, d: int)
    requires b >= 0 && 0 <= d <= 99
    ensures d == 99 ==> (IsLeap(100 * b + d + 1 - 4800) <==> b % 4 == 3)
    ensures d < 99 ==> (IsLeap(100 * b + d + 1 - 4800) <==> d % 4 == 3)
  {
    var y := 100 * b + d + 1;
    LeapShift(y);
    Carry4(d);
    Mod4(y, 25 * b + (d + 1) / 4, (d + 1) % 4);
    if d < 99 {
      Mod100(y, b, d + 1);
    } else {
      Mod100(y, b + 1, 0);
      Carry4(b);
      Mod400(y, (b + 1) / 4, 100 * ((b + 1) % 4));
    }
  }

  /** From FIRST_NUMBER on, every number is a valid date that maps back to the number. */
  lemma NumberRoundTrip(j: int)
    requires j >= FIRST_NUMBER
    ensures InCalendar(GetYearMonthDay(j))
    ensures Number(GetYearMonthDay(j)) == j
  {
    hide GetYearMonthDay, YearStart, IsLeap, Number, MonthStart;
    var b, d, e, m := Decompose(j);
    LongYear(b, d);
    YearsOfCentury(b, d);
    MonthLengths();
    FromMarch(100 * b + d, m, e - MonthStart(m) + 1);
  }

  lemma NegativeStaysInvalid(j: int)
    requires j < FIRST_NUMBER
    ensures GetYearMonthDay(j).day <= 0
  {
    var a := j + 32044;
    var b := Quo(4 * a + 3, 146097);
    var c := a - Quo(b * 146097, 4);
    assert c < 0 by { RoundsUp(a, 146097); }
    var d := Quo(4 * c + 3, 1461);
    var e := c - Quo(d * 1461, 4);
    assert e < 0 by { RoundsUp(c, 1461); }
    var m := Quo(5 * e + 2, 153);
    assert e - Quo(153 * m + 2, 5) + 1 <= 0 by { hide Quo; MonthRoundsUp(e); }
    hide Quo;
  }

  lemma RoundsUp(a: int, k: int)
    requires a < 0 && k in {146097, 1461}
    ensures a - Quo(Quo(4 * a + 3, k) * k, 4) < 0
  {
    if k == 1461 {
      assert Quo(4 * a + 3, 1461) * 1461 >= 4 * a + 3;
    } else {
      assert Quo(4 * a + 3, 146097) * 146097 >= 4 * a + 3;
    }
  }

  lemma MonthRoundsUp(e: int)
    requires e < 0
    ensures e - Quo(153 * Quo(5 * e + 2, 153) + 2, 5) + 1 <= 0
  {
    assert 153 * Quo(5 * e + 2, 153) >= 5 * e + 2;
  }

  /** Below FIRST_NUMBER the truncating divisions never produce a date. */
  lemma ValidDateIff(j: int)
    ensures ValidDate(GetYearMonthDay(j)) <==> j >= FIRST_NUMBER
  {
    hide GetYearMonthDay, DaysInMonth;
    if j >= FIRST_NUMBER {
      NumberRoundTrip(j);
    } else {
      NegativeStaysInvalid(j);
    }
  }

  lemma FirstNumber()
    ensures InCalendar(FIRST_DATE) && Number(FIRST_DATE) == FIRST_NUMBER
  {
  }

  /** A valid date maps to its number and back exactly from FIRST_DATE on. */
  lemma DateRoundTripIff(d: YearMonthDay)
    requires ValidDate(d)
    ensures GetYearMonthDay(Number(d)) == d <==> !Before(d, FIRST_DATE)
  {
    var j := Number(d);
    hide Number, GetYearMonthDay, DaysInMonth;
    FirstNumber();
    if j < FIRST_NUMBER {
      ValidDateIff(j);
      if InCalendar(d) {
        NumberMonotone(d, FIRST_DATE);
      }
    } else {
      NumberRoundTrip(j);
      if InCalendar(d) {
        NumberMonotone(d, GetYearMonthDay(j));
        NumberMonotone(GetYearMonthDay(j), d);
      }
    }
  }

  /** Both closed forms agree with counting days from FIRST_DATE. */
  lemma {:induction false} ClosedFormsCountDays(n: nat)
    ensures Number(DateAfter(n)) == FIRST_NUMBER + n
    ensures GetYearMonthDay(FIRST_NUMBER + n) == DateAfter(n)
  {
    hide Number, GetYearMonthDay, NextDay, DaysInMonth;
    if n == 0 {
      FirstNumber();
    } else {
      ClosedFormsCountDays(n - 1);
      NextDayIsNextNumber(DateAfter(n - 1));
    }
    DateRoundTripIff(DateAfter(n));
  }
}
