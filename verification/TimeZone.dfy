/** UTC fields and local time of netlib/base/TimeZone.cc. */
module TimeZone {
  import opened CInt
  import opened Date

  const SECONDS_PER_DAY := 86400

  /** The members of struct tm that TimeZone.cc fills, without the zone name. */
  datatype Tm = Tm(sec: int, min: int, hour: int, mday: int, mon: int, year: int,
                   wday: int, yday: int, isdst: int, gmtoff: int)

  // ---- UTC ----

  function FillHMS(seconds: int, t: Tm): Tm {
    var minutes := Quo(seconds, 60);
    t.(sec := Rem(seconds, 60), min := Rem(minutes, 60), hour := Quo(minutes, 60))
  }

  /** The second of the day and the days since the epoch. */
  function SplitDay(secondsSinceEpoch: int): (int, int) {
    var r := Rem(secondsSinceEpoch, SECONDS_PER_DAY);
    var q := Quo(secondsSinceEpoch, SECONDS_PER_DAY);
    if r < 0 then (r + SECONDS_PER_DAY, q - 1) else (r, q)
  }

  function ToUtcTime(secondsSinceEpoch: int, yday: bool): Tm {
    var (seconds, days) := SplitDay(secondsSinceEpoch);
    var number := days + JULIAN_DAY_OF_1970_01_01;
    var ymd := GetYearMonthDay(number);
    FillHMS(seconds, Tm(0, 0, 0, 0, 0, 0, 0, 0, 0, 0)).(
      year := ymd.year - 1900, mon := ymd.month - 1, mday := ymd.day, wday := WeekDay(number),
      yday := if yday then number - GetJulianDayNumber(ymd.year, 1, 1) else 0)
  }

  function FromUtcTime(utc: Tm): int {
    var day := GetJulianDayNumber(utc.year + 1900, utc.mon + 1, utc.mday) - JULIAN_DAY_OF_1970_01_01;
    day * SECONDS_PER_DAY + (utc.hour * 3600 + utc.min * 60 + utc.sec)
  }

  /** The Julian day of an instant, rounding toward the past. */
  function DayOf(t: int): int {
    t / SECONDS_PER_DAY + JULIAN_DAY_OF_1970_01_01
  }

  predicate DayInRange(t: int) {
    DayOf(t) >= FIRST_NUMBER
  }

  function DateOf(tm: Tm): YearMonthDay {
    YearMonthDay(tm.year + 1900, tm.mon + 1, tm.mday)
  }

  predicate ValidClock(tm: Tm) {
    0 <= tm.hour <= 23 && 0 <= tm.min <= 59 && 0 <= tm.sec <= 59
  }

  predicate ValidTm(tm: Tm) {
    ValidDate(DateOf(tm)) && ValidClock(tm)
  }

  predicate SameFields(a: Tm, b: Tm) {
    DateOf(a) == DateOf(b) && a.hour == b.hour && a.min == b.min && a.sec == b.sec
  }

  /** Lexicographic order of the fields. */
  predicate TmBefore(a: Tm, b: Tm) {
    Before(DateOf(a), DateOf(b)) ||
    (DateOf(a) == DateOf(b) &&
     (a.hour < b.hour || (a.hour == b.hour && (a.min < b.min || (a.min == b.min && a.sec < b.sec)))))
  }

  function SecondOfDay(tm: Tm): int {
    tm.hour * 3600 + tm.min * 60 + tm.sec
  }

  /** The truncating division of ToUtcTime ends up rounding toward the past. */
  lemma UtcParts(t: int, yday: bool)
    ensures var tm := ToUtcTime(t, yday);
            DateOf(tm) == GetYearMonthDay(DayOf(t)) && ValidClock(tm) && SecondOfDay(tm) == t % SECONDS_PER_DAY
  {
    hide GetYearMonthDay, GetJulianDayNumber, WeekDay, SplitDay, FillHMS, Before, DaysInMonth;
    SplitDayRoundsDown(t);
    FillHMSClock(t % SECONDS_PER_DAY, Tm(0, 0, 0, 0, 0, 0, 0, 0, 0, 0));
  }

  lemma SplitDayRoundsDown(t: int)
    ensures SplitDay(t) == (t % SECONDS_PER_DAY, t / SECONDS_PER_DAY)
  {
  }

  lemma FillHMSClock(seconds: int, tm: Tm)
    requires 0 <= seconds < SECONDS_PER_DAY
    ensures ValidClock(FillHMS(seconds, tm)) && SecondOfDay(FillHMS(seconds, tm)) == seconds
  {
  }

  /** Fields back to the instant, before and after 1970. */
  lemma UtcRoundTrip(t: int, yday: bool)
    requires DayInRange(t)
    ensures FromUtcTime(ToUtcTime(t, yday)) == t
  {
    hide ToUtcTime, GetYearMonthDay, GetJulianDayNumber;
    UtcParts(t, yday);
    NumberRoundTrip(DayOf(t));
  }

  /** Valid fields come out exactly when the day is in range. */
  lemma UtcFieldsValidIff(t: int, yday: bool)
    ensures ValidTm(ToUtcTime(t, yday)) <==> DayInRange(t)
  {
    hide ToUtcTime, GetYearMonthDay, GetJulianDayNumber, ValidDate;
    UtcParts(t, yday);
    ValidDateIff(DayOf(t));
  }

  /** Every valid set of fields from FIRST_DATE on is the fields of its instant. */
  lemma FieldsRoundTrip(tm: Tm, yday: bool)
    requires ValidTm(tm) && InCalendar(DateOf(tm))
    ensures DayInRange(FromUtcTime(tm))
    ensures SameFields(ToUtcTime(FromUtcTime(tm), yday), tm)
  {
    hide ToUtcTime, GetYearMonthDay, GetJulianDayNumber, InCalendar, ValidDate;
    var t := FromUtcTime(tm);
    var j := Number(DateOf(tm));
    var s := SecondOfDay(tm);
    assert DayOf(t) == j && t % SECONDS_PER_DAY == s by {
      assert t == (j - JULIAN_DAY_OF_1970_01_01) * SECONDS_PER_DAY + s && 0 <= s < SECONDS_PER_DAY;
    }
    DateRoundTrip(DateOf(tm));
    UtcParts(t, yday);
    SameClock(ToUtcTime(t, yday), tm);
  }

  lemma DateRoundTrip(d: YearMonthDay)
    requires InCalendar(d)
    ensures GetYearMonthDay(Number(d)) == d && Number(d) >= FIRST_NUMBER
  {
    hide GetYearMonthDay, Number, DaysInMonth;
    DateRoundTripIff(d);
    ValidDateIff(Number(d));
  }

  lemma SameClock(a: Tm, b: Tm)
    requires ValidClock(a) && ValidClock(b) && SecondOfDay(a) == SecondOfDay(b)
    ensures a.hour == b.hour && a.min == b.min && a.sec == b.sec
  {
  }

  lemma ClockOrder(a: Tm, b: Tm)
    requires ValidClock(a) && ValidClock(b) && DateOf(a) == DateOf(b)
    ensures TmBefore(a, b) <==> SecondOfDay(a) < SecondOfDay(b)
  {
    hide Before;
    assert !Before(DateOf(a), DateOf(b)) by { BeforeIrreflexive(DateOf(a)); }
  }

  lemma BeforeIrreflexive(d: YearMonthDay)
    ensures !Before(d, d)
  {
  }

  /** Later instants have later fields, and the other way round. */
  lemma UtcMonotone(t: int, u: int, yday: bool)
    requires DayInRange(t) && DayInRange(u)
    ensures t < u <==> TmBefore(ToUtcTime(t, yday), ToUtcTime(u, yday))
  {
    hide ToUtcTime, GetYearMonthDay, GetJulianDayNumber, InCalendar, Before, Number, ValidClock, SecondOfDay;
    UtcParts(t, yday);
    UtcParts(u, yday);
    NumberRoundTrip(DayOf(t));
    NumberRoundTrip(DayOf(u));
    NumberMonotone(GetYearMonthDay(DayOf(t)), GetYearMonthDay(DayOf(u)));
    if DayOf(t) == DayOf(u) {
      ClockOrder(ToUtcTime(t, yday), ToUtcTime(u, yday));
    }
  }

  // ---- Day of the year and day of the week ----

  function DaysBefore(year: int, month: int): int
    requires 1 <= month <= 12
  {
    if month == 1 then 0 else DaysBefore(year, month - 1) + DaysInMonth(year, month - 1)
  }

  /** The zero-based day of the year, by adding up months. */
  function OrdinalDay(d: YearMonthDay): int
    requires ValidDate(d)
  {
    DaysBefore(d.year, d.month) + d.day - 1
  }

  lemma {:induction false} MonthsAddUp(year: int, first: int, month: int)
    requires 1 <= first <= month <= 12 && InCalendar(YearMonthDay(year, first, 1))
    ensures Number(YearMonthDay(year, month, 1)) - Number(YearMonthDay(year, first, 1))
         == DaysBefore(year, month) - DaysBefore(year, first)
    decreases month - first
  {
    if first < month {
      var last := DaysInMonth(year, first);
      NextDayIsNextNumber(YearMonthDay(year, first, last));
      DayIsLinear(YearMonthDay(year, first, last));
      hide Number, DaysInMonth;
      MonthsAddUp(year, first + 1, month);
      assert DaysBefore(year, first + 1) == DaysBefore(year, first) + last;
    }
  }

  lemma DayIsLinear(d: YearMonthDay)
    ensures Number(d) == Number(d.(day := 1)) + d.day - 1
  {
  }

  /** The day of the year counts days from the first of January, except in year -4800,
      whose January lies before the range of the closed form: there it is one short. */
  lemma YdayIff(t: int)
    requires DayInRange(t)
    ensures var tm := ToUtcTime(t, true); var d := DateOf(tm);
            && ValidDate(d) && (tm.yday == OrdinalDay(d) <==> d.year >= -4799)
            && (d.year == -4800 ==> tm.yday == OrdinalDay(d) - 1)
    ensures 0 <= ToUtcTime(t, true).yday <= 365
  {
    var tm, d := ToUtcTime(t, true), DateOf(ToUtcTime(t, true));
    assert d == GetYearMonthDay(DayOf(t)) by { hide ToUtcTime, GetYearMonthDay; UtcParts(t, true); }
    assert tm.yday == DayOf(t) - Number(YearMonthDay(d.year, 1, 1)) by {
      hide GetYearMonthDay, GetJulianDayNumber, WeekDay, FillHMS;
    }
    hide ToUtcTime, GetYearMonthDay, GetJulianDayNumber;
    NumberRoundTrip(DayOf(t));
    var first := if d.year >= -4799 then 1 else 3;
    MonthsAddUp(d.year, first, d.month);
    DayIsLinear(d);
    MonthTable(d.year);
    if d.year == -4800 {
      YearMinus4800();
    }
  }

  lemma MonthTable(year: int)
    ensures forall m | 1 <= m <= 12 :: 0 <= DaysBefore(year, m) && DaysBefore(year, m) + DaysInMonth(year, m) <= 366
    ensures DaysBefore(year, 3) == if IsLeap(year) then 60 else 59
  {
    hide IsLeap;
    var j := if IsLeap(year) then 1 else 0;
    assert DaysBefore(year, 2) == 31;
    assert DaysBefore(year, 3) == 59 + j;
    assert DaysBefore(year, 4) == 90 + j;
    assert DaysBefore(year, 5) == 120 + j;
    assert DaysBefore(year, 6) == 151 + j;
    assert DaysBefore(year, 7) == 181 + j;
    assert DaysBefore(year, 8) == 212 + j;
    assert DaysBefore(year, 9) == 243 + j;
    assert DaysBefore(year, 10) == 273 + j;
    assert DaysBefore(year, 11) == 304 + j;
    assert DaysBefore(year, 12) == 334 + j;
  }

  lemma YearMinus4800()
    ensures IsLeap(-4800)
    ensures Number(YearMonthDay(-4800, 3, 1)) == Number(YearMonthDay(-4800, 1, 1)) + 59
  {
  }

  /** Each day is the next day of the week, and 1970 began on a Thursday. */
  lemma WeekDayCycles(j: int)
    requires j >= -1
    ensures WeekDay(j + 1) == (WeekDay(j) + 1) % 7
    ensures WeekDay(JULIAN_DAY_OF_1970_01_01) == 4
  {
    EpochNumber();
    hide GetJulianDayNumber;
  }

  /** tm_wday counts on from Thursday, the first of January 1970, exactly where the remainder is not negative;
      the members that are not asked for stay 0. */
  lemma UtcWdayIff(t: int, yday: bool)
    ensures ToUtcTime(t, yday).wday == (t / SECONDS_PER_DAY + 4) % 7 <==> DayOf(t) >= -1 || (DayOf(t) + 1) % 7 == 0
    ensures ToUtcTime(t, yday).isdst == 0 && ToUtcTime(t, yday).gmtoff == 0 && ToUtcTime(t, false).yday == 0
  {
    hide GetYearMonthDay, GetJulianDayNumber, WeekDay, SplitDay;
    SplitDayRoundsDown(t);
    EpochNumber();
    WeekDayIff(DayOf(t));
    assert (DayOf(t) + 1) % 7 == (t / SECONDS_PER_DAY + 4) % 7;
  }

  lemma EpochNumber()
    ensures JULIAN_DAY_OF_1970_01_01 == 2440588
  {
  }

  /** The day of the week cycles from Sunday at 0 exactly where the remainder is not negative. */
  lemma WeekDayIff(j: int)
    ensures WeekDay(j) == (j + 1) % 7 <==> j >= -1 || (j + 1) % 7 == 0
    ensures 0 <= WeekDay(j) <= 6 <==> j >= -1 || (j + 1) % 7 == 0
  {
  }
}
