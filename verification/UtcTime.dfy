/** Civil time in UTC: toUtcTime(), fromUtcTime() and fillHMS() of muduo-vip/muduo/base/TimeZone.cc. */
module UtcTime {
  import opened Calendar

  const SECONDS_PER_DAY := 24 * 60 * 60

  /** struct tm, as far as it is used: months from zero, years from 1900. */
  datatype Tm = Tm(sec: int, min: int, hour: int, mday: int, mon: int, year: int, wday: int, yday: int)

  function DateOf(utc: Tm): YearMonthDay {
    YearMonthDay(utc.year + 1900, utc.mon + 1, utc.mday)
  }

  predicate ValidTm(utc: Tm) {
    Valid(DateOf(utc)) && 0 <= utc.hour < 24 && 0 <= utc.min < 60 && 0 <= utc.sec < 60
  }

  function ClockSeconds(utc: Tm): int {
    utc.hour * 3600 + utc.min * 60 + utc.sec
  }

  /** The moment `seconds` into the day of a given number. */
  function Moment(julianDayNumber: int, seconds: int): int {
    (julianDayNumber - JULIAN_DAY_OF_1970_01_01) * SECONDS_PER_DAY + seconds
  }

  function FromUtcTime(utc: Tm): int {
    Moment(JulianDayNumber(DateOf(utc)), ClockSeconds(utc))
  }

  /** Date::weekDay(): the remainder of C. */
  function WeekDay(julianDayNumber: int): int {
    Rem(julianDayNumber + 1, 7)
  }

  /** The moments of the days that the source can number. */
  predicate Representable(t: int) {
    -32044 <= t / SECONDS_PER_DAY + JULIAN_DAY_OF_1970_01_01 <= LAST_NUMBER
  }

  /** Where the clock stands within a day. */
  method FillHMS(seconds: int, zero: Tm) returns (utc: Tm)
    requires 0 <= seconds < SECONDS_PER_DAY
    ensures ClockSeconds(utc) == seconds
    ensures 0 <= utc.hour < 24 && 0 <= utc.min < 60 && 0 <= utc.sec < 60
    ensures utc == zero.(sec := utc.sec, min := utc.min, hour := utc.hour)
  {
    utc := zero.(sec := seconds % 60);
    var minutes := seconds / 60;
    utc := utc.(min := minutes % 60);
    utc := utc.(hour := minutes / 60);
  }

  /** The day and the second of a moment, by the divisions of C and their correction. */
  method SplitMoment(t: int) returns (days: int, seconds: int)
    ensures days == t / SECONDS_PER_DAY && seconds == t % SECONDS_PER_DAY
  {
    seconds := Rem(t, SECONDS_PER_DAY);
    days := Quot(t, SECONDS_PER_DAY);
    if seconds < 0 {
      seconds := seconds + SECONDS_PER_DAY;
      days := days - 1;
    }
  }

  /** The date fields, from the number of the day. */
  method FillDate(number: int, clock: Tm, yday: bool) returns (utc: Tm)
    requires -32044 <= number <= LAST_NUMBER
    ensures utc == clock.(year := utc.year, mon := utc.mon, mday := utc.mday, wday := utc.wday, yday := utc.yday)
    ensures Valid(DateOf(utc)) && JulianDayNumber(DateOf(utc)) == number
    ensures utc.wday == WeekDay(number)
    ensures yday ==> utc.yday == number - JulianDayNumber(YearMonthDay(utc.year + 1900, 1, 1))
  {
    NumberRoundTrip(number);
    var ymd := FromJulianDayNumber(number);
    utc := clock.(year := ymd.year - 1900);
    utc := utc.(mon := ymd.month - 1);
    utc := utc.(mday := ymd.day);
    utc := utc.(wday := WeekDay(number));
    if yday {
      utc := utc.(yday := number - JulianDayNumber(YearMonthDay(ymd.year, 1, 1)));
    }
    assert DateOf(utc) == ymd;
  }

  /** The civil time of every moment, before the epoch or after it, is the one that converts back to it. */
  method ToUtcTime(t: int, yday: bool) returns (utc: Tm)
    requires Representable(t)
    ensures ValidTm(utc) && FromUtcTime(utc) == t
    ensures utc.wday == WeekDay(t / SECONDS_PER_DAY + JULIAN_DAY_OF_1970_01_01)
    ensures yday ==> utc.yday == JulianDayNumber(DateOf(utc)) - JulianDayNumber(YearMonthDay(utc.year + 1900, 1, 1))
  {
    utc := Tm(0, 0, 0, 0, 0, 0, 0, 0);
    var days, seconds := SplitMoment(t);
    utc := FillHMS(seconds, utc);
    utc := FillDate(days + JULIAN_DAY_OF_1970_01_01, utc, yday);
    MomentOf(t, days + JULIAN_DAY_OF_1970_01_01, seconds);
  }

  lemma MomentOf(t: int, number: int, seconds: int)
    requires number == t / SECONDS_PER_DAY + JULIAN_DAY_OF_1970_01_01 && seconds == t % SECONDS_PER_DAY
    ensures Moment(number, seconds) == t
  {
  }

  lemma MomentsOrdered(j: int, s: int, k: int, u: int)
    requires 0 <= s < SECONDS_PER_DAY && 0 <= u < SECONDS_PER_DAY
    ensures Moment(j, s) < Moment(k, u) <==> j < k || (j == k && s < u)
    ensures Moment(j, s) == Moment(k, u) <==> j == k && s == u
  {
  }

  lemma ClockWithinDay(utc: Tm)
    requires ValidTm(utc)
    ensures 0 <= ClockSeconds(utc) < SECONDS_PER_DAY
  {
  }

  lemma SameClock(a: Tm, b: Tm)
    requires ValidTm(a) && ValidTm(b) && ClockSeconds(a) == ClockSeconds(b)
    ensures a.hour == b.hour && a.min == b.min && a.sec == b.sec
  {
  }

  /** No two civil times are the same moment, so the other round trip holds too. */
  lemma CivilTimeUnique(a: Tm, b: Tm)
    requires ValidTm(a) && ValidTm(b) && FromUtcTime(a) == FromUtcTime(b)
    ensures DateOf(a) == DateOf(b) && a.hour == b.hour && a.min == b.min && a.sec == b.sec
  {
    ClockWithinDay(a);
    ClockWithinDay(b);
    MomentsOrdered(JulianDayNumber(DateOf(a)), ClockSeconds(a), JulianDayNumber(DateOf(b)), ClockSeconds(b));
    SameClock(a, b);
    DateRoundTrip(DateOf(a));
    DateRoundTrip(DateOf(b));
  }

  /** A later second is a later civil time. */
  lemma CivilTimeOrdered(a: Tm, b: Tm)
    requires ValidTm(a) && ValidTm(b)
    ensures FromUtcTime(a) < FromUtcTime(b) <==>
            Earlier(DateOf(a), DateOf(b)) || (DateOf(a) == DateOf(b) && ClockSeconds(a) < ClockSeconds(b))
  {
    ClockWithinDay(a);
    ClockWithinDay(b);
    MomentsOrdered(JulianDayNumber(DateOf(a)), ClockSeconds(a), JulianDayNumber(DateOf(b)), ClockSeconds(b));
    NumbersAreOrdered(DateOf(a), DateOf(b));
    NumbersAreOrdered(DateOf(b), DateOf(a));
  }

  lemma WeekDayFrom(j: int)
    requires j >= -1
    ensures WeekDay(j) == (j + 1) % 7
  {
  }

  lemma NextOfSeven(k: nat)
    ensures (k + 1) % 7 == (k % 7 + 1) % 7
  {
  }

  /** The days of the week follow one another, from 1970-01-01, a Thursday, on. */
  lemma WeekDaysFollow(j: int)
    requires j >= -1
    ensures WeekDay(JULIAN_DAY_OF_1970_01_01) == 4
    ensures 0 <= WeekDay(j) < 7 && WeekDay(j + 1) == (WeekDay(j) + 1) % 7
  {
    WeekDayFrom(j);
    WeekDayFrom(j + 1);
    NextOfSeven(j + 1);
  }

  /** Before day -1 the remainder is taken towards zero, and names a day only every seventh time. */
  lemma WeekDayNamed(j: int)
    ensures 0 <= WeekDay(j) < 7 <==> j >= -1 || (j + 1) % 7 == 0
  {
  }

  // ----- the day of the year -----

  /** The days of a year before its month `month`, by adding up the months. */
  function DaysBefore(year: int, month: nat): nat {
    if month <= 1 then 0 else DaysBefore(year, month - 1) + DaysIn(year, month - 1)
  }

  lemma NextMonthNumber(year: int, month: nat)
    requires 1 <= month < 12 && Valid(YearMonthDay(year, month, 1))
    ensures NumberBefore(year, month + 1) == NumberBefore(year, month) + DaysIn(year, month)
  {
    NextDayNumber(YearMonthDay(year, month, DaysIn(year, month)));
  }

  /** The year -4800 is numbered one day short before its March. */
  lemma FirstMarch(year: int)
    requires year == -4800
    ensures NumberBefore(year, 3) - NumberBefore(year, 1) == 59 && DaysBefore(year, 3) == 60
  {
    assert DaysBefore(year, 2) == 31;
  }

  /** Months numbered one after the other add up. */
  lemma {:induction false} MonthsAddUp(year: int, number: int -> int, first: nat, month: nat)
    requires 1 <= first <= month
    requires forall k :: first <= k < month ==> number(k + 1) == number(k) + DaysIn(year, k)
    ensures number(month) - number(first) == DaysBefore(year, month) - DaysBefore(year, first)
  {
    if month > first {
      MonthsAddUp(year, number, first, month - 1);
    }
  }

  lemma MonthsNumbered(year: int, first: nat, month: nat)
    requires 1 <= first <= month <= 12 && Valid(YearMonthDay(year, first, 1))
    ensures NumberBefore(year, month) - NumberBefore(year, first) == DaysBefore(year, month) - DaysBefore(year, first)
  {
    forall k: nat | first <= k < month
      ensures NumberBefore(year, k + 1) == NumberBefore(year, k) + DaysIn(year, k)
    {
      NextMonthNumber(year, k);
    }
    MonthsAddUp(year, k => NumberBefore(year, k), first, month);
  }

  /** tm_yday counts the days of the year before a date; it is one short exactly in the year -4800. */
  lemma DaysOfYear(date: YearMonthDay)
    requires Valid(date)
    ensures JulianDayNumber(date) - JulianDayNumber(YearMonthDay(date.year, 1, 1)) ==
            DaysBefore(date.year, date.month) + date.day - 1 - if date.year > -4800 then 0 else 1
  {
    if date.year > -4800 {
      MonthsNumbered(date.year, 1, date.month);
    } else {
      MonthsNumbered(date.year, 3, date.month);
      FirstMarch(date.year);
    }
  }

  // ----- the clock -----

  /** One second later, by carrying. */
  function Tick(utc: Tm): Tm {
    if utc.sec < 59 then utc.(sec := utc.sec + 1)
    else if utc.min < 59 then utc.(sec := 0, min := utc.min + 1)
    else if utc.hour < 23 then utc.(sec := 0, min := 0, hour := utc.hour + 1)
    else
      var next := NextDay(DateOf(utc));
      utc.(sec := 0, min := 0, hour := 0, year := next.year - 1900, mon := next.month - 1, mday := next.day)
  }

  lemma TickWithinDay(utc: Tm)
    requires ValidTm(utc) && ClockSeconds(utc) + 1 < SECONDS_PER_DAY
    ensures ValidTm(Tick(utc)) && DateOf(Tick(utc)) == DateOf(utc) && ClockSeconds(Tick(utc)) == ClockSeconds(utc) + 1
  {
  }

  lemma TickOfMidnight(utc: Tm)
    requires ValidTm(utc) && ClockSeconds(utc) + 1 >= SECONDS_PER_DAY
    ensures ValidTm(Tick(utc)) && DateOf(Tick(utc)) == NextDay(DateOf(utc))
    ensures ClockSeconds(utc) == SECONDS_PER_DAY - 1 && ClockSeconds(Tick(utc)) == 0
  {
    NextDayNumber(DateOf(utc));
  }

  lemma NextMoment(j: int)
    ensures Moment(j + 1, 0) == Moment(j, SECONDS_PER_DAY - 1) + 1
  {
  }

  /** fromUtcTime() counts the seconds from the epoch: zero there, and one more with each tick of the clock. */
  lemma TicksCount(utc: Tm)
    requires ValidTm(utc)
    ensures ValidTm(Tick(utc)) && FromUtcTime(Tick(utc)) == FromUtcTime(utc) + 1
    ensures FromUtcTime(Tm(0, 0, 0, 1, 0, 70, 0, 0)) == 0
  {
    EpochNumber();
    if ClockSeconds(utc) + 1 < SECONDS_PER_DAY {
      TickWithinDay(utc);
    } else {
      TickOfMidnight(utc);
      NextDayNumber(DateOf(utc));
      NextMoment(JulianDayNumber(DateOf(utc)));
    }
  }
}
