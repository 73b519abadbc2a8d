/**
  Dates as Julian day numbers (muduo-vip/muduo/base/Date.cc) and the conversion between
  seconds since the epoch and civil time (muduo-vip/muduo/base/TimeZone.cc).  The closed
  forms are compared with the Gregorian calendar itself: its leap years, its months and
  the day that follows each day.
 */
module Calendar {

  datatype YearMonthDay = YearMonthDay(year: int, month: int, day: int)

  /** The quotient and the remainder of C: towards zero. */
  function Quot(a: int, b: int): int
    requires b > 0
  {
    if a >= 0 then a / b else -((-a) / b)
  }

  function Rem(a: int, b: int): int
    requires b > 0
  {
    a - b * Quot(a, b)
  }

  predicate Int32(x: int) {
    -0x8000_0000 <= x < 0x8000_0000
  }

  // ----- the closed forms -----

  function JulianDayNumber(date: YearMonthDay): int {
    date.day + NumberBefore(date.year, date.month)
  }

  /** The number of the day before a month. */
  function NumberBefore(year: int, month: int): int {
    var a := Quot(14 - month, 12);
    var y := year + 4800 - a;
    var m := month + 12 * a - 3;
    Quot(153 * m + 2, 5) + y * 365 + Quot(y, 4) - Quot(y, 100) + Quot(y, 400) - 32045
  }

  function FromJulianDayNumber(julianDayNumber: int): YearMonthDay {
    var a := julianDayNumber + 32044;
    var b := Quot(4 * a + 3, 146097);
    var c := a - Quot(b * 146097, 4);
    FromCentury(b, c)
  }

  /** Day `c` of century `b`. */
  function FromCentury(b: int, c: int): YearMonthDay {
    var d := Quot(4 * c + 3, 1461);
    var e := c - Quot(1461 * d, 4);
    FromYear(b * 100 + d, e)
  }

  /** Day `e` of year `y`. */
  function FromYear(y: int, e: int): YearMonthDay {
    var m := Quot(5 * e + 2, 153);
    YearMonthDay(y - 4800 + Quot(m, 10), m + 3 - 12 * Quot(m, 10), e - Quot(153 * m + 2, 5) + 1)
  }

  const JULIAN_DAY_OF_1970_01_01 := 2440588

  lemma EpochNumber()
    ensures JulianDayNumber(YearMonthDay(1970, 1, 1)) == JULIAN_DAY_OF_1970_01_01
  {
  }

  // ----- the calendar -----

  predicate Leap(year: int) {
    (year % 4 == 0 && year % 100 != 0) || year % 400 == 0
  }

  function DaysIn(year: int, month: int): int {
    if month == 2 then if Leap(year) then 29 else 28
    else if month == 4 || month == 6 || month == 9 || month == 11 then 30 else 31
  }

  /** A date of the calendar, in any year. */
  predicate InCalendar(date: YearMonthDay) {
    1 <= date.month <= 12 && 1 <= date.day <= DaysIn(date.year, date.month)
  }

  /** A date of the calendar, from 1 March -4800 on. */
  predicate Valid(date: YearMonthDay) {
    InCalendar(date) && (date.year > -4800 || (date.year == -4800 && date.month >= 3))
  }

  function NextDay(date: YearMonthDay): YearMonthDay {
    if date.day < DaysIn(date.year, date.month) then date.(day := date.day + 1)
    else if date.month < 12 then YearMonthDay(date.year, date.month + 1, 1)
    else YearMonthDay(date.year + 1, 1, 1)
  }

  predicate Earlier(a: YearMonthDay, b: YearMonthDay) {
    a.year < b.year || (a.year == b.year && (a.month < b.month || (a.month == b.month && a.day < b.day)))
  }

  // ----- years that begin in March -----

  /** Days before the year `y` after March -4800, and before its month `m`. */
  function YearDays(y: nat): nat {
    365 * y + y / 4 - y / 100 + y / 400
  }

  function MonthDays(m: nat): nat {
    (153 * m + 2) / 5
  }

  /** The year, the month and the day of the year of a date, all from March on and from zero. */
  function MarchYear(date: YearMonthDay): int {
    date.year + 4800 - (if date.month <= 2 then 1 else 0)
  }

  function MarchMonth(date: YearMonthDay): int {
    if date.month <= 2 then date.month + 9 else date.month - 3
  }

  function MarchNumber(date: YearMonthDay): int
    requires MarchYear(date) >= 0 && MarchMonth(date) >= 0
  {
    YearDays(MarchYear(date)) + MonthDays(MarchMonth(date)) + date.day - 1
  }

  lemma QuotOfNat(a: nat, b: nat)
    requires b > 0
    ensures Quot(a, b) == a / b
  {
  }

  lemma InMarchTerms(date: YearMonthDay)
    requires Valid(date)
    ensures MarchYear(date) >= 0 && 0 <= MarchMonth(date) <= 11
    ensures JulianDayNumber(date) == MarchNumber(date) - 32044
  {
  }

  lemma FourthYear(y: nat)
    ensures (y + 1) / 4 - y / 4 == if (y + 1 - 4800) % 4 == 0 then 1 else 0
  {
  }

  lemma HundredthYear(y: nat)
    ensures (y + 1) / 100 - y / 100 == if (y + 1 - 4800) % 100 == 0 then 1 else 0
  {
  }

  lemma FourHundredthYear(y: nat)
    ensures (y + 1) / 400 - y / 400 == if (y + 1 - 4800) % 400 == 0 then 1 else 0
  {
  }

  lemma Multiples(x: int)
    ensures x % 400 == 0 ==> x % 100 == 0
    ensures x % 100 == 0 ==> x % 4 == 0
  {
  }

  /** A year is a day longer exactly when the February at its end is in a leap year. */
  lemma YearLength(y: nat)
    ensures YearDays(y + 1) - YearDays(y) == if Leap(y + 1 - 4800) then 366 else 365
  {
    FourthYear(y);
    HundredthYear(y);
    FourHundredthYear(y);
    Multiples(y + 1 - 4800);
  }

  lemma MonthLength(date: YearMonthDay)
    requires Valid(date) && date.month != 2
    ensures MonthDays(MarchMonth(date) + 1) - MonthDays(MarchMonth(date)) == DaysIn(date.year, date.month)
  {
  }

  lemma NextMarchNumber(date: YearMonthDay)
    requires Valid(date)
    ensures Valid(NextDay(date)) && MarchYear(NextDay(date)) >= 0
    ensures MarchNumber(NextDay(date)) == MarchNumber(date) + 1
  {
    if date.day == DaysIn(date.year, date.month) {
      if date.month == 2 {
        YearLength(MarchYear(date));
      } else {
        MonthLength(date);
      }
    }
  }

  /** The day that follows has the number that follows. */
  lemma NextDayNumber(date: YearMonthDay)
    requires Valid(date)
    ensures Valid(NextDay(date))
    ensures JulianDayNumber(NextDay(date)) == JulianDayNumber(date) + 1
  {
    NextMarchNumber(date);
    InMarchTerms(date);
    InMarchTerms(NextDay(date));
  }

  // ----- the inverse -----

  lemma HundredsOf(b: nat, d: nat)
    requires d < 100
    ensures (100 * b + d) / 100 == b
  {
  }

  lemma FourHundredsOf(b: nat, d: nat)
    requires d < 100
    ensures (100 * b + d) / 400 == b / 4
  {
  }

  lemma FoursOf(b: nat, d: nat)
    ensures (100 * b + d) / 4 == 25 * b + d / 4
    ensures 146097 * b / 4 == 36524 * b + b / 4 && 1461 * d / 4 == 365 * d + d / 4
  {
  }

  /** Years `100 b + d`: whole centuries, then years of the four-year cycle. */
  lemma CenturyDays(b: nat, d: nat)
    requires d < 100
    ensures YearDays(100 * b + d) == 146097 * b / 4 + 1461 * d / 4
  {
    HundredsOf(b, d);
    FourHundredsOf(b, d);
    FoursOf(b, d);
  }

  /** The divisions of the source find the century, the year and the month. */
  lemma FindCentury(n: nat, b: nat)
    ensures (4 * n + 3) / 146097 == b <==> 146097 * b / 4 <= n < 146097 * (b + 1) / 4
  {
  }

  lemma FindYear(n: nat, d: nat)
    ensures (4 * n + 3) / 1461 == d <==> 1461 * d / 4 <= n < 1461 * (d + 1) / 4
  {
  }

  lemma FindMonth(e: nat, m: nat)
    ensures (5 * e + 2) / 153 == m <==> MonthDays(m) <= e < MonthDays(m + 1)
  {
  }

  /** A day within its year. */
  lemma DayOfYear(date: YearMonthDay)
    requires Valid(date)
    ensures var e := MonthDays(MarchMonth(date)) + date.day - 1;
            0 <= e < YearDays(MarchYear(date) + 1) - YearDays(MarchYear(date))
    ensures (5 * (MonthDays(MarchMonth(date)) + date.day - 1) + 2) / 153 == MarchMonth(date)
  {
    YearLength(MarchYear(date));
    FindMonth(MonthDays(MarchMonth(date)) + date.day - 1, MarchMonth(date));
    if date.month != 2 {
      MonthLength(date);
    }
  }

  /** The century and the year of any day `YearDays(y) + e` of the year `y`. */
  lemma FindMarchYear(y: nat, e: nat)
    requires e < YearDays(y + 1) - YearDays(y)
    ensures var n := YearDays(y) + e;
            var b := (4 * n + 3) / 146097;
            var c := n - 146097 * b / 4;
            && b == y / 100 && c >= 0
            && (4 * c + 3) / 1461 == y % 100
            && c - 1461 * (y % 100) / 4 == e
  {
    var n, b, d := YearDays(y) + e, y / 100, y % 100;
    CenturyDays(b, d);
    CenturyEnd(b, d);
    FindCentury(n, b);
    FindYear(n - 146097 * b / 4, d);
  }

  lemma CenturyEnd(b: nat, d: nat)
    requires d < 100
    ensures YearDays(100 * b + d + 1) <= 146097 * (b + 1) / 4
    ensures YearDays(100 * b + d + 1) - 146097 * b / 4 <= 1461 * (d + 1) / 4
  {
    if d < 99 {
      CenturyDays(b, d + 1);
    } else {
      CenturyDays(b + 1, 0);
    }
  }

  lemma YearDecoded(y: nat, e: nat, m: nat)
    requires m == (5 * e + 2) / 153
    ensures FromYear(y, e) == YearMonthDay(y - 4800 + m / 10, m + 3 - 12 * (m / 10), e - MonthDays(m) + 1)
  {
    QuotOfNat(5 * e + 2, 153);
    QuotOfNat(153 * m + 2, 5);
    QuotOfNat(m, 10);
  }

  lemma CenturyDecoded(b: nat, c: nat, d: nat, e: nat, y: nat)
    requires d == (4 * c + 3) / 1461 && e == c - 1461 * d / 4 && y == 100 * b + d
    ensures FromCentury(b, c) == FromYear(y, e)
  {
    QuotOfNat(4 * c + 3, 1461);
    QuotOfNat(1461 * d, 4);
  }

  lemma NumberDecoded(j: int, n: nat, b: nat, c: nat)
    requires n == j + 32044 && b == (4 * n + 3) / 146097 && c == n - 146097 * b / 4
    ensures FromJulianDayNumber(j) == FromCentury(b, c)
  {
    CenturyQuotients(j + 32044, b, c);
  }

  lemma CenturyQuotients(a: nat, b: nat, c: int)
    requires b == (4 * a + 3) / 146097 && c == a - 146097 * b / 4
    ensures Quot(4 * a + 3, 146097) == b && a - Quot(b * 146097, 4) == c
  {
    QuotOfNat(4 * a + 3, 146097);
    QuotOfNat(b * 146097, 4);
  }

  lemma StepsDecoded(j: int, n: nat, b: nat, c: nat, d: nat, e: nat, y: nat)
    requires n == j + 32044 && b == (4 * n + 3) / 146097 && c == n - 146097 * b / 4
    requires d == (4 * c + 3) / 1461 && e == c - 1461 * d / 4 && y == 100 * b + d
    ensures FromJulianDayNumber(j) == FromYear(y, e)
  {
    NumberDecoded(j, n, b, c);
    CenturyDecoded(b, c, d, e, y);
  }

  /** The source finds the day `e` of the year `y` again. */
  lemma Decoded(j: int, y: nat, e: nat)
    requires j + 32044 == YearDays(y) + e && e < YearDays(y + 1) - YearDays(y)
    ensures FromJulianDayNumber(j) == FromYear(y, e)
  {
    FindMarchYear(y, e);
    var n := j + 32044;
    StepsDecoded(j, n, y / 100, n - 146097 * (y / 100) / 4, y % 100, e, y);
  }

  lemma MonthRestored(date: YearMonthDay, m: int)
    requires 1 <= date.month <= 12 && m == MarchMonth(date)
    ensures MarchYear(date) - 4800 + m / 10 == date.year && m + 3 - 12 * (m / 10) == date.month
  {
  }

  lemma MarchDateDecoded(date: YearMonthDay, e: nat)
    requires Valid(date) && e == MonthDays(MarchMonth(date)) + date.day - 1
    ensures FromYear(MarchYear(date), e) == date
    ensures e < YearDays(MarchYear(date) + 1) - YearDays(MarchYear(date))
  {
    DayOfYear(date);
    YearDecoded(MarchYear(date), e, MarchMonth(date));
    MonthRestored(date, MarchMonth(date));
  }

  lemma MarchRoundTrip(date: YearMonthDay, j: int)
    requires Valid(date) && j + 32044 == MarchNumber(date)
    ensures FromJulianDayNumber(j) == date
  {
    var e := MonthDays(MarchMonth(date)) + date.day - 1;
    MarchDateDecoded(date, e);
    Decoded(j, MarchYear(date), e);
  }

  /** A date read back from its number is the date. */
  lemma DateRoundTrip(date: YearMonthDay)
    requires Valid(date)
    ensures FromJulianDayNumber(JulianDayNumber(date)) == date
  {
    var j := JulianDayNumber(date);
    InMarchTerms(date);
    MarchRoundTrip(date, j);
  }

  // ----- the calendar, day by day -----

  const FIRST_DAY := YearMonthDay(-4800, 3, 1)

  /** The date `n` days after 1 March -4800, by counting. */
  function DateAfter(n: nat): YearMonthDay {
    if n == 0 then FIRST_DAY else NextDay(DateAfter(n - 1))
  }

  lemma {:induction false} CountedNumber(n: nat)
    ensures Valid(DateAfter(n)) && JulianDayNumber(DateAfter(n)) == n - 32044
  {
    if n != 0 {
      CountedNumber(n - 1);
      NextDayNumber(DateAfter(n - 1));
    }
  }

  /** The closed form is the date that counting day by day arrives at ... */
  lemma ClosedFormCounts(j: int)
    requires j >= -32044
    ensures FromJulianDayNumber(j) == DateAfter(j + 32044)
  {
    CountedNumber(j + 32044);
    DateRoundTrip(DateAfter(j + 32044));
  }

  /** ... so every number from there on is the number of its date. */
  lemma NumberRoundTrip(j: int)
    requires j >= -32044
    ensures Valid(FromJulianDayNumber(j)) && JulianDayNumber(FromJulianDayNumber(j)) == j
  {
    ClosedFormCounts(j);
    CountedNumber(j + 32044);
  }

  lemma {:induction false} LaterDay(n: nat, k: nat)
    requires k > 0
    ensures Earlier(DateAfter(n), DateAfter(n + k))
  {
    if k > 1 {
      LaterDay(n, k - 1);
    }
  }

  lemma CountedDate(date: YearMonthDay)
    requires Valid(date)
    ensures JulianDayNumber(date) >= -32044 && date == DateAfter(JulianDayNumber(date) + 32044)
  {
    InMarchTerms(date);
    DateRoundTrip(date);
    ClosedFormCounts(JulianDayNumber(date));
  }

  lemma CountsAreOrdered(m: nat, n: nat)
    ensures m < n <==> Earlier(DateAfter(m), DateAfter(n))
  {
    if m < n {
      LaterDay(m, n - m);
    } else if n < m {
      LaterDay(n, m - n);
    }
  }

  /** Comparing numbers, as operator< does, is comparing dates. */
  lemma NumbersAreOrdered(a: YearMonthDay, b: YearMonthDay)
    requires Valid(a) && Valid(b)
    ensures JulianDayNumber(a) < JulianDayNumber(b) <==> Earlier(a, b)
  {
    CountedDate(a);
    CountedDate(b);
    CountsAreOrdered(JulianDayNumber(a) + 32044, JulianDayNumber(b) + 32044);
  }

  // ----- below the first day -----

  lemma CenturyBelow(a: int)
    requires a < 0
    ensures a - Quot(Quot(4 * a + 3, 146097) * 146097, 4) < 0
  {
  }

  lemma YearBelow(c: int)
    requires c < 0
    ensures c - Quot(1461 * Quot(4 * c + 3, 1461), 4) < 0
  {
  }

  lemma DayBelow(e: int)
    requires e < 0
    ensures e - Quot(153 * Quot(5 * e + 2, 153) + 2, 5) + 1 <= 0
  {
  }

  /** Below zero the divisions round the other way, and no date has a day zero or less. */
  lemma DecodedBelow(j: int)
    requires j < -32044
    ensures FromJulianDayNumber(j).day <= 0
  {
    var a := j + 32044;
    CenturyBelow(a);
    var b := Quot(4 * a + 3, 146097);
    var c := a - Quot(b * 146097, 4);
    YearBelow(c);
    var d := Quot(4 * c + 3, 1461);
    DayBelow(c - Quot(1461 * d, 4));
  }

  /** A number is read as a date of the calendar exactly from 1 March -4800 on. */
  lemma NumberOfADate(j: int)
    ensures InCalendar(FromJulianDayNumber(j)) <==> j >= -32044
    ensures Valid(FromJulianDayNumber(j)) <==> j >= -32044
  {
    if j < -32044 {
      DecodedBelow(j);
    } else {
      NumberRoundTrip(j);
    }
  }

  /** A date of the calendar is read back from its number exactly from 1 March -4800 on. */
  lemma DateRoundTripExactly(date: YearMonthDay)
    requires InCalendar(date)
    ensures FromJulianDayNumber(JulianDayNumber(date)) == date <==>
            date == FIRST_DAY || Earlier(FIRST_DAY, date)
  {
    assert Valid(date) <==> date == FIRST_DAY || Earlier(FIRST_DAY, date);
    if Valid(date) {
      DateRoundTrip(date);
    } else {
      NumberOfADate(JulianDayNumber(date));
    }
  }

  /** The day before the first has a number already taken. */
  lemma NoRoundTripBefore()
    ensures NextDay(YearMonthDay(-4800, 2, 29)) == FIRST_DAY
    ensures JulianDayNumber(YearMonthDay(-4800, 2, 29)) == JulianDayNumber(FIRST_DAY)
  {
  }

  // ----- 32 bits -----

  /** The last number whose date the source computes without overflow. */
  const LAST_NUMBER := 536870911 - 32044

  /** Every value computed from the day `e` of year `y` on. */
  predicate MonthFits(y: int, e: int) {
    var m := Quot(5 * e + 2, 153);
    && Int32(5 * e) && Int32(5 * e + 2) && Int32(m) && Int32(153 * m) && Int32(153 * m + 2)
    && Int32(e - Quot(153 * m + 2, 5)) && Int32(e - Quot(153 * m + 2, 5) + 1)
    && Int32(m + 3) && Int32(12 * Quot(m, 10)) && Int32(m + 3 - 12 * Quot(m, 10))
    && Int32(y - 4800) && Int32(y - 4800 + Quot(m, 10))
  }

  /** Every value computed from the day `c` of century `b` on. */
  predicate YearFits(b: int, c: int) {
    var d := Quot(4 * c + 3, 1461);
    var e := c - Quot(1461 * d, 4);
    && Int32(4 * c) && Int32(4 * c + 3) && Int32(d) && Int32(1461 * d) && Int32(e)
    && Int32(b * 100) && Int32(b * 100 + d)
    && MonthFits(b * 100 + d, e)
  }

  /** Every value computed for the number `j`. */
  predicate DecodingInRange(j: int) {
    var a := j + 32044;
    var b := Quot(4 * a + 3, 146097);
    var c := a - Quot(b * 146097, 4);
    && Int32(a) && Int32(4 * a) && Int32(4 * a + 3) && Int32(b) && Int32(b * 146097) && Int32(c)
    && YearFits(b, c)
  }

  lemma MonthInRange(y: nat, e: nat)
    requires y <= 1_470_000 && e <= 366
    ensures MonthFits(y, e)
  {
  }

  lemma YearInRange(b: nat, c: nat)
    requires b <= 14699 && c <= 36525
    ensures YearFits(b, c)
  {
    var d := (4 * c + 3) / 1461;
    QuotOfNat(4 * c + 3, 1461);
    QuotOfNat(1461 * d, 4);
    FindYear(c, d);
    MonthInRange(b * 100 + d, c - 1461 * d / 4);
  }

  lemma CenturyInRange(a: nat, b: nat, c: int)
    requires b == (4 * a + 3) / 146097 && c == a - 146097 * b / 4 && a <= 536870911
    ensures b <= 14699 && 0 <= c <= 36525
  {
    FindCentury(a, b);
  }

  /** From the first number on, 32 bits suffice exactly up to the last. */
  lemma DecodingFits(j: int)
    requires j >= -32044
    ensures DecodingInRange(j) <==> j <= LAST_NUMBER
  {
    if j <= LAST_NUMBER {
      var a := j + 32044;
      var b := (4 * a + 3) / 146097;
      var c := a - 146097 * b / 4;
      CenturyQuotients(a, b, c);
      CenturyInRange(a, b, c);
      YearInRange(b, c);
    }
  }

  /** The products and the partial sums of getJulianDayNumber(), from left to right. */
  predicate SumsFit(day: int, m: int, y: int) {
    var q := Quot(153 * m + 2, 5);
    && Int32(153 * m) && Int32(153 * m + 2) && Int32(y * 365)
    && Int32(day + q) && Int32(day + q + y * 365) && Int32(day + q + y * 365 + Quot(y, 4))
    && Int32(day + q + y * 365 + Quot(y, 4) - Quot(y, 100))
    && Int32(day + q + y * 365 + Quot(y, 4) - Quot(y, 100) + Quot(y, 400))
    && Int32(day + q + y * 365 + Quot(y, 4) - Quot(y, 100) + Quot(y, 400) - 32045)
  }

  /** Every value computed for a date. */
  predicate EncodingInRange(date: YearMonthDay) {
    var a := Quot(14 - date.month, 12);
    && Int32(14 - date.month) && Int32(date.year + 4800) && Int32(date.year + 4800 - a)
    && Int32(date.month + 12 * a) && Int32(date.month + 12 * a - 3)
    && SumsFit(date.day, date.month + 12 * a - 3, date.year + 4800 - a)
  }

  lemma SumsInRange(day: nat, m: nat, y: nat)
    requires day <= 31 && m <= 11 && YearDays(y) <= 536870911
    ensures SumsFit(day, m, y) && y <= 1_480_000
  {
    QuotOfNat(y, 4);
    QuotOfNat(y, 100);
    QuotOfNat(y, 400);
  }

  lemma MarchShift(date: YearMonthDay)
    requires 1 <= date.month <= 12
    ensures var a := Quot(14 - date.month, 12);
            date.month + 12 * a - 3 == MarchMonth(date) && date.year + 4800 - a == MarchYear(date)
  {
  }

  lemma EncodingFits(date: YearMonthDay)
    requires Valid(date) && JulianDayNumber(date) <= LAST_NUMBER
    ensures EncodingInRange(date)
  {
    InMarchTerms(date);
    MarchNumberFits(date);
  }

  lemma MarchNumberFits(date: YearMonthDay)
    requires Valid(date) && MarchYear(date) >= 0 && MarchMonth(date) >= 0
    requires MarchNumber(date) <= 536870911
    ensures EncodingInRange(date)
  {
    MarchShift(date);
    SumsInRange(date.day, MarchMonth(date), MarchYear(date));
  }
}
