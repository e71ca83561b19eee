// The Gregorian calendar as mengSen/base/Date.cpp computes it: closed-form
// conversions between (year, month, day) and Julian day numbers.  The reference
// it is measured against is plain day counting under the leap rule of
// Appendix C of RFC 3339.
module Calendar {
  import opened Machine

  datatype YearMonthDay = YearMonthDay(year: int, month: int, day: int)

  // ---------------------------------------------------------------- the code

  /** 1 for January and February, which the closed form counts in the previous year. */
  function YearShift(month: int): int {
    CDiv(14 - month, 12)
  }

  /** The year counted from 1 March 4801 BC that contains the date. */
  function MarchYear(year: int, month: int): int {
    year + 4800 - YearShift(month)
  }

  function JulianDayNumber(year: int, month: int, day: int): int {
    var y := MarchYear(year, month);
    var m := month + 12 * YearShift(month) - 3;
    day + CDiv(153 * m + 2, 5) + y * 365 + CDiv(y, 4) - CDiv(y, 100) + CDiv(y, 400) - 32045
  }

  function ToYearMonthDay(julianDayNumber: int): YearMonthDay {
    var a := julianDayNumber + 32044;
    var b := CDiv(4 * a + 3, 146097);
    var c := a - CDiv(b * 146097, 4);
    var d := CDiv(4 * c + 3, 1461);
    var e := c - CDiv(1461 * d, 4);
    var m := CDiv(5 * e + 2, 153);
    YearMonthDay(b * 100 + d - 4800 + CDiv(m, 10),
                 m + 3 - 12 * CDiv(m, 10),
                 e - CDiv(153 * m + 2, 5) + 1)
  }

  function WeekDay(julianDayNumber: int): int {
    CMod(julianDayNumber + 1, 7)
  }

  function DayNumber(date: YearMonthDay): int {
    JulianDayNumber(date.year, date.month, date.day)
  }

  // --------------------------------------------------- the reference calendar

  predicate IsLeapYear(year: int) {
    year % 4 == 0 && (year % 100 != 0 || year % 400 == 0)
  }

  function DaysInMonth(year: int, month: int): int {
    if month == 2 then (if IsLeapYear(year) then 29 else 28)
    else if month in {4, 6, 9, 11} then 30
    else 31
  }

  predicate ValidDate(date: YearMonthDay) {
    1 <= date.month <= 12 && 1 <= date.day <= DaysInMonth(date.year, date.month)
  }

  /** The date is not before 1 March 4801 BC, where the closed form starts. */
  predicate InRange(date: YearMonthDay) {
    MarchYear(date.year, date.month) >= 0
  }

  function NextDay(date: YearMonthDay): YearMonthDay {
    if date.day < DaysInMonth(date.year, date.month) then date.(day := date.day + 1)
    else if date.month < 12 then YearMonthDay(date.year, date.month + 1, 1)
    else YearMonthDay(date.year + 1, 1, 1)
  }

  /** The date reached by counting `n` days from `date`, one day at a time. */
  function CountDays(date: YearMonthDay, n: nat): YearMonthDay
    decreases n
  {
    if n == 0 then date else NextDay(CountDays(date, n - 1))
  }

  predicate Before(x: YearMonthDay, y: YearMonthDay) {
    || x.year < y.year
    || (x.year == y.year && x.month < y.month)
    || (x.year == y.year && x.month == y.month && x.day < y.day)
  }

  const FIRST_DAY: YearMonthDay := YearMonthDay(-4800, 3, 1)
  const FIRST_DAY_NUMBER: int := -32044

  // ------------------------------------------------------ the shape of a year

  /** Days before month `m` of a year that starts in March (m == 0). */
  function MonthStart(m: int): int {
    (153 * m + 2) / 5
  }

  /** Days from 1 March 4801 BC to 1 March of March-year `y`. */
  function YearStart(y: int): int {
    365 * y + y / 4 - y / 100 + y / 400
  }

  function MarchMonth(month: int): int {
    month + 12 * YearShift(month) - 3
  }

  lemma MarchFields(date: YearMonthDay)
    requires ValidDate(date)
    ensures YearShift(date.month) == if date.month <= 2 then 1 else 0
    ensures MarchMonth(date.month) == if date.month <= 2 then date.month + 9 else date.month - 3
  {
  }

  /** The day within the March-year, counted from 0. */
  function DayOfMarchYear(date: YearMonthDay): int {
    date.day - 1 + MonthStart(MarchMonth(date.month))
  }

  lemma DayNumberSplit(date: YearMonthDay)
    requires ValidDate(date) && InRange(date)
    ensures MarchYear(date.year, date.month) >= 0
    ensures DayNumber(date) - FIRST_DAY_NUMBER == YearStart(MarchYear(date.year, date.month)) + DayOfMarchYear(date)
  {
    MarchFields(date);
  }

  /** Day 365 of a March-year exists only when the next calendar year is leap. */
  lemma DayOfMarchYearRange(date: YearMonthDay)
    requires ValidDate(date)
    ensures 0 <= DayOfMarchYear(date) <= 365
    ensures DayOfMarchYear(date) == 365 ==> IsLeapYear(MarchYear(date.year, date.month) + 1)
  {
    MarchFields(date);
    var y := MarchYear(date.year, date.month);
    if date.month == 2 {
      LeapYearShift(date.year);
      assert date.year + 4800 == y + 1;
    }
  }

  lemma LeapYearShift(year: int)
    ensures IsLeapYear(year) == IsLeapYear(year + 4800)
  {
    ShiftModulo4(year);
    ShiftModulo100(year);
    ShiftModulo400(year);
  }

  lemma ShiftModulo4(x: int)
    ensures (x + 4800) % 4 == x % 4
  {
  }

  lemma ShiftModulo100(x: int)
    ensures (x + 4800) % 100 == x % 100
  {
  }

  lemma ShiftModulo400(x: int)
    ensures (x + 4800) % 400 == x % 400
  {
  }

  // ----------------------------------------------------- decoding, step by step

  /** The leap-day terms of a year, century by century. */
  lemma CenturyTerms(y: int)
    requires y >= 0
    ensures var b, d := y / 100, y % 100;
            YearStart(y) == 36524 * b + b / 4 + 365 * d + d / 4
  {
    var b, d := y / 100, y % 100;
    assert y == 100 * b + d;
    assert y / 4 == 25 * b + d / 4;
    assert y / 400 == b / 4;
  }

  /** A common century has 36524 days, one whose last year is divisible by 400 has 36525. */
  lemma CenturyDivision(b: int, c: int)
    requires b >= 0 && 0 <= c <= 36524
    requires c == 36524 ==> b % 4 == 3
    ensures var a := 36524 * b + b / 4 + c;
            (4 * a + 3) / 146097 == b && a - (b * 146097) / 4 == c
  {
    var a := 36524 * b + b / 4 + c;
    assert b * 146097 == 4 * (36524 * b) + b;
    assert (b * 146097) / 4 == 36524 * b + b / 4;
    assert 4 * a + 3 == b * 146097 + (4 * c + 3 - b % 4);
  }

  lemma CenturyStep(y: int, e: int)
    requires y >= 0 && 0 <= e <= 365
    requires e == 365 ==> IsLeapYear(y + 1)
    ensures var a := YearStart(y) + e;
            var b, c := y / 100, 365 * (y % 100) + (y % 100) / 4 + e;
            (4 * a + 3) / 146097 == b && a - (b * 146097) / 4 == c
  {
    CenturyTerms(y);
    LeapYearEndsCycle(y, e);
    hide YearStart;
    CenturyDivision(y / 100, 365 * (y % 100) + (y % 100) / 4 + e);
  }

  /** A leap day ends a four-year cycle, and a leap day at a century's end a four-century cycle. */
  lemma LeapYearEndsCycle(y: int, e: int)
    requires y >= 0 && 0 <= e <= 365
    requires e == 365 ==> IsLeapYear(y + 1)
    ensures e == 365 ==> (y % 100) % 4 == 3
    ensures 365 * (y % 100) + (y % 100) / 4 + e == 36524 ==> (y / 100) % 4 == 3
    ensures 365 * (y % 100) + (y % 100) / 4 + e <= 36524
  {
    var b, d := y / 100, y % 100;
    assert y == 100 * b + d;
    if e == 365 {
      assert d % 4 == 3;
      if d == 99 {
        assert y + 1 == 100 * (b + 1);
        assert (y + 1) % 100 == 0;
      }
    }
  }

  lemma YearStep(d: int, dayOfYear: int)
    requires 0 <= d < 100 && 0 <= dayOfYear <= 365
    requires dayOfYear == 365 ==> d % 4 == 3
    ensures var c := 365 * d + d / 4 + dayOfYear;
            && (4 * c + 3) / 1461 == d
            && c - (1461 * d) / 4 == dayOfYear
  {
    assert (1461 * d) / 4 == 365 * d + d / 4;
  }

  /** Within a March-year the month is recovered from the day. */
  lemma MonthStep(date: YearMonthDay)
    requires ValidDate(date)
    ensures var e := DayOfMarchYear(date);
            (5 * e + 2) / 153 == MarchMonth(date.month)
  {
    MarchFields(date);
  }

  /** The decoder's result, given the century, the year in it and the day in that year. */
  lemma DecodeFields(a: int, b: int, c: int, d: int, e: int)
    requires a >= 0 && b >= 0 && c >= 0 && d >= 0 && e >= 0
    requires (4 * a + 3) / 146097 == b && a - (b * 146097) / 4 == c
    requires (4 * c + 3) / 1461 == d && c - (1461 * d) / 4 == e
    ensures var m := (5 * e + 2) / 153;
            ToYearMonthDay(a + FIRST_DAY_NUMBER) ==
            YearMonthDay(b * 100 + d - 4800 + m / 10, m + 3 - 12 * (m / 10), e - MonthStart(m) + 1)
  {
    hide CDiv;
    assert a + FIRST_DAY_NUMBER + 32044 == a;
    CDivOfNat(4 * a + 3, 146097);
    CDivOfNat(b * 146097, 4);
    CDivOfNat(4 * c + 3, 1461);
    CDivOfNat(1461 * d, 4);
    CDivOfNat(5 * e + 2, 153);
    var m := (5 * e + 2) / 153;
    CDivOfNat(m, 10);
    CDivOfNat(153 * m + 2, 5);
  }

  lemma CDivOfNat(a: int, b: int)
    requires a >= 0 && b > 0
    ensures CDiv(a, b) == a / b
  {
  }

  lemma DecodeSteps(y: int, e: int)
    requires y >= 0 && 0 <= e <= 365
    requires e == 365 ==> IsLeapYear(y + 1)
    ensures var m := (5 * e + 2) / 153;
            ToYearMonthDay(YearStart(y) + e + FIRST_DAY_NUMBER) ==
            YearMonthDay(y - 4800 + m / 10, m + 3 - 12 * (m / 10), e - MonthStart(m) + 1)
  {
    hide *;
    var a, b, d := YearStart(y) + e, y / 100, y % 100;
    var c := 365 * d + d / 4 + e;
    CenturyStep(y, e);
    LeapYearEndsCycle(y, e);
    YearStep(d, e);
    YearStartNonNegative(y);
    DecodeFields(a, b, c, d, e);
  }

  lemma YearStartNonNegative(y: int)
    requires y >= 0
    ensures YearStart(y) >= 0
  {
  }

  /** Dates from 1 March 4801 BC on survive encoding and decoding. */
  lemma DecodeEncode(date: YearMonthDay)
    requires ValidDate(date) && InRange(date)
    ensures ToYearMonthDay(DayNumber(date)) == date
    ensures DayNumber(date) >= FIRST_DAY_NUMBER
  {
    hide *;
    var y, e := MarchYear(date.year, date.month), DayOfMarchYear(date);
    DayNumberSplit(date);
    DayOfMarchYearRange(date);
    YearStartNonNegative(y);
    assert DayNumber(date) == YearStart(y) + e + FIRST_DAY_NUMBER;
    DecodeSteps(y, e);
    MonthStep(date);
    DateFromMarchFields(date);
  }

  /** The last line of the decoder undoes the shift to March-years. */
  lemma DateFromMarchFields(date: YearMonthDay)
    requires ValidDate(date)
    ensures var m := MarchMonth(date.month);
            date == YearMonthDay(MarchYear(date.year, date.month) - 4800 + m / 10, m + 3 - 12 * (m / 10),
                                 DayOfMarchYear(date) - MonthStart(m) + 1)
  {
    MarchFields(date);
  }

  // --------------------------------------------------------- plain day counting

  lemma NextDayIsValid(date: YearMonthDay)
    requires ValidDate(date) && InRange(date)
    ensures ValidDate(NextDay(date)) && InRange(NextDay(date))
  {
    MarchFields(date);
    MarchFields(NextDay(date));
  }

  lemma YearStartStep(y: int)
    requires y >= 0
    ensures YearStart(y + 1) == YearStart(y) + if IsLeapYear(y + 1) then 366 else 365
  {
    DivStep(y, 4);
    DivStep(y, 100);
    DivStep(y, 400);
    assert (y + 1) % 400 == 0 ==> (y + 1) % 100 == 0;
    assert (y + 1) % 100 == 0 ==> (y + 1) % 4 == 0;
  }

  lemma DivStep(y: int, k: int)
    requires y >= 0 && k in {4, 100, 400}
    ensures (y + 1) / k == y / k + if (y + 1) % k == 0 then 1 else 0
  {
    if k == 4 {
    } else if k == 100 {
    } else {
      assert k == 400;
    }
  }

  /** The next day is one later in the same March-year, or the first of the next one. */
  lemma NextDayInMarchYear(date: YearMonthDay)
    requires ValidDate(date)
    ensures var next := NextDay(date);
            var y, e := MarchYear(date.year, date.month), DayOfMarchYear(date);
            var y', e' := MarchYear(next.year, next.month), DayOfMarchYear(next);
            || (y' == y && e' == e + 1)
            || (y' == y + 1 && e' == 0 && e == if IsLeapYear(y + 1) then 365 else 364)
  {
    MarchFields(date);
    MarchFields(NextDay(date));
    LeapYearShift(date.year);
  }

  /** Stepping to the next calendar day always adds exactly one. */
  lemma NextDayAddsOne(date: YearMonthDay)
    requires ValidDate(date) && InRange(date)
    ensures DayNumber(NextDay(date)) == DayNumber(date) + 1
  {
    hide *;
    NextDayIsValid(date);
    DayNumberSplit(date);
    DayNumberSplit(NextDay(date));
    NextDayInMarchYear(date);
    YearStartStep(MarchYear(date.year, date.month));
  }

  lemma {:induction false} CountDaysAdds(date: YearMonthDay, n: nat)
    requires ValidDate(date) && InRange(date)
    ensures ValidDate(CountDays(date, n)) && InRange(CountDays(date, n))
    ensures DayNumber(CountDays(date, n)) == DayNumber(date) + n
    decreases n
  {
    if n > 0 {
      CountDaysAdds(date, n - 1);
      NextDayIsValid(CountDays(date, n - 1));
      NextDayAddsOne(CountDays(date, n - 1));
    }
  }

  /** Decoding a day number is counting days from 1 March 4801 BC. */
  lemma DecodeIsDayCounting(j: int)
    requires j >= FIRST_DAY_NUMBER
    ensures ToYearMonthDay(j) == CountDays(FIRST_DAY, j - FIRST_DAY_NUMBER)
    ensures ValidDate(ToYearMonthDay(j)) && InRange(ToYearMonthDay(j))
    ensures DayNumber(ToYearMonthDay(j)) == j
  {
    assert DayNumber(FIRST_DAY) == FIRST_DAY_NUMBER;
    CountDaysAdds(FIRST_DAY, j - FIRST_DAY_NUMBER);
    DecodeEncode(CountDays(FIRST_DAY, j - FIRST_DAY_NUMBER));
  }

  // ------------------------------------------------------------- exact domains

  /** Before the first day every decoded day of the month is zero or negative. */
  lemma DecodeBeforeFirstDay(j: int)
    requires j < FIRST_DAY_NUMBER
    ensures ToYearMonthDay(j).day <= 0
  {
    var a := j + 32044;
    var b := CDiv(4 * a + 3, 146097);
    var c := a - CDiv(b * 146097, 4);
    assert b <= 0 && 4 * a + 3 <= 146097 * b;
    assert c < 0;
    var d := CDiv(4 * c + 3, 1461);
    var e := c - CDiv(1461 * d, 4);
    assert d <= 0 && 4 * c + 3 <= 1461 * d;
    assert e < 0;
  }

  /** A day number decodes to a date that maps back to it exactly from day -32044 on. */
  lemma DecodesToValidDate(j: int)
    ensures (ValidDate(ToYearMonthDay(j)) && DayNumber(ToYearMonthDay(j)) == j) <==> j >= FIRST_DAY_NUMBER
  {
    if j >= FIRST_DAY_NUMBER {
      DecodeIsDayCounting(j);
    } else {
      DecodeBeforeFirstDay(j);
    }
  }

  /** A calendar date survives the round trip exactly when it is not before 1 March 4801 BC. */
  lemma RoundTripExactly(date: YearMonthDay)
    requires ValidDate(date)
    ensures ToYearMonthDay(DayNumber(date)) == date <==> InRange(date)
  {
    if InRange(date) {
      DecodeEncode(date);
    } else if DayNumber(date) >= FIRST_DAY_NUMBER {
      DecodeIsDayCounting(DayNumber(date));
    } else {
      DecodeBeforeFirstDay(DayNumber(date));
    }
  }

  /** Day numbers order dates exactly as the calendar does. */
  lemma DayNumberOrder(x: YearMonthDay, y: YearMonthDay)
    requires ValidDate(x) && InRange(x) && ValidDate(y) && InRange(y)
    ensures DayNumber(x) < DayNumber(y) <==> Before(x, y)
  {
    if Before(x, y) {
      DayNumberMonotone(x, y);
    } else if Before(y, x) {
      DayNumberMonotone(y, x);
    } else {
      assert x == y;
    }
  }

  /** Calendar order is the order of March-years and of the days in them. */
  lemma BeforeInMarchYears(x: YearMonthDay, y: YearMonthDay)
    requires ValidDate(x) && ValidDate(y) && Before(x, y)
    ensures var p, q := MarchYear(x.year, x.month), MarchYear(y.year, y.month);
            p < q || (p == q && DayOfMarchYear(x) < DayOfMarchYear(y))
  {
    hide YearShift, MonthStart, IsLeapYear;
    MarchFields(x);
    MarchFields(y);
    MonthEnds(x);
    MonthEnds(y);
    MonthStartMonotone(MarchMonth(x.month) + 1, MarchMonth(y.month));
  }

  /** The days of one month of a March-year lie before those of the next. */
  lemma MonthEnds(date: YearMonthDay)
    requires ValidDate(date)
    ensures var m := MarchMonth(date.month);
            && MonthStart(m) <= DayOfMarchYear(date) && (m < 11 ==> DayOfMarchYear(date) < MonthStart(m + 1))
  {
    MarchFields(date);
  }

  lemma MonthStartMonotone(m: int, n: int)
    ensures m <= n ==> MonthStart(m) <= MonthStart(n)
  {
  }

  lemma DayNumberMonotone(x: YearMonthDay, y: YearMonthDay)
    requires ValidDate(x) && InRange(x) && ValidDate(y) && InRange(y) && Before(x, y)
    ensures DayNumber(x) < DayNumber(y)
  {
    hide *;
    BeforeInMarchYears(x, y);
    DayNumberSplit(x);
    DayNumberSplit(y);
    DayOfMarchYearRange(x);
    DayOfMarchYearRange(y);
    var p, q := MarchYear(x.year, x.month), MarchYear(y.year, y.month);
    YearStartStep(p);
    if p < q {
      YearStartMonotone(p + 1, q);
    }
  }

  lemma YearStartMonotone(p: int, q: int)
    requires 0 <= p <= q
    ensures YearStart(p) <= YearStart(q)
    decreases q - p
  {
    if p < q {
      YearStartStep(p);
      YearStartMonotone(p + 1, q);
    }
  }

  // ---------------------------------------------------------------- 32-bit range

  /** Every intermediate value of the decoder fits in a 32-bit int. */
  predicate DecoderFitsInt32(j: int) {
    var a := j + 32044;
    var b := CDiv(4 * a + 3, 146097);
    var c := a - CDiv(b * 146097, 4);
    var d := CDiv(4 * c + 3, 1461);
    var e := c - CDiv(1461 * d, 4);
    var m := CDiv(5 * e + 2, 153);
    && FitsInt32(a) && FitsInt32(4 * a) && FitsInt32(4 * a + 3) && FitsInt32(b)
    && FitsInt32(b * 146097) && FitsInt32(c) && FitsInt32(4 * c) && FitsInt32(4 * c + 3)
    && FitsInt32(d) && FitsInt32(1461 * d) && FitsInt32(e) && FitsInt32(5 * e) && FitsInt32(5 * e + 2)
    && FitsInt32(m) && FitsInt32(153 * m) && FitsInt32(153 * m + 2) && FitsInt32(b * 100)
    && FitsInt32(b * 100 + d) && FitsInt32(12 * CDiv(m, 10))
  }

  const LAST_DECODABLE: int := 536870911

  /** From the first day on, decoding stays within int exactly up to 536870911 - 32044. */
  lemma DecoderRange(j: int)
    requires j >= FIRST_DAY_NUMBER
    ensures DecoderFitsInt32(j) <==> j + 32044 <= LAST_DECODABLE
  {
    var a := j + 32044;
    var b := (4 * a + 3) / 146097;
    var c := a - (b * 146097) / 4;
    assert 0 <= c <= 36525;
  }

  /** Every intermediate value of the encoder fits in a 32-bit int. */
  predicate EncoderFitsInt32(date: YearMonthDay) {
    var a := YearShift(date.month);
    var y := date.year + 4800 - a;
    var m := date.month + 12 * a - 3;
    var s := date.day + CDiv(153 * m + 2, 5);
    && FitsInt32(14 - date.month) && FitsInt32(date.year + 4800) && FitsInt32(y)
    && FitsInt32(12 * a) && FitsInt32(date.month + 12 * a) && FitsInt32(m)
    && FitsInt32(153 * m) && FitsInt32(153 * m + 2)
    && FitsInt32(s) && FitsInt32(y * 365) && FitsInt32(s + y * 365) && FitsInt32(s + y * 365 + CDiv(y, 4))
    && FitsInt32(s + y * 365 + CDiv(y, 4) - CDiv(y, 100))
    && FitsInt32(s + y * 365 + CDiv(y, 4) - CDiv(y, 100) + CDiv(y, 400))
    && FitsInt32(JulianDayNumber(date.year, date.month, date.day))
  }

  const LAST_ENCODABLE: YearMonthDay := YearMonthDay(5874689, 12, 15)

  /** The leap-day terms of the encoder are ordinary quotients, each no larger than the one before. */
  lemma EncoderQuotients(y: int)
    requires y >= 0
    ensures CDiv(y, 4) == y / 4 && CDiv(y, 100) == y / 100 && CDiv(y, 400) == y / 400
    ensures 0 <= y / 400 <= y / 100 <= y / 4
  {
  }

  /** The largest intermediate is the sum before the centuries are taken off. */
  lemma EncoderPeak(date: YearMonthDay)
    requires ValidDate(date) && InRange(date)
    ensures var y := MarchYear(date.year, date.month);
            && y >= 0 && (EncoderFitsInt32(date) <==> 365 * y + y / 4 + DayOfMarchYear(date) + 1 < TWO_31)
  {
    hide IsLeapYear, CDiv, YearShift;
    MarchFields(date);
    MonthEnds(date);
    EncoderQuotients(MarchYear(date.year, date.month));
    CDivOfNat(153 * MarchMonth(date.month) + 2, 5);
  }

  /** Encoding a date stays within int exactly up to 15 December 5874689. */
  lemma EncoderRange(date: YearMonthDay)
    requires ValidDate(date) && InRange(date)
    ensures EncoderFitsInt32(date) <==> !Before(LAST_ENCODABLE, date)
  {
    hide EncoderFitsInt32, DayOfMarchYear, MarchYear, InRange;
    EncoderPeak(date);
    DayOfMarchYearRange(date);
    LastEncodable();
    if Before(LAST_ENCODABLE, date) {
      BeforeInMarchYears(LAST_ENCODABLE, date);
    } else if date != LAST_ENCODABLE {
      BeforeInMarchYears(date, LAST_ENCODABLE);
    }
  }

  lemma LastEncodable()
    ensures ValidDate(LAST_ENCODABLE) && MarchYear(LAST_ENCODABLE.year, LAST_ENCODABLE.month) == 5879489
    ensures DayOfMarchYear(LAST_ENCODABLE) == 289
  {
  }

  // -------------------------------------------------------------------- weekdays

  /** The weekday is one of 0..6 exactly for day numbers from -1 on, and every seventh before. */
  lemma WeekDayRange(j: int)
    ensures 0 <= WeekDay(j) <= 6 <==> (j >= -1 || (j + 1) % 7 == 0)
  {
    if j < -1 {
      assert (-(j + 1)) % 7 == 0 <==> (j + 1) % 7 == 0;
    }
  }

  /** Weekdays follow each other along the calendar with period 7, from day number 0 on. */
  lemma WeekDaysCycle(date: YearMonthDay, n: nat)
    requires ValidDate(date) && InRange(date) && DayNumber(date) >= 0
    ensures WeekDay(DayNumber(CountDays(date, n))) == (WeekDay(DayNumber(date)) + n) % 7
  {
    CountDaysAdds(date, n);
    hide DayNumber, ValidDate, InRange, CountDays;
    ModularSum(DayNumber(date) + 1, n);
  }

  lemma ModularSum(x: nat, n: nat)
    ensures (x + n) % 7 == (x % 7 + n) % 7
  {
    var q := x / 7;
    assert x + n == 7 * q + (x % 7 + n);
  }
}
