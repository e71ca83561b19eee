// Broken-down time in UTC: TimeZone::toUtcTime and TimeZone::fromUtcTime of
// mengSen/base/TimeZone.cpp.
module UtcTime {
  import opened Machine
  import opened Calendar

  /** The fields of `struct tm` that the code assigns, with C's conventions (month from 0, year from 1900). */
  datatype Tm = Tm(sec: int, min: int, hour: int, mday: int, mon: int, year: int,
                   wday: int, yday: int, isdst: int, gmtoff: int)

  const ZERO_TM: Tm := Tm(0, 0, 0, 0, 0, 0, 0, 0, 0, 0)

  const SECONDS_PER_DAY: int := 86400
  const EPOCH_DAY: int := 2440588

  lemma EpochDay()
    ensures JulianDayNumber(1970, 1, 1) == EPOCH_DAY
    ensures WeekDay(EPOCH_DAY) == 4
  {
  }

  // -------------------------------------------------------- reference meaning

  /** Days since the epoch and seconds within the day, by floor division. */
  function DayOf(t: int): int {
    t / SECONDS_PER_DAY
  }

  function SecondOfDay(t: int): int {
    t % SECONDS_PER_DAY
  }

  function JulianDayOf(t: int): int {
    DayOf(t) + EPOCH_DAY
  }

  /** The day lies between 1 March 4801 BC and the last one the 32-bit decoder reaches. */
  predicate Supported(t: int) {
    FIRST_DAY_NUMBER <= JulianDayOf(t) <= LAST_DECODABLE - 32044
  }

  function DaysBeforeMonth(year: int, month: int): int
    requires 1 <= month <= 12
    decreases month
  {
    if month == 1 then 0 else DaysBeforeMonth(year, month - 1) + DaysInMonth(year, month - 1)
  }

  /** The ordinal day of the year, counted from 0. */
  function DayOfYear(date: YearMonthDay): int
    requires ValidDate(date)
  {
    DaysBeforeMonth(date.year, date.month) + date.day - 1
  }

  /** What toUtcTime returns, field by field. */
  function UtcTm(t: int, yday: bool): Tm {
    var j := JulianDayOf(t);
    var date := ToYearMonthDay(j);
    Tm(SecondOfDay(t) % 60, SecondOfDay(t) / 60 % 60, SecondOfDay(t) / 3600,
       date.day, date.month - 1, date.year - 1900, WeekDay(j),
       if yday then j - JulianDayNumber(date.year, 1, 1) else 0, 0, 0)
  }

  function FromUtcFields(year: int, month: int, day: int, hour: int, minute: int, seconds: int): int {
    (JulianDayNumber(year, month, day) - EPOCH_DAY) * SECONDS_PER_DAY + (hour * 3600 + minute * 60 + seconds)
  }

  function FromUtcTm(utc: Tm): int {
    FromUtcFields(utc.year + 1900, utc.mon + 1, utc.mday, utc.hour, utc.min, utc.sec)
  }

  predicate CalendarFields(utc: Tm) {
    && 0 <= utc.sec <= 59 && 0 <= utc.min <= 59 && 0 <= utc.hour <= 23
    && ValidDate(YearMonthDay(utc.year + 1900, utc.mon + 1, utc.mday))
  }

  // ------------------------------------------------------------------ the code

  method FillHMS(seconds: nat, utc: Tm) returns (r: Tm)
    ensures r == utc.(sec := seconds % 60, min := seconds / 60 % 60, hour := seconds / 3600)
  {
    r := utc.(sec := seconds % 60);
    var minutes := seconds / 60;
    r := r.(min := minutes % 60);
    r := r.(hour := minutes / 60);
    NestedDivision(seconds);
  }

  lemma NestedDivision(seconds: nat)
    ensures seconds / 60 / 60 == seconds / 3600
  {
  }

  /** No int of the conversion overflows: the casts keep the value and the decoder stays in range. */
  predicate NoOverflow(t: int) {
    && FitsInt32(CDiv(t, SECONDS_PER_DAY)) && FitsInt32(DayOf(t)) && FitsInt32(JulianDayOf(t))
    && DecoderFitsInt32(JulianDayOf(t))
  }

  method ToUtcTime(secondsSinceEpoch: int, yday: bool := false) returns (utc: Tm)
    requires NoOverflow(secondsSinceEpoch)
    ensures utc == UtcTm(secondsSinceEpoch, yday)
  {
    hide ToYearMonthDay, JulianDayNumber, WeekDay, CDiv, CMod, ToInt32, DecoderFitsInt32;
    utc := ZERO_TM;
    var seconds := ToInt32(CMod(secondsSinceEpoch, SECONDS_PER_DAY));
    var days := ToInt32(CDiv(secondsSinceEpoch, SECONDS_PER_DAY));
    TruncatedDay(secondsSinceEpoch);
    if seconds < 0 {
      seconds := seconds + SECONDS_PER_DAY;
      days := days - 1;
    }
    assert seconds == SecondOfDay(secondsSinceEpoch) && days == DayOf(secondsSinceEpoch);
    utc := FillHMS(seconds, utc);
    var date := days + EPOCH_DAY;
    var ymd := ToYearMonthDay(date);
    utc := utc.(year := ymd.year - 1900);
    utc := utc.(mon := ymd.month - 1);
    utc := utc.(mday := ymd.day);
    utc := utc.(wday := WeekDay(date));
    if yday {
      var startOfYear := JulianDayNumber(ymd.year, 1, 1);
      utc := utc.(yday := date - startOfYear);
    }
  }

  /** Truncation toward zero and the two casts, compared with floor division. */
  lemma TruncatedDay(t: int)
    requires NoOverflow(t)
    ensures var s, d := CMod(t, SECONDS_PER_DAY), CDiv(t, SECONDS_PER_DAY);
            && ToInt32(s) == s && ToInt32(d) == d
            && SecondOfDay(t) == (if s < 0 then s + SECONDS_PER_DAY else s)
            && DayOf(t) == (if s < 0 then d - 1 else d)
  {
    hide DecoderFitsInt32;
    CDivModIdentity(t, SECONDS_PER_DAY);
    var s, d := CMod(t, SECONDS_PER_DAY), CDiv(t, SECONDS_PER_DAY);
    assert t == DayOf(t) * SECONDS_PER_DAY + SecondOfDay(t);
    assert t == d * SECONDS_PER_DAY + s;
    hide CMod, CDiv;
    assert FitsInt32(s) && FitsInt32(d);
  }

  /** The whole supported range is free of overflow. */
  lemma SupportedNoOverflow(t: int)
    requires Supported(t)
    ensures NoOverflow(t)
  {
    DecoderRange(JulianDayOf(t));
    hide DecoderFitsInt32;
    assert -TWO_31 * SECONDS_PER_DAY < t < TWO_31 * SECONDS_PER_DAY;
  }

  /** No int of the way back overflows. */
  predicate FieldsFitInt32(utc: Tm) {
    && FitsInt32(utc.year + 1900) && FitsInt32(utc.mon + 1)
    && EncoderFitsInt32(YearMonthDay(utc.year + 1900, utc.mon + 1, utc.mday))
    && FitsInt32(utc.hour * 3600) && FitsInt32(utc.min * 60) && FitsInt32(utc.hour * 3600 + utc.min * 60)
    && FitsInt32(utc.hour * 3600 + utc.min * 60 + utc.sec)
    && FitsInt32(JulianDayNumber(utc.year + 1900, utc.mon + 1, utc.mday) - EPOCH_DAY)
  }

  /** The calendar date of the fields. */
  function DateOf(utc: Tm): YearMonthDay {
    YearMonthDay(utc.year + 1900, utc.mon + 1, utc.mday)
  }

  /**
   * For the fields of a calendar moment: the instant whose day and whose second of the day
   * they are, and the only one that toUtcTime renders as these fields.
   */
  method FromUtcTime(utc: Tm) returns (t: int)
    ensures t == FromUtcTm(utc)
    ensures CalendarFields(utc) && InRange(DateOf(utc)) ==>
              && JulianDayOf(t) == DayNumber(DateOf(utc))
              && SecondOfDay(t) == utc.hour * 3600 + utc.min * 60 + utc.sec
              && SameMoment(UtcTm(t, false), utc)
              && forall other :: SameMoment(UtcTm(other, false), utc) ==> other == t
  {
    hide JulianDayNumber, InRange, CalendarFields, UtcTm, JulianDayOf, SecondOfDay;
    if CalendarFields(utc) && InRange(DateOf(utc)) {
      OnlyInstant(utc);
    }
    var date := JulianDayNumber(utc.year + 1900, utc.mon + 1, utc.mday);
    var secondsInDay := utc.hour * 3600 + utc.min * 60 + utc.sec;
    var days := date - EPOCH_DAY;
    t := days * SECONDS_PER_DAY + secondsInDay;
  }

  // ---------------------------------------------------------------- properties

  /** Re-assembling an instant from its day and its second of the day. */
  lemma Reassemble(j: int, date: YearMonthDay, s: int, t: int)
    requires t == (j - EPOCH_DAY) * SECONDS_PER_DAY + s && 0 <= s < SECONDS_PER_DAY
    requires DayNumber(date) == j
    ensures FromUtcFields(date.year, date.month, date.day, s / 3600, s / 60 % 60, s % 60) == t
  {
    hide JulianDayNumber;
    ClockFields(s);
  }

  lemma InstantSplit(t: int)
    ensures t == (JulianDayOf(t) - EPOCH_DAY) * SECONDS_PER_DAY + SecondOfDay(t)
    ensures 0 <= SecondOfDay(t) < SECONDS_PER_DAY
  {
  }

  /** Every instant of the supported range survives the round trip. */
  lemma UtcRoundTrip(t: int, yday: bool)
    requires Supported(t)
    ensures FromUtcTm(UtcTm(t, yday)) == t
  {
    hide ToYearMonthDay, DayNumber, InRange, ValidDate, WeekDay, SecondOfDay, JulianDayOf, JulianDayNumber,
         FromUtcFields;
    DecodeIsDayCounting(JulianDayOf(t));
    InstantSplit(t);
    Reassemble(JulianDayOf(t), ToYearMonthDay(JulianDayOf(t)), SecondOfDay(t), t);
  }

  /** All fields are in calendar range exactly from the first day of the closed form on. */
  lemma UtcFieldsInRange(t: int, yday: bool)
    ensures CalendarFields(UtcTm(t, yday)) <==> JulianDayOf(t) >= FIRST_DAY_NUMBER
  {
    hide ToYearMonthDay, DayNumber, InRange, WeekDay, SecondOfDay, JulianDayOf, JulianDayNumber;
    if JulianDayOf(t) >= FIRST_DAY_NUMBER {
      DecodeIsDayCounting(JulianDayOf(t));
      InstantSplit(t);
      ClockFields(SecondOfDay(t));
      assert ToYearMonthDay(JulianDayOf(t)) == DateOf(UtcTm(t, yday));
    } else {
      DecodeBeforeFirstDay(JulianDayOf(t));
    }
  }

  lemma ClockFields(s: int)
    requires 0 <= s < SECONDS_PER_DAY
    ensures s / 3600 * 3600 + s / 60 % 60 * 60 + s % 60 == s
    ensures 0 <= s / 3600 <= 23 && 0 <= s / 60 % 60 <= 59 && 0 <= s % 60 <= 59
  {
  }

  /** Two broken-down times that agree in date and clock. */
  predicate SameMoment(x: Tm, y: Tm) {
    DateOf(x) == DateOf(y) && x.hour == y.hour && x.min == y.min && x.sec == y.sec
  }

  /** The instant of calendar fields, by what it is rather than how it is computed. */
  lemma OnlyInstant(utc: Tm)
    requires CalendarFields(utc) && InRange(DateOf(utc))
    ensures var t := FromUtcTm(utc);
            && JulianDayOf(t) == DayNumber(DateOf(utc))
            && SecondOfDay(t) == utc.hour * 3600 + utc.min * 60 + utc.sec
            && SameMoment(UtcTm(t, false), utc)
            && forall other :: SameMoment(UtcTm(other, false), utc) ==> other == t
  {
    hide ToYearMonthDay, JulianDayNumber, InRange, WeekDay, SecondOfDay, JulianDayOf, MarchYear, IsLeapYear;
    FieldsRoundTrip(utc);
    ClockSplit(utc.hour, utc.min, utc.sec);
    DaySplit(DayNumber(DateOf(utc)), utc.hour * 3600 + utc.min * 60 + utc.sec);
    forall other | SameMoment(UtcTm(other, false), utc) ensures other == FromUtcTm(utc) {
      SameFieldsSameInstant(other, utc);
    }
  }

  lemma SameFieldsSameInstant(t: int, utc: Tm)
    requires SameMoment(UtcTm(t, false), utc) && CalendarFields(utc) && InRange(DateOf(utc))
    ensures t == FromUtcTm(utc)
  {
    hide ToYearMonthDay, JulianDayNumber, InRange, WeekDay, SecondOfDay, JulianDayOf, MarchYear, FromUtcFields,
         ValidDate;
    UtcFieldsInRange(t, false);
    DecodeIsDayCounting(JulianDayOf(t));
    InstantSplit(t);
    Reassemble(JulianDayOf(t), DateOf(utc), SecondOfDay(t), t);
  }

  /** No int overflows on the way back exactly up to the last date the encoder reaches. */
  lemma FieldsOverflowExactly(utc: Tm)
    requires CalendarFields(utc) && InRange(DateOf(utc))
    ensures FieldsFitInt32(utc) <==> !Before(LAST_ENCODABLE, DateOf(utc))
  {
    hide EncoderFitsInt32, JulianDayNumber, InRange, MarchYear;
    EncoderRange(DateOf(utc));
    EncoderResultRange(DateOf(utc));
  }

  lemma EncoderResultRange(date: YearMonthDay)
    requires ValidDate(date) && InRange(date)
    ensures EncoderFitsInt32(date) ==>
              && FitsInt32(date.year) && FitsInt32(JulianDayNumber(date.year, date.month, date.day) - EPOCH_DAY)
  {
    hide ToYearMonthDay, JulianDayNumber, InRange;
    DecodeEncode(date);
    EncoderPeak(date);
    if EncoderFitsInt32(date) {
      EncodedFits(date);
    }
  }

  lemma EncodedFits(date: YearMonthDay)
    requires EncoderFitsInt32(date) && ValidDate(date)
    ensures FitsInt32(date.year + 4800) && FitsInt32(JulianDayNumber(date.year, date.month, date.day))
  {
    hide CDiv, JulianDayNumber, ValidDate;
  }

  /** The fields of every supported instant can be turned back without overflow. */
  lemma SupportedFieldsFit(t: int, yday: bool)
    requires Supported(t)
    ensures FieldsFitInt32(UtcTm(t, yday))
  {
    hide ToYearMonthDay, JulianDayNumber, InRange, WeekDay, SecondOfDay, JulianDayOf, ValidDate, FieldsFitInt32, Before;
    var date := ToYearMonthDay(JulianDayOf(t));
    assert DateOf(UtcTm(t, yday)) == date;
    DecodeIsDayCounting(JulianDayOf(t));
    UtcFieldsInRange(t, yday);
    LastEncodableNumber();
    DayNumberOrder(LAST_ENCODABLE, date);
    FieldsOverflowExactly(UtcTm(t, yday));
  }

  lemma LastEncodableNumber()
    ensures ValidDate(LAST_ENCODABLE) && InRange(LAST_ENCODABLE) && DayNumber(LAST_ENCODABLE) > LAST_DECODABLE
  {
  }

  /** Every calendar moment of the supported range is some instant: the round trip the other way. */
  lemma FieldsRoundTrip(utc: Tm)
    requires CalendarFields(utc) && InRange(YearMonthDay(utc.year + 1900, utc.mon + 1, utc.mday))
    ensures var back := UtcTm(FromUtcTm(utc), false);
            && back.(wday := 0) == utc.(wday := 0, yday := 0, isdst := 0, gmtoff := 0)
            && back.wday == WeekDay(DayNumber(YearMonthDay(utc.year + 1900, utc.mon + 1, utc.mday)))
  {
    var date := YearMonthDay(utc.year + 1900, utc.mon + 1, utc.mday);
    var s := utc.hour * 3600 + utc.min * 60 + utc.sec;
    hide ToYearMonthDay, JulianDayNumber, InRange, ValidDate, WeekDay, MarchYear, SecondOfDay, JulianDayOf;
    DecodeEncode(date);
    DaySplit(DayNumber(date), s);
    ClockSplit(utc.hour, utc.min, utc.sec);
  }

  lemma DaySplit(j: int, s: int)
    requires 0 <= s < SECONDS_PER_DAY
    ensures JulianDayOf((j - EPOCH_DAY) * SECONDS_PER_DAY + s) == j
    ensures SecondOfDay((j - EPOCH_DAY) * SECONDS_PER_DAY + s) == s
  {
  }

  lemma ClockSplit(hour: int, min: int, sec: int)
    requires 0 <= sec <= 59 && 0 <= min <= 59 && 0 <= hour <= 23
    ensures var s := hour * 3600 + min * 60 + sec;
            s % 60 == sec && s / 60 % 60 == min && s / 3600 == hour
  {
  }

  lemma MonthLength(year: int, month: int)
    requires 1 <= month < 12 && MarchYear(year, month) >= 0
    ensures JulianDayNumber(year, month + 1, 1) == JulianDayNumber(year, month, 1) + DaysInMonth(year, month)
  {
    hide JulianDayNumber;
    var lastDay := YearMonthDay(year, month, DaysInMonth(year, month));
    NextDayAddsOne(lastDay);
    DayNumberWithinMonth(year, month, lastDay.day);
  }

  lemma {:induction false} DayNumberInYear(year: int, month: int)
    requires 1 <= month <= 12 && year > -4800
    ensures JulianDayNumber(year, month, 1) == JulianDayNumber(year, 1, 1) + DaysBeforeMonth(year, month)
    decreases month
  {
    hide JulianDayNumber;
    if month > 1 {
      DayNumberInYear(year, month - 1);
      MonthLength(year, month - 1);
    }
  }

  lemma DayNumberWithinMonth(year: int, month: int, day: int)
    ensures JulianDayNumber(year, month, day) == JulianDayNumber(year, month, 1) + day - 1
  {
  }

  /**
   * tm_yday is the ordinal day of the year, except in the year -4800: its 1 January
   * lies before the range where the closed form counts days.
   */
  lemma DayOfYearExactly(t: int)
    requires Supported(t)
    ensures var date := ToYearMonthDay(JulianDayOf(t));
            ValidDate(date) && (UtcTm(t, true).yday == DayOfYear(date) <==> date.year != -4800)
  {
    var j := JulianDayOf(t);
    DecodeIsDayCounting(j);
    var date := ToYearMonthDay(j);
    if date.year == -4800 {
      FirstYearDayOfYear(date);
    } else {
      DayOfYearFromDayNumber(date);
    }
  }

  lemma DayOfYearFromDayNumber(date: YearMonthDay)
    requires ValidDate(date) && date.year > -4800
    ensures DayNumber(date) - JulianDayNumber(date.year, 1, 1) == DayOfYear(date)
  {
    hide JulianDayNumber;
    DayNumberInYear(date.year, date.month);
    DayNumberWithinMonth(date.year, date.month, date.day);
  }

  lemma FirstYearDayOfYear(date: YearMonthDay)
    requires ValidDate(date) && date.year == -4800 && InRange(date)
    ensures DayNumber(date) - JulianDayNumber(date.year, 1, 1) == DayOfYear(date) - 1
  {
    DayNumberWithinMonth(-4800, date.month, date.day);
    FirstYearMonths(date.month);
  }

  lemma {:induction false} FirstYearMonths(month: int)
    requires 3 <= month <= 12
    ensures JulianDayNumber(-4800, month, 1) - JulianDayNumber(-4800, 1, 1) == DaysBeforeMonth(-4800, month) - 1
    decreases month
  {
    if month == 3 {
      assert DaysBeforeMonth(-4800, 2) == 31;
    } else {
      hide JulianDayNumber;
      FirstYearMonths(month - 1);
      MonthLength(-4800, month - 1);
    }
  }
}
