/** src/time/TimestampHelper.cpp: the printer and the parser of stored timestamps over the Gregorian calendar. */
module Timestamp {
  import opened Foundation

  // ----- The calendar (std::chrono::year_month_day and sys_days) --------------------------------------

  datatype Date = Date(year: int, month: int, day: int)

  predicate Leap(year: int) {
    year % 4 == 0 && (year % 100 != 0 || year % 400 == 0)
  }

  function MonthLength(year: int, month: int): int {
    if month == 2 then (if Leap(year) then 29 else 28)
    else if month in {4, 6, 9, 11} then 30
    else 31
  }

  /** year_month_day::ok. */
  predicate Ok(date: Date) {
    1 <= date.month <= 12 && 1 <= date.day <= MonthLength(date.year, date.month)
  }

  /** The day after. */
  function Tomorrow(date: Date): Date {
    if date.day < MonthLength(date.year, date.month) then Date(date.year, date.month, date.day + 1)
    else if date.month < 12 then Date(date.year, date.month + 1, 1)
    else Date(date.year + 1, 1, 1)
  }

  /** The days from the first of January of year 1 to that of the year. */
  function DaysBeforeYear(year: int): int {
    var past := year - 1;
    365 * past + past / 4 - past / 100 + past / 400
  }

  function DaysBeforeMonth(year: int, month: int): int
    decreases month
  {
    if month <= 1 then 0 else DaysBeforeMonth(year, month - 1) + MonthLength(year, month - 1)
  }

  /** The days from year 1 to the first of January 1970. */
  const EPOCH: int := 719162

  /** sys_days of a date. */
  function DayNumber(date: Date): int {
    DaysBeforeYear(date.year) + DaysBeforeMonth(date.year, date.month) + date.day - 1 - EPOCH
  }

  function Least(a: int, b: int): int {
    if a < b then a else b
  }

  /**
   * The year a day falls in, by eras of 400, centuries, and groups of 4 years, each of which closes with its longest
   * member.
   */
  function YearOf(days: int): int {
    var era, inEra := days / 146097, days % 146097;
    var century := Least(inEra / 36524, 3);
    var inCentury := inEra - 36524 * century;
    var group, inGroup := inCentury / 1461, inCentury % 1461;
    400 * era + 100 * century + 4 * group + Least(inGroup / 365, 3) + 1
  }

  /** The month and the day reached by going on from the first of a month. */
  function MonthFrom(year: int, month: int, days: int): Date
    decreases 12 - month
  {
    if month >= 12 || days < MonthLength(year, month) then Date(year, month, days + 1)
    else MonthFrom(year, month + 1, days - MonthLength(year, month))
  }

  /** year_month_day of sys_days. */
  function DateOf(number: int): Date {
    var days := number + EPOCH;
    var year := YearOf(days);
    MonthFrom(year, 1, days - DaysBeforeYear(year))
  }

  // ----- The two directions of the calendar are inverse ----------------------------------------------------

  lemma YearLength(year: int)
    ensures DaysBeforeYear(year + 1) == DaysBeforeYear(year) + DaysBeforeMonth(year, 13)
    ensures DaysBeforeMonth(year, 13) == if Leap(year) then 366 else 365
  {
    hide DaysBeforeMonth;
    var past := year - 1;
    assert year / 4 == past / 4 + if year % 4 == 0 then 1 else 0;
    assert year / 100 == past / 100 + if year % 100 == 0 then 1 else 0;
    assert year / 400 == past / 400 + if year % 400 == 0 then 1 else 0;
    CenturiesAreFours(year);
    MonthSums(year);
  }

  lemma CenturiesAreFours(year: int)
    ensures year % 400 == 0 ==> year % 100 == 0
    ensures year % 100 == 0 ==> year % 4 == 0
  {
  }

  lemma MonthSums(year: int)
    ensures DaysBeforeMonth(year, 13) == if Leap(year) then 366 else 365
  {
    assert DaysBeforeMonth(year, 4) == MonthLength(year, 1) + MonthLength(year, 2) + MonthLength(year, 3);
    assert DaysBeforeMonth(year, 7) == DaysBeforeMonth(year, 4) + 91;
    assert DaysBeforeMonth(year, 10) == DaysBeforeMonth(year, 7) + 92;
    assert DaysBeforeMonth(year, 13) == DaysBeforeMonth(year, 10) + 92;
  }

  /** The days before a year, read from its era, century, group and place. */
  lemma DaysOfParts(era: int, century: int, group: int, place: int)
    requires 0 <= century <= 3 && 0 <= group <= 24 && 0 <= place <= 3
    ensures DaysBeforeYear(400 * era + 100 * century + 4 * group + place + 1) ==
        146097 * era + 36524 * century + 1461 * group + 365 * place
  {
    var past := 400 * era + 100 * century + 4 * group + place;
    assert past / 4 == 100 * era + 25 * century + group;
    assert past / 100 == 4 * era + century;
    assert past / 400 == era;
  }

  /** The year found is the one the day falls in. */
  lemma YearHolds(days: int)
    ensures DaysBeforeYear(YearOf(days)) <= days < DaysBeforeYear(YearOf(days) + 1)
  {
    var era, inEra := days / 146097, days % 146097;
    var century := Least(inEra / 36524, 3);
    var inCentury := inEra - 36524 * century;
    var group, inGroup := inCentury / 1461, inCentury % 1461;
    var place := Least(inGroup / 365, 3);
    assert 0 <= inCentury <= 36524 && (century < 3 ==> inCentury < 36524);
    DaysOfParts(era, century, group, place);
    assert days == 146097 * era + 36524 * century + 1461 * group + inGroup;
    YearLength(YearOf(days));
    hide Leap, DaysBeforeMonth;
    PlaceHolds(era, century, group, inGroup, place);
  }

  /** The last year of a group is a leap year unless it closes a century that does not close an era. */
  lemma LeapOfParts(era: int, century: int, group: int, year: int)
    requires 0 <= century <= 3 && 0 <= group <= 24
    requires year == 400 * era + 100 * century + 4 * group + 4
    ensures group < 24 || century == 3 ==> Leap(year)
  {
    assert year == 4 * (100 * era + 25 * century + group + 1);
    if group == 24 {
      assert century == 3 ==> year == 400 * (era + 1);
    } else {
      assert year == 100 * (4 * era + century) + (4 * group + 4);
    }
  }

  /** A day behind the 365th of a year falls on the last year of its group, which is then a leap year. */
  lemma PlaceHolds(era: int, century: int, group: int, inGroup: int, place: int)
    requires 0 <= century <= 3 && 0 <= group <= 24 && 0 <= inGroup < 1461 && place == Least(inGroup / 365, 3)
    requires century < 3 ==> 1461 * group + inGroup < 36524
    ensures 365 * place <= inGroup < 365 * place
        + DaysBeforeMonth(400 * era + 100 * century + 4 * group + place + 1, 13)
  {
    hide Leap, DaysBeforeMonth;
    var year := 400 * era + 100 * century + 4 * group + place + 1;
    MonthSums(year);
    if place == 3 {
      LeapOfParts(era, century, group, year);
    }
  }

  lemma {:induction false} YearsGrow(earlier: int, later: int)
    requires earlier < later
    ensures DaysBeforeYear(earlier + 1) <= DaysBeforeYear(later)
    decreases later - earlier
  {
    if earlier + 1 < later {
      YearLength(earlier + 1);
      YearsGrow(earlier + 1, later);
    }
  }

  /** No other year holds the day. */
  lemma YearUnique(year: int, days: int)
    requires DaysBeforeYear(year) <= days < DaysBeforeYear(year + 1)
    ensures YearOf(days) == year
  {
    YearHolds(days);
    if YearOf(days) < year {
      YearsGrow(YearOf(days), year);
    } else if year < YearOf(days) {
      YearsGrow(year, YearOf(days));
    }
  }

  lemma MonthNext(year: int, month: int)
    requires 1 <= month
    ensures DaysBeforeMonth(year, 1) == 0
    ensures DaysBeforeMonth(year, month + 1) == DaysBeforeMonth(year, month) + MonthLength(year, month)
    ensures 28 <= MonthLength(year, month)
  {
  }

  /** Going on from a month finds the date that lies that many days ahead. */
  lemma {:induction false} MonthHolds(year: int, month: int, days: int)
    requires 1 <= month <= 12 && 0 <= days < DaysBeforeMonth(year, 13) - DaysBeforeMonth(year, month)
    ensures var date := MonthFrom(year, month, days);
      && Ok(date) && date.year == year
      && DaysBeforeMonth(year, date.month) + date.day - 1 == DaysBeforeMonth(year, month) + days
    decreases 12 - month
  {
    hide DaysBeforeMonth, MonthLength;
    MonthNext(year, month);
    if month < 12 && days >= MonthLength(year, month) {
      MonthHolds(year, month + 1, days - MonthLength(year, month));
    }
  }

  lemma {:induction false} MonthReached(date: Date, month: int)
    requires Ok(date) && 1 <= month <= date.month
    ensures MonthFrom(date.year, month,
        DaysBeforeMonth(date.year, date.month) - DaysBeforeMonth(date.year, month) + date.day - 1) == date
    decreases date.month - month
  {
    hide DaysBeforeMonth, MonthLength;
    if month < date.month {
      MonthNext(date.year, month);
      MonthsGrow(date.year, month + 1, date.month);
      MonthReached(date, month + 1);
    }
  }

  lemma {:induction false} MonthsGrow(year: int, earlier: int, later: int)
    requires 1 <= earlier <= later
    ensures DaysBeforeMonth(year, earlier) <= DaysBeforeMonth(year, later)
    decreases later - earlier
  {
    if earlier < later {
      MonthsGrow(year, earlier, later - 1);
    }
  }

  /** Every day number is that of exactly one date. */
  lemma DateOfDay(number: int)
    ensures Ok(DateOf(number)) && DayNumber(DateOf(number)) == number
  {
    hide DaysBeforeMonth, DaysBeforeYear, Leap, YearOf, MonthFrom;
    var days := number + EPOCH;
    YearHolds(days);
    YearLength(YearOf(days));
    MonthNext(YearOf(days), 1);
    MonthHolds(YearOf(days), 1, days - DaysBeforeYear(YearOf(days)));
  }

  lemma DayOfDate(date: Date)
    requires Ok(date)
    ensures DateOf(DayNumber(date)) == date
  {
    hide DaysBeforeMonth, DaysBeforeYear, Leap, YearOf;
    var days := DayNumber(date) + EPOCH;
    YearLength(date.year);
    MonthNext(date.year, date.month);
    MonthsGrow(date.year, 1, date.month);
    MonthsGrow(date.year, date.month + 1, 13);
    YearUnique(date.year, days);
    MonthReached(date, 1);
  }

  lemma TomorrowIsNext(date: Date)
    requires Ok(date)
    ensures Ok(Tomorrow(date)) && DayNumber(Tomorrow(date)) == DayNumber(date) + 1
  {
    hide DaysBeforeMonth, DaysBeforeYear, Leap;
    YearLength(date.year);
    MonthNext(date.year, date.month);
    MonthNext(date.year + 1, 1);
    assert date.month == 12 ==> DaysBeforeMonth(date.year, date.month + 1) == DaysBeforeMonth(date.year, 13);
  }

  lemma FirstDay()
    ensures Ok(Date(1970, 1, 1)) && DayNumber(Date(1970, 1, 1)) == 0
  {
  }

  /** The numbering is the calendar itself: day 0 is the first of January 1970, and every next day is the day after. */
  lemma DaysFollow(number: int)
    ensures DateOf(0) == Date(1970, 1, 1)
    ensures DateOf(number + 1) == Tomorrow(DateOf(number))
  {
    hide DateOf, DayNumber;
    var date := DateOf(number);
    DateOfDay(number);
    FirstDay();
    DayOfDate(Date(1970, 1, 1));
    TomorrowIsNext(date);
    DayOfDate(Tomorrow(date));
  }

  // ----- The moment of an instant --------------------------------------------------------------------------

  const DAY: int := 86400000

  /** What a stored timestamp spells: a date and the time of the day. */
  datatype Moment = Moment(date: Date, hour: int, minute: int, second: int, millisecond: int)

  predicate TimeOfDay(moment: Moment) {
    0 <= moment.hour <= 23 && 0 <= moment.minute <= 59 && 0 <= moment.second <= 59 && 0 <= moment.millisecond <= 999
  }

  /** An instant counts milliseconds; the day is rounded down, also before 1970. */
  function MomentOf(instant: int): (moment: Moment)
    ensures Ok(moment.date) && TimeOfDay(moment)
  {
    var rest := instant % DAY;
    DateOfDay(instant / DAY);
    Moment(DateOf(instant / DAY), rest / 3600000, rest / 60000 % 60, rest / 1000 % 60, rest % 1000)
  }

  function InstantOf(moment: Moment): int {
    DayNumber(moment.date) * DAY + moment.hour * 3600000 + moment.minute * 60000 + moment.second * 1000
        + moment.millisecond
  }

  lemma InstantOfMoment(instant: int)
    ensures InstantOf(MomentOf(instant)) == instant
  {
    hide DateOf, DayNumber;
    DateOfDay(instant / DAY);
    TimeParts(instant % DAY);
  }

  lemma TimeParts(rest: int)
    requires 0 <= rest < DAY
    ensures rest == rest / 3600000 * 3600000 + rest / 60000 % 60 * 60000 + rest / 1000 % 60 * 1000 + rest % 1000
  {
    var seconds := rest / 1000;
    assert rest / 60000 == seconds / 60 && rest / 3600000 == seconds / 60 / 60;
  }

  lemma MomentOfInstant(moment: Moment)
    requires Ok(moment.date) && TimeOfDay(moment)
    ensures MomentOf(InstantOf(moment)) == moment
  {
    hide DateOf, DayNumber;
    DayOfDate(moment.date);
    var rest := moment.hour * 3600000 + moment.minute * 60000 + moment.second * 1000 + moment.millisecond;
    DayAndRest(DayNumber(moment.date), rest);
    PartsOfTime(moment.hour, moment.minute, moment.second, moment.millisecond);
  }

  lemma DayAndRest(day: int, rest: int)
    requires 0 <= rest < DAY
    ensures (day * DAY + rest) / DAY == day && (day * DAY + rest) % DAY == rest
  {
  }

  lemma PartsOfTime(hour: int, minute: int, second: int, millisecond: int)
    requires 0 <= hour <= 23 && 0 <= minute <= 59 && 0 <= second <= 59 && 0 <= millisecond <= 999
    ensures
      var rest := hour * 3600000 + minute * 60000 + second * 1000 + millisecond;
      0 <= rest < DAY && rest / 3600000 == hour && rest / 60000 % 60 == minute && rest / 1000 % 60 == second
          && rest % 1000 == millisecond
  {
    var rest := hour * 3600000 + minute * 60000 + second * 1000 + millisecond;
    assert rest / 60000 == hour * 60 + minute;
    assert rest / 1000 == hour * 3600 + minute * 60 + second;
  }

  // ----- Numbers in digits ---------------------------------------------------------------------------------

  function Digit(value: int): char
    requires 0 <= value <= 9
  {
    (48 + value) as char
  }

  predicate IsDigit(character: char) {
    '0' <= character <= '9'
  }

  predicate Digits(text: string) {
    forall k | 0 <= k < |text| :: IsDigit(text[k])
  }

  /** The conversion "%0wd" of a number that is not negative. */
  function Padded(number: nat, width: nat): string
    decreases number, width
  {
    if width <= 1 && number < 10 then [Digit(number)]
    else Padded(number / 10, if width > 0 then width - 1 else 0) + [Digit(number % 10)]
  }

  /** The number a text of digits spells, as std::from_chars reads it. */
  function Number(digits: string): nat
    requires Digits(digits)
  {
    if digits == "" then 0
    else Number(digits[..|digits| - 1]) * 10 + (digits[|digits| - 1] as int - 48)
  }

  function Power(width: nat): nat {
    if width == 0 then 1 else 10 * Power(width - 1)
  }

  /** A printed number reads back, and it takes just the width it is given as long as it fits. */
  lemma {:induction false} PrintedReads(number: nat, width: nat)
    requires 1 <= width
    ensures Digits(Padded(number, width)) && Number(Padded(number, width)) == number
    ensures |Padded(number, width)| >= width
    ensures number < Power(width) <==> |Padded(number, width)| == width
    decreases number, width
  {
    if width <= 1 && number < 10 {
      assert Padded(number, width)[..0] == "";
    } else {
      var inner := if width > 1 then width - 1 else 1;
      PrintedReads(number / 10, inner);
      NarrowIsOne(number / 10);
      var head := Padded(number / 10, inner);
      assert Padded(number, width) == head + [Digit(number % 10)];
      assert (head + [Digit(number % 10)])[..|head|] == head;
    }
  }

  /** Width 0 asks for no more than width 1. */
  lemma {:induction false} NarrowIsOne(number: nat)
    ensures Padded(number, 0) == Padded(number, 1)
  {
  }

  lemma PaddedStep(number: nat, width: nat)
    ensures number < 10 ==> Padded(number, 1) == [Digit(number)]
    ensures width >= 2 ==> Padded(number, width) == Padded(number / 10, width - 1) + [Digit(number % 10)]
  {
  }

  lemma NumberStep(head: string, last: nat)
    requires Digits(head) && last <= 9
    ensures Digits(head + [Digit(last)]) && Number(head + [Digit(last)]) == Number(head) * 10 + last
    ensures Number("") == 0
  {
    assert (head + [Digit(last)])[..|head|] == head;
  }

  /** A text of digits is what printing its number to its width gives. */
  lemma {:induction false} ReadPrints(digits: string)
    requires Digits(digits) && digits != ""
    ensures Padded(Number(digits), |digits|) == digits
    ensures Number(digits) < Power(|digits|)
    decreases |digits|
  {
    var head, last := digits[..|digits| - 1], digits[|digits| - 1] as int - 48;
    assert digits == head + [Digit(last)];
    hide Padded, Number, Digit, Power;
    NumberStep(head, last);
    PaddedStep(Number(digits), |digits|);
    PowerStep(|digits|);
    if head != "" {
      ReadPrints(head);
    }
  }

  lemma PowerStep(width: nat)
    requires width > 0
    ensures Power(width) == 10 * Power(width - 1) && Power(0) == 1
  {
  }

  // ----- The text of a moment ------------------------------------------------------------------------------

  /** The conversion "%04d", which counts the sign of a negative number to its width. */
  function YearText(year: int): string {
    if year >= 0 then Padded(year, 4) else "-" + Padded(-year, 3)
  }

  /** The seven fields of a timestamp. */
  datatype Fields = Fields(year: string, month: string, day: string, hour: string, minute: string, second: string,
      millisecond: string)

  predicate Narrow(fields: Fields) {
    && |fields.month| == |fields.day| == |fields.hour| == |fields.minute| == |fields.second| == 2
    && |fields.millisecond| == 3
  }

  /** What follows the year. */
  function Remainder(fields: Fields): (text: string)
    requires Narrow(fields)
    ensures |text| == 20
  {
    var (month, day, hour, minute, second, millisecond) := (fields.month, fields.day, fields.hour, fields.minute,
        fields.second, fields.millisecond);
    ['-', month[0], month[1], '-', day[0], day[1], 'T', hour[0], hour[1], ':', minute[0], minute[1], ':',
     second[0], second[1], '.', millisecond[0], millisecond[1], millisecond[2], 'Z']
  }

  /** The text of a timestamp: its fields with a mark behind each. */
  function Assembled(fields: Fields): (text: string)
    requires Narrow(fields)
    ensures |text| == |fields.year| + 20
  {
    fields.year + Remainder(fields)
  }

  predicate AllDigits(fields: Fields) {
    && Digits(fields.year) && Digits(fields.month) && Digits(fields.day) && Digits(fields.hour)
    && Digits(fields.minute) && Digits(fields.second) && Digits(fields.millisecond)
  }

  /** The marks between the fields of a text of 24 characters. */
  predicate Marked(text: string) {
    && |text| == 24
    && text[4] == '-' && text[7] == '-' && text[10] == 'T' && text[13] == ':' && text[16] == ':' && text[19] == '.'
        && text[23] == 'Z'
  }

  function FieldsOf(text: string): Fields
    requires |text| == 24
  {
    Fields(text[0..4], text[5..7], text[8..10], text[11..13], text[14..16], text[17..19], text[20..23])
  }

  lemma RemainderDate(fields: Fields)
    requires Narrow(fields)
    ensures Remainder(fields)[0] == '-' && Remainder(fields)[3] == '-' && Remainder(fields)[6] == 'T'
    ensures Remainder(fields)[1] == fields.month[0] && Remainder(fields)[2] == fields.month[1]
    ensures Remainder(fields)[4] == fields.day[0] && Remainder(fields)[5] == fields.day[1]
  {
  }

  lemma RemainderTime(fields: Fields)
    requires Narrow(fields)
    ensures Remainder(fields)[9] == ':' && Remainder(fields)[12] == ':'
    ensures Remainder(fields)[7] == fields.hour[0] && Remainder(fields)[8] == fields.hour[1]
    ensures Remainder(fields)[10] == fields.minute[0] && Remainder(fields)[11] == fields.minute[1]
  {
  }

  lemma RemainderEnd(fields: Fields)
    requires Narrow(fields)
    ensures Remainder(fields)[15] == '.' && Remainder(fields)[19] == 'Z'
    ensures Remainder(fields)[13] == fields.second[0] && Remainder(fields)[14] == fields.second[1]
    ensures Remainder(fields)[16] == fields.millisecond[0] && Remainder(fields)[17] == fields.millisecond[1]
        && Remainder(fields)[18] == fields.millisecond[2]
  {
  }

  lemma AssembledTaken(fields: Fields)
    requires Narrow(fields) && |fields.year| == 4
    ensures Marked(Assembled(fields)) && FieldsOf(Assembled(fields)) == fields
  {
    hide Remainder;
    var text, remainder := Assembled(fields), Remainder(fields);
    assert forall k | 4 <= k < 24 :: text[k] == remainder[k - 4];
    RemainderDate(fields);
    RemainderTime(fields);
    RemainderEnd(fields);
    assert text[0..4] == fields.year && text[5..7] == fields.month && text[8..10] == fields.day;
    assert text[11..13] == fields.hour && text[14..16] == fields.minute && text[17..19] == fields.second;
    assert text[20..23] == fields.millisecond;
  }

  lemma TakenAssembled(text: string)
    requires Marked(text)
    ensures Narrow(FieldsOf(text)) && Assembled(FieldsOf(text)) == text
  {
    hide Remainder;
    var fields := FieldsOf(text);
    var remainder := Remainder(fields);
    RemainderDate(fields);
    RemainderTime(fields);
    RemainderEnd(fields);
    assert remainder == text[4..];
  }

  lemma Powers()
    ensures Power(2) == 100 && Power(3) == 1000 && Power(4) == 10000
  {
    assert Power(1) == 10;
    assert Power(2) == 100;
  }

  lemma FieldsFit(moment: Moment)
    requires Ok(moment.date) && TimeOfDay(moment)
    ensures |Padded(moment.date.month, 2)| == |Padded(moment.date.day, 2)| == |Padded(moment.hour, 2)| ==
        |Padded(moment.minute, 2)| == |Padded(moment.second, 2)| == 2
    ensures |Padded(moment.millisecond, 3)| == 3
    ensures Digits(Padded(moment.date.month, 2)) && Number(Padded(moment.date.month, 2)) == moment.date.month
    ensures Digits(Padded(moment.date.day, 2)) && Number(Padded(moment.date.day, 2)) == moment.date.day
    ensures Digits(Padded(moment.hour, 2)) && Number(Padded(moment.hour, 2)) == moment.hour
    ensures Digits(Padded(moment.minute, 2)) && Number(Padded(moment.minute, 2)) == moment.minute
    ensures Digits(Padded(moment.second, 2)) && Number(Padded(moment.second, 2)) == moment.second
    ensures Digits(Padded(moment.millisecond, 3)) && Number(Padded(moment.millisecond, 3)) == moment.millisecond
  {
    hide Padded, Number, Digits, Power;
    Powers();
    assert moment.date.day <= 31;
    PrintedReads(moment.date.month, 2);
    PrintedReads(moment.date.day, 2);
    PrintedReads(moment.hour, 2);
    PrintedReads(moment.minute, 2);
    PrintedReads(moment.second, 2);
    PrintedReads(moment.millisecond, 3);
  }

  function FieldsOfMoment(moment: Moment): (fields: Fields)
    requires Ok(moment.date) && TimeOfDay(moment)
    ensures Narrow(fields)
  {
    FieldsFit(moment);
    Fields(YearText(moment.date.year), Padded(moment.date.month, 2), Padded(moment.date.day, 2), Padded(moment.hour, 2),
           Padded(moment.minute, 2), Padded(moment.second, 2), Padded(moment.millisecond, 3))
  }

  /** TimestampHelper::storedTimestamp. */
  function StoredTimestamp(instant: int): string {
    Assembled(FieldsOfMoment(MomentOf(instant)))
  }

  /** The years of four digits. */
  predicate InRange(instant: int) {
    0 <= MomentOf(instant).date.year <= 9999
  }

  function NumbersOf(fields: Fields): Moment
    requires AllDigits(fields)
  {
    Moment(Date(Number(fields.year), Number(fields.month), Number(fields.day)), Number(fields.hour),
        Number(fields.minute), Number(fields.second), Number(fields.millisecond))
  }

  lemma MomentPrinted(moment: Moment)
    requires Ok(moment.date) && TimeOfDay(moment)
    ensures 0 <= moment.date.year ==> AllDigits(FieldsOfMoment(moment)) && NumbersOf(FieldsOfMoment(moment)) == moment
    ensures 0 <= moment.date.year <= 9999 <==> |FieldsOfMoment(moment).year| == 4 && Digits(FieldsOfMoment(moment).year)
  {
    hide Padded, Number, Digits, YearText;
    FieldsFit(moment);
    YearPrinted(moment.date.year);
  }

  lemma YearPrinted(year: int)
    ensures 0 <= year ==> Digits(YearText(year)) && Number(YearText(year)) == year
    ensures 0 <= year <= 9999 <==> |YearText(year)| == 4 && Digits(YearText(year))
  {
    hide Padded, Number, Power;
    Powers();
    if year >= 0 {
      PrintedReads(year, 4);
    } else {
      assert YearText(year)[0] == '-';
    }
  }

  lemma MomentRead(fields: Fields)
    requires Narrow(fields) && |fields.year| == 4 && AllDigits(fields)
    requires Ok(NumbersOf(fields).date) && TimeOfDay(NumbersOf(fields))
    ensures FieldsOfMoment(NumbersOf(fields)) == fields
    ensures 0 <= NumbersOf(fields).date.year <= 9999
  {
    hide Padded, Number, Digits, Power;
    Powers();
    ReadPrints(fields.year);
    ReadPrints(fields.month);
    ReadPrints(fields.day);
    ReadPrints(fields.hour);
    ReadPrints(fields.minute);
    ReadPrints(fields.second);
    ReadPrints(fields.millisecond);
  }

  // ----- The parser ----------------------------------------------------------------------------------------

  /** What the parser asks of a text. */
  predicate Accepts(text: string) {
    && Marked(text)
    && AllDigits(FieldsOf(text))
    && Ok(NumbersOf(FieldsOf(text)).date) && TimeOfDay(NumbersOf(FieldsOf(text)))
  }

  /** TimestampHelper::readNumber. */
  method ReadNumber(text: string, offset: nat, length: nat) returns (number: Option<nat>)
    requires offset + length <= |text|
    ensures number.Some? <==> Digits(text[offset..offset + length])
    ensures number.Some? ==> number.value == Number(text[offset..offset + length])
  {
    var digits := text[offset..offset + length];
    for k := 0 to |digits|
      invariant Digits(digits[..k])
    {
      if digits[k] < '0' || digits[k] > '9' {
        return None;
      }
      assert digits[..k + 1] == digits[..k] + [digits[k]];
    }
    assert digits[..|digits|] == digits;
    return Some(Number(digits));
  }

  /** An instant of a year of four digits is printed to a text that is accepted and stands for it. */
  lemma PrintedParses(instant: int)
    ensures InRange(instant) ==>
        Accepts(StoredTimestamp(instant)) && InstantOf(NumbersOf(FieldsOf(StoredTimestamp(instant)))) == instant
  {
    hide MomentOf, FieldsOfMoment, Assembled, FieldsOf, Marked, NumbersOf, Ok, TimeOfDay;
    var moment := MomentOf(instant);
    MomentPrinted(moment);
    if InRange(instant) {
      AssembledTaken(FieldsOfMoment(moment));
      InstantOfMoment(instant);
    }
  }

  /** An accepted text is what its instant is printed to. */
  lemma ParsedPrints(text: string)
    requires Accepts(text)
    ensures StoredTimestamp(InstantOf(NumbersOf(FieldsOf(text)))) == text
        && InRange(InstantOf(NumbersOf(FieldsOf(text))))
  {
    hide MomentOf, FieldsOfMoment, Assembled, NumbersOf, Ok, TimeOfDay, InstantOf;
    TakenAssembled(text);
    MomentRead(FieldsOf(text));
    MomentOfInstant(NumbersOf(FieldsOf(text)));
  }

  /** The first millisecond of the year 0000 and the last of the year 9999. */
  const FIRST: int := -62167219200000
  const LAST: int := 253402300799999

  /** The year of a date is the one its day falls in. */
  lemma YearOfDate(number: int)
    ensures DateOf(number).year == YearOf(number + EPOCH)
  {
    hide DaysBeforeMonth, DaysBeforeYear, Leap, YearOf, MonthFrom;
    var days := number + EPOCH;
    YearHolds(days);
    YearLength(YearOf(days));
    MonthNext(YearOf(days), 1);
    MonthHolds(YearOf(days), 1, days - DaysBeforeYear(YearOf(days)));
  }

  /** The years before one begin before it, and those behind it no earlier than the next. */
  lemma YearBounds(days: int, year: int)
    ensures DaysBeforeYear(year) <= days <==> year <= YearOf(days)
  {
    YearHolds(days);
    hide YearOf, DaysBeforeYear;
    var holds := YearOf(days);
    if holds < year {
      YearsGrow(holds, year);
    } else if year < holds {
      YearsGrow(year, holds);
      YearLength(year);
    }
  }

  lemma RangeOfYears(instant: int)
    ensures InRange(instant) <==> FIRST <= instant <= LAST
  {
    YearOfDate(instant / DAY);
    assert DaysBeforeYear(0) == -366 && DaysBeforeYear(10000) == 3652059;
    hide YearOf, DaysBeforeYear, DateOf;
    YearBounds(instant / DAY + EPOCH, 0);
    YearBounds(instant / DAY + EPOCH, 10000);
  }

  /**
   * Of the printed texts exactly those of the years 0000 to 9999 are accepted again, so an instant outside them is
   * lost by storing it.
   */
  lemma AcceptedAgain(instant: int)
    ensures Accepts(StoredTimestamp(instant)) <==> FIRST <= instant <= LAST
  {
    RangeOfYears(instant);
    hide MomentOf, FieldsOfMoment, Assembled, NumbersOf, Ok, TimeOfDay;
    var moment := MomentOf(instant);
    MomentPrinted(moment);
    if |FieldsOfMoment(moment).year| == 4 {
      AssembledTaken(FieldsOfMoment(moment));
    }
    if InRange(instant) {
      PrintedParses(instant);
    }
  }

  /**
   * TimestampHelper::parseStoredTimestamp: the one instant that is printed to the text, if there is one in the years
   * of four digits.
   */
  method ParseStoredTimestamp(text: string) returns (instant: Option<int>)
    ensures forall i :: instant == Some(i) <==> StoredTimestamp(i) == text && InRange(i)
  {
    hide StoredTimestamp, InRange;
    if !Marked(text) {
      Refused(text);
      return None;
    }
    var year := ReadNumber(text, 0, 4);
    var month := ReadNumber(text, 5, 2);
    var day := ReadNumber(text, 8, 2);
    var hour := ReadNumber(text, 11, 2);
    var minute := ReadNumber(text, 14, 2);
    var second := ReadNumber(text, 17, 2);
    var millisecond := ReadNumber(text, 20, 3);
    if year == None || month == None || day == None || hour == None || minute == None || second == None
        || millisecond == None {
      Refused(text);
      return None;
    }
    var date := Date(year.value, month.value, day.value);
    if !Ok(date) || hour.value > 23 || minute.value > 59 || second.value > 59 {
      Refused(text);
      return None;
    }
    var moment := Moment(date, hour.value, minute.value, second.value, millisecond.value);
    Thousandths(text[20..23]);
    assert moment == NumbersOf(FieldsOf(text));
    Answered(text);
    return Some(InstantOf(moment));
  }

  lemma Thousandths(digits: string)
    requires Digits(digits) && |digits| == 3
    ensures Number(digits) <= 999
  {
    ReadPrints(digits);
    Powers();
  }

  lemma Refused(text: string)
    requires !Accepts(text)
    ensures forall i | InRange(i) :: StoredTimestamp(i) != text
  {
    forall i | InRange(i)
      ensures StoredTimestamp(i) != text
    {
      PrintedParses(i);
    }
  }

  lemma Answered(text: string)
    requires Accepts(text)
    ensures forall i :: i == InstantOf(NumbersOf(FieldsOf(text))) <==> StoredTimestamp(i) == text && InRange(i)
  {
    var answer := InstantOf(NumbersOf(FieldsOf(text)));
    ParsedPrints(text);
    hide StoredTimestamp, InRange, InstantOf, NumbersOf, FieldsOf;
    forall i | StoredTimestamp(i) == text && InRange(i)
      ensures i == answer
    {
      PrintedParses(i);
    }
  }
}
