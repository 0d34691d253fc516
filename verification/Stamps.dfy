/** What the timestamps mean, said without the calendar functions: the Gregorian rule for
    the days that exist, one known instant, and one day after the other. Together they fix
    every stamp's instant. */
module Stamps {
  import opened Text
  import opened Calendar
  import opened BackupName
  import opened S3Key

  datatype Fields = Fields(year: nat, month: nat, day: nat, hour: nat, minute: nat, second: nat) {
    predicate Printable() {
      year < 10_000 && month < 100 && day < 100 && hour < 100 && minute < 100 && second < 100
    }

    /** The stamp with these digits, whether or not there is such a second. */
    function Stamp(): string {
      Digits(year, 4) + Digits(month, 2) + Digits(day, 2) + "T"
      + Digits(hour, 2) + Digits(minute, 2) + Digits(second, 2) + "Z"
    }

    /** The rule of the Gregorian calendar, and the hours of a day. */
    predicate Exists() {
      && 1 <= month <= 12 && 1 <= day && hour <= 23 && minute <= 59 && second <= 59
      && match month
         case 2 => day <= 28 || (day == 29 && (year % 400 == 0 || (year % 4 == 0 && year % 100 != 0)))
         case 4 => day <= 30
         case 6 => day <= 30
         case 9 => day <= 30
         case 11 => day <= 30
         case _ => day <= 31
    }

    function Date(): Date { Calendar.Date(year, month, day) }
    function Clock(): Clock { Calendar.Clock(hour, minute, second) }
    function Midnight(): Fields { this.(hour := 0, minute := 0, second := 0) }

    /** The same reading of the clock on the next day of the calendar. */
    function NextDay(): Fields {
      if this.(day := day + 1).Exists() then this.(day := day + 1)
      else if month < 12 then this.(month := month + 1, day := 1)
      else this.(year := year + 1, month := 1, day := 1)
    }
  }

  lemma StampParsed(f: Fields)
    requires f.Printable()
    ensures IsStamp(f.Stamp())
    ensures ParseTime(f.Stamp()) ==
            if f.Date().Valid() && f.Clock().Valid() then Some(TimeOf(f.Date(), f.Clock())) else None
  {
    hide Digits, Value, TimeOf, DaysIn;
    var s := f.Stamp();
    assert s[..8] == Digits(f.year, 4) + Digits(f.month, 2) + Digits(f.day, 2);
    assert s[9..15] == Digits(f.hour, 2) + Digits(f.minute, 2) + Digits(f.second, 2);
    assert s[..4] == Digits(f.year, 4) && s[4..6] == Digits(f.month, 2) && s[6..8] == Digits(f.day, 2);
    assert s[9..11] == Digits(f.hour, 2) && s[11..13] == Digits(f.minute, 2) && s[13..15] == Digits(f.second, 2);
    FourDigits(f.year);
    TwoDigits(f.month);
    TwoDigits(f.day);
    TwoDigits(f.hour);
    TwoDigits(f.minute);
    TwoDigits(f.second);
  }

  lemma ExistsIsValid(f: Fields)
    requires f.Printable()
    ensures f.Exists() <==> f.Date().Valid() && f.Clock().Valid()
  {
  }

  /** A stamp parses exactly when its second exists. */
  lemma ParsesExactly(f: Fields)
    requires f.Printable()
    ensures IsStamp(f.Stamp()) && (ParseTime(f.Stamp()).Some? <==> f.Exists())
  {
    hide TimeOf;
    StampParsed(f);
    ExistsIsValid(f);
  }

  /** And every stamp has such fields. */
  lemma StampFields(s: string) returns (f: Fields)
    requires IsStamp(s)
    ensures f.Printable() && f.Stamp() == s
  {
    hide Digits, Value;
    StampParts(s);
    f := Fields(Value(s[..4]), Value(s[4..6]), Value(s[6..8]), Value(s[9..11]), Value(s[11..13]), Value(s[13..15]));
    PartBound(s[..4]);
    PartBound(s[4..6]);
    PartBound(s[6..8]);
    PartBound(s[9..11]);
    PartBound(s[11..13]);
    PartBound(s[13..15]);
    assert s == s[..4] + s[4..6] + s[6..8] + "T" + s[9..11] + s[11..13] + s[13..15] + "Z";
  }

  lemma PartBound(s: string)
    requires AllDigits(s) && (|s| == 2 || |s| == 4)
    ensures Digits(Value(s), |s|) == s && Value(s) < if |s| == 2 then 100 else 10_000
  {
    hide Digits, Value, Pow10;
    Powers();
    ValueBound(s);
    ValueThenDigits(s);
  }

  // ---------- the instants ----------

  /** The clock counts seconds from midnight. */
  lemma ClockCounts(f: Fields)
    requires f.Printable() && f.Exists()
    ensures IsStamp(f.Stamp()) && IsStamp(f.Midnight().Stamp())
    ensures ParseTime(f.Stamp()).Some? && ParseTime(f.Midnight().Stamp()).Some?
    ensures ParseTime(f.Stamp()).value - ParseTime(f.Midnight().Stamp()).value ==
            (f.hour * 3600 + f.minute * 60 + f.second) * SECOND
  {
    hide ParseTime, TimeOf, IsStamp, DaysIn;
    StampParsed(f);
    ExistsIsValid(f);
    StampParsed(f.Midnight());
    ExistsIsValid(f.Midnight());
    FromMidnight(f.Date(), f.Clock());
  }

  lemma FromMidnight(d: Date, c: Clock)
    requires d.Valid() && c.Valid()
    ensures TimeOf(d, c) - TimeOf(d, Clock(0, 0, 0)) == c.Seconds() * SECOND
  {
    hide DayNumber, DaysIn, TimeOf, Clock.Seconds;
    Midnight0();
    TimeIs(d, c, DayNumber(d), c.Seconds());
    TimeIs(d, Clock(0, 0, 0), DayNumber(d), 0);
    Scaled(DayNumber(d), c.Seconds());
  }

  lemma Midnight0()
    ensures Clock(0, 0, 0).Valid() && Clock(0, 0, 0).Seconds() == 0
  {
  }

  lemma TimeIs(d: Date, c: Clock, n: int, s: int)
    requires d.Valid() && c.Valid() && n == DayNumber(d) && s == c.Seconds()
    ensures TimeOf(d, c) == (n * 86400 + s) * SECOND
  {
    hide DayNumber, DaysIn;
  }

  lemma Scaled(day: int, s: int)
    ensures (day * 86400 + s) * SECOND - (day * 86400 + 0) * SECOND == s * SECOND
  {
  }

  /** The next day of the calendar begins one day later. */
  lemma NextDayIsNext(f: Fields)
    requires f.Printable() && f.Exists() && f.NextDay().year < 10_000
    ensures f.NextDay().Exists() && IsStamp(f.Stamp()) && IsStamp(f.NextDay().Stamp())
    ensures ParseTime(f.Stamp()).Some? && ParseTime(f.NextDay().Stamp()).Some?
    ensures ParseTime(f.NextDay().Stamp()).value == ParseTime(f.Stamp()).value + 86400 * SECOND
  {
    hide ParseTime, DayNumber;
    var g := f.NextDay();
    StampParsed(f);
    ExistsIsValid(f);
    StampParsed(g);
    ExistsIsValid(g);
    DayAfter(f);
    assert TimeOf(g.Date(), g.Clock()) == TimeOf(f.Date(), f.Clock()) + 86400 * SECOND;
  }

  lemma DayAfter(f: Fields)
    requires f.Printable() && f.Exists() && f.NextDay().year < 10_000
    ensures f.Date().Valid() && f.NextDay().Date().Valid()
    ensures DayNumber(f.NextDay().Date()) == DayNumber(f.Date()) + 1
  {
    hide DaysBeforeYear, DaysBeforeMonth;
    var g := f.NextDay();
    ExistsIsValid(f);
    ExistsIsValid(g);
    if g.month != f.month {
      assert f.day == DaysIn(f.year, f.month);
      MonthStart(f.year, f.month);
      if f.month == 12 {
        MonthTable(f.year);
        YearStep(f.year);
        MonthStart(g.year, 1);
      }
    }
  }

  lemma MonthStart(y: int, m: int)
    requires 1 <= m <= 12
    ensures DaysBeforeMonth(y, m + 1) == DaysBeforeMonth(y, m) + DaysIn(y, m) && DaysBeforeMonth(y, 1) == 0
  {
  }

  /** The Unix epoch, and Go's zero time. */
  lemma KnownInstants()
    ensures IsStamp("19700101T000000Z") && ParseTime("19700101T000000Z").Some?
    ensures var t := ParseTime("19700101T000000Z").value;
            && UnixNano(t) == 0 && Unix(t) == 0 && InRange(t) && FormatTime(t) == "19700101T000000Z"
    ensures IsStamp("00010101T000000Z") && ParseTime("00010101T000000Z") == Some(0)
  {
    hide ParseTime, FormatTime, InRange, Truncate, TimeOf, Digits;
    var epoch, zero := Fields(1970, 1, 1, 0, 0, 0), Fields(1, 1, 1, 0, 0, 0);
    SmallDigits();
    KnownTexts();
    StampParsed(epoch);
    StampParsed(zero);
    KnownDays();
    ParseThenFormat(epoch.Stamp());
  }

  lemma KnownTexts()
    ensures Fields(1970, 1, 1, 0, 0, 0).Stamp() == "19700101T000000Z"
    ensures Fields(1, 1, 1, 0, 0, 0).Stamp() == "00010101T000000Z"
  {
    hide Digits;
    SmallDigits();
    assert "1970" + "01" + "01" + "T" + "00" + "00" + "00" + "Z" == "19700101T000000Z";
    assert "0001" + "01" + "01" + "T" + "00" + "00" + "00" + "Z" == "00010101T000000Z";
  }

  lemma KnownDays()
    ensures Date(1970, 1, 1).Valid() && Date(1, 1, 1).Valid() && Clock(0, 0, 0).Valid()
    ensures TimeOf(Date(1970, 1, 1), Clock(0, 0, 0)) == 719162 * 86400 * SECOND
    ensures TimeOf(Date(1, 1, 1), Clock(0, 0, 0)) == 0
  {
    hide TimeOf, DayNumber, DaysIn, Clock.Seconds;
    KnownDates();
    Midnight0();
    TimeIs(Date(1970, 1, 1), Clock(0, 0, 0), 719162, 0);
    TimeIs(Date(1, 1, 1), Clock(0, 0, 0), 0, 0);
  }

  lemma KnownDates()
    ensures Date(1970, 1, 1).Valid() && Date(1, 1, 1).Valid()
    ensures DayNumber(Date(1970, 1, 1)) == 719162 && DayNumber(Date(1, 1, 1)) == 0
  {
    hide DaysBeforeYear, DaysBeforeMonth, IsLeap;
    MonthStart(1970, 1);
    MonthStart(1, 1);
    KnownYears();
  }

  lemma KnownYears()
    ensures DaysBeforeYear(1970) == 719162 && DaysBeforeYear(1) == 0
  {
    assert 1969 / 4 == 492 && 1969 / 100 == 19 && 1969 / 400 == 4;
  }

  lemma SmallDigits()
    ensures Digits(1970, 4) == "1970" && Digits(1, 4) == "0001" && Digits(1, 2) == "01" && Digits(0, 2) == "00"
  {
    hide Digits;
    OneDigit(1);
    OneDigit(0);
    LastDigit(19, 2);
    LastDigit(197, 3);
    LastDigit(1970, 4);
    LastDigit(0, 2);
    LastDigit(0, 3);
    LastDigit(1, 4);
    LastDigit(1, 2);
  }

  lemma OneDigit(n: nat)
    requires n < 10
    ensures Digits(n, 1) == [DigitChar(n)]
  {
  }

  lemma LastDigit(n: nat, w: nat)
    requires w > 1
    ensures Digits(n, w) == Digits(n / 10, w - 1) + [DigitChar(n % 10)]
  {
  }

  /** Four hundred years later the calendar is the same again. */
  lemma FourCenturies(t: Time)
    requires InRange(t) && InRange(t + 146_097 * 86400 * SECOND)
    ensures var s, u := FormatTime(t), FormatTime(t + 146_097 * 86400 * SECOND);
            && u[4..] == s[4..] && AllDigits(s[..4]) && AllDigits(u[..4]) && Value(u[..4]) == Value(s[..4]) + 400
  {
    hide InRange, Digits, Value, DateOf, ClockOf, DayNumber;
    var u := t + 146_097 * 86400 * SECOND;
    var d, c := DateOf(t), ClockOf(t);
    SplitInstant(t);
    SplitInstant(u);
    LaterDate(t, d);
    var e := DateOf(u);
    assert FormatTime(t)[4..] == Digits(d.month, 2) + Digits(d.day, 2) + "T" + ClockText(c) + "Z";
    assert FormatTime(u)[4..] == Digits(e.month, 2) + Digits(e.day, 2) + "T" + ClockText(ClockOf(u)) + "Z";
    FourDigits(d.year);
    FourDigits(e.year);
    assert FormatTime(t)[..4] == Digits(d.year, 4) && FormatTime(u)[..4] == Digits(e.year, 4);
  }

  lemma LaterDate(t: Time, d: Date)
    requires InRange(t) && InRange(t + 146_097 * 86400 * SECOND) && d == DateOf(t)
    ensures var u := t + 146_097 * 86400 * SECOND;
            DateOf(u) == d.(year := d.year + 400) && ClockOf(u) == ClockOf(t)
  {
    hide InRange, DateOfDay, DayNumber, DaysBeforeYear;
    var u := t + 146_097 * 86400 * SECOND;
    assert u / SECOND == t / SECOND + 146_097 * 86400;
    assert DayOf(u) == DayOf(t) + 146_097 && SecondOfDay(u) == SecondOfDay(t);
    RangeOfDay(t);
    RangeOfDay(u);
    YearsBelow(0, 400);
    var e := DateOf(u);
    Later(d, e);
  }

  lemma Later(d: Date, e: Date)
    requires d.Valid() && e.Valid() && DayNumber(e) == DayNumber(d) + 146_097
    ensures e == d.(year := d.year + 400)
  {
    hide DaysBeforeYear, DaysBeforeMonth, YearLength;
    FourHundredYears(d.year);
    DayInYear(d);
    DayInYear(e);
    YearStep(e.year);
    if e.year + 1 <= d.year + 400 { YearsBelow(e.year + 1, d.year + 400); }
    var g := d.(year := d.year + 400);
    SameMonths(d.year, d.month);
    if g.Number() < e.Number() { DatesOrdered(g, e); }
    if e.Number() < g.Number() { DatesOrdered(e, g); }
    DateDigits(g, e);
  }

  lemma FourHundredYears(y: int)
    ensures DaysBeforeYear(y + 400) == DaysBeforeYear(y) + 146_097 && (IsLeap(y + 400) <==> IsLeap(y))
  {
    ShiftFour(y);
    ShiftFour(y - 1);
    ShiftHundred(y);
    ShiftHundred(y - 1);
    ShiftFourHundred(y);
    ShiftFourHundred(y - 1);
  }

  lemma ShiftFour(y: int)
    ensures (y + 400) / 4 == y / 4 + 100 && (y + 400) % 4 == y % 4
  {
  }

  lemma ShiftHundred(y: int)
    ensures (y + 400) / 100 == y / 100 + 4 && (y + 400) % 100 == y % 100
  {
  }

  lemma ShiftFourHundred(y: int)
    ensures (y + 400) / 400 == y / 400 + 1 && (y + 400) % 400 == y % 400
  {
  }

  lemma {:induction false} SameMonths(y: int, m: int)
    requires 1 <= m <= 12
    ensures DaysBeforeMonth(y + 400, m) == DaysBeforeMonth(y, m) && DaysIn(y + 400, m) == DaysIn(y, m)
    decreases m
  {
    hide IsLeap;
    FourHundredYears(y);
    if m > 1 { SameMonths(y, m - 1); }
  }
}
