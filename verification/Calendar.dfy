/** Instants and the proleptic Gregorian calendar that Go's `time` prints and parses.
    An instant is a number of nanoseconds since Go's zero time, 0001-01-01T00:00:00Z,
    so `IsZero` is equality with 0; year 0 is representable and lies before it. */
module Calendar {
  import opened Text

  type Time = int
  type Duration = int

  const SECOND: int := 1_000_000_000
  const MAX_DURATION: int := 0x7fff_ffff_ffff_ffff
  const MIN_DURATION: int := -0x8000_0000_0000_0000

  /** `Time.Sub`: the difference, clamped to what an int64 duration holds. */
  function Sub(a: Time, b: Time): Duration {
    var d := a - b;
    if d > MAX_DURATION then MAX_DURATION else if d < MIN_DURATION then MIN_DURATION else d
  }

  /** The instant with everything below the second dropped, as the layout prints it. */
  function Truncate(t: Time): Time { t / SECOND * SECOND }

  // ---------- days ----------

  predicate IsLeap(y: int) { y % 4 == 0 && (y % 100 != 0 || y % 400 == 0) }

  function YearLength(y: int): int { if IsLeap(y) then 366 else 365 }

  /** Days from 0001-01-01 to the first day of year y. */
  function DaysBeforeYear(y: int): int {
    365 * (y - 1) + (y - 1) / 4 - (y - 1) / 100 + (y - 1) / 400
  }

  function DaysIn(y: int, m: int): int {
    if m == 2 then (if IsLeap(y) then 29 else 28)
    else if m == 4 || m == 6 || m == 9 || m == 11 then 30
    else 31
  }

  function DaysBeforeMonth(y: int, m: int): int
    requires 1 <= m <= 13
  {
    if m == 1 then 0 else DaysBeforeMonth(y, m - 1) + DaysIn(y, m - 1)
  }

  datatype Date = Date(year: int, month: int, day: int) {
    predicate Valid() {
      0 <= year <= 9999 && 1 <= month <= 12 && 1 <= day <= DaysIn(year, month)
    }

    /** The eight digits YYYYMMDD read as one number. */
    function Number(): int { year * 10000 + month * 100 + day }
  }

  function DayNumber(d: Date): int
    requires d.Valid()
  {
    DaysBeforeYear(d.year) + DaysBeforeMonth(d.year, d.month) + d.day - 1
  }

  lemma FourStep(y: int)
    ensures y / 4 - (y - 1) / 4 == if y % 4 == 0 then 1 else 0
  {
  }

  lemma HundredStep(y: int)
    ensures y / 100 - (y - 1) / 100 == if y % 100 == 0 then 1 else 0
  {
  }

  lemma FourHundredStep(y: int)
    ensures y / 400 - (y - 1) / 400 == if y % 400 == 0 then 1 else 0
  {
  }

  lemma YearStep(y: int)
    ensures DaysBeforeYear(y + 1) == DaysBeforeYear(y) + YearLength(y)
  {
    FourStep(y);
    HundredStep(y);
    FourHundredStep(y);
    LeapMultiples(y);
  }

  lemma LeapMultiples(y: int)
    ensures y % 400 == 0 ==> y % 100 == 0
    ensures y % 100 == 0 ==> y % 4 == 0
  {
  }

  lemma {:induction false} YearsGrow(a: int, b: int)
    requires a < b
    ensures DaysBeforeYear(a) + YearLength(a) <= DaysBeforeYear(b)
    decreases b - a
  {
    YearStep(b - 1);
    if a < b - 1 { YearsGrow(a, b - 1); }
  }

  lemma MonthTable(y: int)
    ensures DaysBeforeMonth(y, 13) == YearLength(y)
  {
    assert DaysBeforeMonth(y, 2) == 31;
    assert DaysBeforeMonth(y, 3) == 31 + DaysIn(y, 2);
    assert DaysBeforeMonth(y, 4) == DaysBeforeMonth(y, 3) + 31;
    assert DaysBeforeMonth(y, 5) == DaysBeforeMonth(y, 3) + 61;
    assert DaysBeforeMonth(y, 6) == DaysBeforeMonth(y, 3) + 92;
    assert DaysBeforeMonth(y, 7) == DaysBeforeMonth(y, 3) + 122;
    assert DaysBeforeMonth(y, 8) == DaysBeforeMonth(y, 3) + 153;
    assert DaysBeforeMonth(y, 9) == DaysBeforeMonth(y, 3) + 184;
    assert DaysBeforeMonth(y, 10) == DaysBeforeMonth(y, 3) + 214;
    assert DaysBeforeMonth(y, 11) == DaysBeforeMonth(y, 3) + 245;
    assert DaysBeforeMonth(y, 12) == DaysBeforeMonth(y, 3) + 275;
  }

  lemma {:induction false} MonthsGrow(y: int, a: int, b: int)
    requires 1 <= a < b <= 13
    ensures 0 <= DaysBeforeMonth(y, a)
    ensures DaysBeforeMonth(y, a) + DaysIn(y, a) <= DaysBeforeMonth(y, b)
    decreases b - a, a
  {
    if a > 1 { MonthsGrow(y, a - 1, a); }
    if a < b - 1 { MonthsGrow(y, a, b - 1); }
  }

  /** A valid date lies inside its year. */
  lemma DayInYear(d: Date)
    requires d.Valid()
    ensures DaysBeforeYear(d.year) <= DayNumber(d) < DaysBeforeYear(d.year) + YearLength(d.year)
  {
    MonthsGrow(d.year, d.month, 13);
    MonthTable(d.year);
  }

  /** Dates order by their eight digits exactly as by day number. */
  lemma DatesOrdered(a: Date, b: Date)
    requires a.Valid() && b.Valid() && a.Number() < b.Number()
    ensures DayNumber(a) < DayNumber(b)
  {
    if a.year < b.year {
      DayInYear(a);
      DayInYear(b);
      YearsGrow(a.year, b.year);
    } else if a.month < b.month {
      MonthsGrow(a.year, a.month, b.month);
    }
  }

  lemma DateDigits(a: Date, b: Date)
    requires a.Valid() && b.Valid() && a.Number() == b.Number()
    ensures a == b
  {
  }

  function YearFrom(day: int, y: int): (r: int)
    requires DaysBeforeYear(y) <= day
    ensures y <= r && DaysBeforeYear(r) <= day < DaysBeforeYear(r) + YearLength(r)
    decreases day - DaysBeforeYear(y)
  {
    YearStep(y);
    if day < DaysBeforeYear(y + 1) then y else YearFrom(day, y + 1)
  }

  function MonthFrom(y: int, rest: int, m: int): (r: int)
    requires 1 <= m <= 12 && DaysBeforeMonth(y, m) <= rest < DaysBeforeMonth(y, 13)
    ensures m <= r <= 12 && DaysBeforeMonth(y, r) <= rest < DaysBeforeMonth(y, r) + DaysIn(y, r)
    decreases 12 - m
  {
    if rest < DaysBeforeMonth(y, m + 1) then m else MonthFrom(y, rest, m + 1)
  }

  /** Years 0 to 9999, the years a four-digit field holds. */
  predicate InRange(t: Time) {
    DaysBeforeYear(0) * 86400 * SECOND <= t < DaysBeforeYear(10000) * 86400 * SECOND
  }

  function DateOfDay(day: int): (d: Date)
    requires DaysBeforeYear(0) <= day < DaysBeforeYear(10000)
    ensures d.Valid() && DayNumber(d) == day
  {
    var y := YearFrom(day, 0);
    assert y <= 9999 by { if y > 9999 { YearsBelow(10000, y); } }
    MonthTable(y);
    var rest := day - DaysBeforeYear(y);
    var m := MonthFrom(y, rest, 1);
    Date(y, m, rest - DaysBeforeMonth(y, m) + 1)
  }

  lemma YearsBelow(a: int, b: int)
    requires a <= b
    ensures DaysBeforeYear(a) <= DaysBeforeYear(b)
  {
    if a < b { YearsGrow(a, b); }
  }

  // ---------- the timestamp layout 20060102T150405Z ----------

  datatype Clock = Clock(hour: int, minute: int, second: int) {
    predicate Valid() { 0 <= hour < 24 && 0 <= minute < 60 && 0 <= second < 60 }
    function Number(): int { hour * 10000 + minute * 100 + second }
    function Seconds(): int { hour * 3600 + minute * 60 + second }
  }

  function ClockOfSecond(s: int): (c: Clock)
    requires 0 <= s < 86400
    ensures c.Valid() && c.Seconds() == s
  {
    Clock(s / 3600, s % 3600 / 60, s % 60)
  }

  function TimeOf(d: Date, c: Clock): Time
    requires d.Valid() && c.Valid()
  {
    (DayNumber(d) * 86400 + c.Seconds()) * SECOND
  }

  function DayOf(t: Time): int { t / SECOND / 86400 }
  function SecondOfDay(t: Time): int { t / SECOND % 86400 }

  lemma RangeOfDay(t: Time)
    requires InRange(t)
    ensures DaysBeforeYear(0) <= DayOf(t) < DaysBeforeYear(10000)
  {
  }

  function DateOf(t: Time): (d: Date)
    requires InRange(t)
    ensures d.Valid()
  {
    RangeOfDay(t);
    DateOfDay(DayOf(t))
  }

  function ClockOf(t: Time): (c: Clock)
    ensures c.Valid()
  {
    ClockOfSecond(SecondOfDay(t))
  }

  /** Splitting an instant into date and clock loses only the fraction of a second. */
  lemma SplitInstant(t: Time)
    requires InRange(t)
    ensures TimeOf(DateOf(t), ClockOf(t)) == Truncate(t)
  {
    RangeOfDay(t);
  }

  lemma SecondsInRange(day: int, s: int, lo: int, hi: int)
    requires lo <= day < hi && 0 <= s < 86400
    ensures lo * 86400 * SECOND <= (day * 86400 + s) * SECOND < hi * 86400 * SECOND
    ensures ((day * 86400 + s) * SECOND) / SECOND == day * 86400 + s
  {
  }

  lemma TimeInRange(d: Date, c: Clock)
    requires d.Valid() && c.Valid()
    ensures InRange(TimeOf(d, c)) && Truncate(TimeOf(d, c)) == TimeOf(d, c)
  {
    hide DayNumber, DaysBeforeYear, IsLeap;
    DayInYear(d);
    YearsBelow(0, d.year);
    YearsGrow(d.year, 10000);
    SecondsInRange(DayNumber(d), c.Seconds(), DaysBeforeYear(0), DaysBeforeYear(10000));
  }

  /** Every valid date and clock reading denotes exactly one instant and back. */
  lemma JoinInstant(d: Date, c: Clock)
    requires d.Valid() && c.Valid()
    ensures InRange(TimeOf(d, c)) && DateOf(TimeOf(d, c)) == d && ClockOf(TimeOf(d, c)) == c
  {
    TimeInRange(d, c);
    var t := TimeOf(d, c);
    assert DayOf(t) == DayNumber(d) && SecondOfDay(t) == c.Seconds();
    RangeOfDay(t);
    var e := DateOf(t);
    if d.Number() < e.Number() { DatesOrdered(d, e); }
    if e.Number() < d.Number() { DatesOrdered(e, d); }
    DateDigits(d, e);
  }

  function DateText(d: Date): (s: string)
    requires d.Valid()
    ensures |s| == 8
  {
    Digits(d.year, 4) + Digits(d.month, 2) + Digits(d.day, 2)
  }

  function ClockText(c: Clock): (s: string)
    requires c.Valid()
    ensures |s| == 6
  {
    Digits(c.hour, 2) + Digits(c.minute, 2) + Digits(c.second, 2)
  }

  /** `t.UTC().Format("20060102T150405Z")`. */
  function FormatTime(t: Time): (s: string)
    requires InRange(t)
    ensures |s| == 16
  {
    DateText(DateOf(t)) + "T" + ClockText(ClockOf(t)) + "Z"
  }

  /** `\d{8}T\d{6}Z`. */
  predicate IsStamp(s: string) {
    |s| == 16 && AllDigits(s[..8]) && s[8] == 'T' && AllDigits(s[9..15]) && s[15] == 'Z'
  }

  /** `time.Parse("20060102T150405Z", s)`: every field in its calendar range. */
  function ParseTime(s: string): Option<Time>
    requires IsStamp(s)
  {
    StampParts(s);
    var d := Date(Value(s[..4]), Value(s[4..6]), Value(s[6..8]));
    var c := Clock(Value(s[9..11]), Value(s[11..13]), Value(s[13..15]));
    if d.Valid() && c.Valid() then Some(TimeOf(d, c)) else None
  }

  lemma StampParts(s: string)
    requires IsStamp(s)
    ensures AllDigits(s[..4]) && AllDigits(s[4..6]) && AllDigits(s[6..8])
    ensures AllDigits(s[9..11]) && AllDigits(s[11..13]) && AllDigits(s[13..15])
  {
    assert forall i :: 0 <= i < 8 ==> s[i] == s[..8][i];
    assert forall i :: 9 <= i < 15 ==> s[i] == s[9..15][i - 9];
  }

  lemma FormatIsStamp(t: Time)
    requires InRange(t)
    ensures IsStamp(FormatTime(t))
  {
    var s := FormatTime(t);
    assert s[..8] == DateText(DateOf(t)) && s[9..15] == ClockText(ClockOf(t));
  }

  /** Parsing what was printed gives the instant to the second. */
  lemma FormatThenParse(t: Time)
    requires InRange(t)
    ensures IsStamp(FormatTime(t)) && ParseTime(FormatTime(t)) == Some(Truncate(t))
  {
    hide Digits, Value, DateOf, ClockOf, InRange, Truncate;
    FormatIsStamp(t);
    var s, d, c := FormatTime(t), DateOf(t), ClockOf(t);
    StampParts(s);
    assert s[..4] == Digits(d.year, 4) && s[4..6] == Digits(d.month, 2) && s[6..8] == Digits(d.day, 2);
    assert s[9..11] == Digits(c.hour, 2) && s[11..13] == Digits(c.minute, 2) && s[13..15] == Digits(c.second, 2);
    FourDigits(d.year);
    TwoDigits(d.month);
    TwoDigits(d.day);
    TwoDigits(c.hour);
    TwoDigits(c.minute);
    TwoDigits(c.second);
    SplitInstant(t);
  }

  lemma StampText(s: string)
    requires IsStamp(s) && ParseTime(s).Some?
    ensures var t := ParseTime(s).value;
            && InRange(t) && Truncate(t) == t
            && DateText(DateOf(t)) == s[..8] && ClockText(ClockOf(t)) == s[9..15]
  {
    hide Digits, Value, InRange, Truncate, TimeOf;
    StampParts(s);
    var d := Date(Value(s[..4]), Value(s[4..6]), Value(s[6..8]));
    var c := Clock(Value(s[9..11]), Value(s[11..13]), Value(s[13..15]));
    JoinInstant(d, c);
    TimeInRange(d, c);
    ValueThenDigits(s[..4]);
    ValueThenDigits(s[4..6]);
    ValueThenDigits(s[6..8]);
    ValueThenDigits(s[9..11]);
    ValueThenDigits(s[11..13]);
    ValueThenDigits(s[13..15]);
    assert s[..8] == s[..4] + s[4..6] + s[6..8];
    assert s[9..15] == s[9..11] + s[11..13] + s[13..15];
  }

  /** Printing what was parsed gives the same sixteen characters. */
  lemma ParseThenFormat(s: string)
    requires IsStamp(s) && ParseTime(s).Some?
    ensures InRange(ParseTime(s).value) && Truncate(ParseTime(s).value) == ParseTime(s).value
    ensures FormatTime(ParseTime(s).value) == s
  {
    hide ParseTime, DateText, ClockText, InRange, Truncate;
    StampText(s);
    assert s == s[..8] + "T" + s[9..15] + "Z";
  }

  lemma DateTextNumber(d: Date)
    requires d.Valid()
    ensures 0 <= d.Number() < 100_000_000 && DateText(d) == Digits(d.Number(), 8)
  {
    hide Digits;
    JoinTwo(d.year, d.month, 4);
    JoinTwo(d.year * 100 + d.month, d.day, 6);
  }

  lemma ClockTextNumber(c: Clock)
    requires c.Valid()
    ensures 0 <= c.Number() < 1_000_000 && ClockText(c) == Digits(c.Number(), 6)
  {
    hide Digits;
    JoinTwo(c.hour, c.minute, 2);
    JoinTwo(c.hour * 100 + c.minute, c.second, 4);
  }

  lemma ClocksOrdered(b: Clock, c: Clock)
    requires b.Valid() && c.Valid() && b.Seconds() < c.Seconds()
    ensures b.Number() < c.Number()
  {
  }

  lemma ClockTextsOrdered(b: Clock, c: Clock)
    requires b.Valid() && c.Valid() && b.Seconds() < c.Seconds()
    ensures LexLess(ClockText(b) + "Z", ClockText(c) + "Z")
  {
    hide LexLess, Digits, ClockText, Pow10;
    Powers();
    ClocksOrdered(b, c);
    ClockTextNumber(b);
    ClockTextNumber(c);
    DigitsOrdered(b.Number(), c.Number(), 6);
    LexExtend(ClockText(b), ClockText(c), "Z", "Z");
  }

  lemma DateTextsOrdered(d: Date, e: Date, x: string, y: string)
    requires d.Valid() && e.Valid() && d.Number() < e.Number()
    ensures LexLess(DateText(d) + x, DateText(e) + y)
  {
    hide LexLess, Digits, DateText, Pow10;
    Powers();
    DateTextNumber(d);
    DateTextNumber(e);
    DigitsOrdered(d.Number(), e.Number(), 8);
    LexExtend(DateText(d), DateText(e), x, y);
  }

  /** A later second has a later date, or the same date and a later clock. */
  lemma LaterInstant(t: Time, u: Time)
    requires InRange(t) && InRange(u) && Truncate(t) < Truncate(u)
    ensures || DateOf(t).Number() < DateOf(u).Number()
            || (DateOf(t) == DateOf(u) && ClockOf(t).Seconds() < ClockOf(u).Seconds())
  {
    hide YearFrom, MonthFrom, DayNumber;
    RangeOfDay(t);
    RangeOfDay(u);
    assert DayOf(t) <= DayOf(u);
    assert DayOf(t) == DayOf(u) ==> SecondOfDay(t) < SecondOfDay(u);
    var d, e := DateOf(t), DateOf(u);
    if e.Number() < d.Number() { DatesOrdered(e, d); }
    if e.Number() == d.Number() { DateDigits(d, e); }
  }

  /** Timestamps sort as text in the order of the seconds they denote. */
  lemma TextOrderIsTimeOrder(t: Time, u: Time)
    requires InRange(t) && InRange(u) && Truncate(t) < Truncate(u)
    ensures LexLess(FormatTime(t), FormatTime(u))
  {
    hide DateText, ClockText, LexLess, DateOf, ClockOf, Truncate, InRange;
    LaterInstant(t, u);
    var d, e, b, c := DateOf(t), DateOf(u), ClockText(ClockOf(t)), ClockText(ClockOf(u));
    if d.Number() < e.Number() {
      DateTextsOrdered(d, e, "T" + b + "Z", "T" + c + "Z");
      assert FormatTime(t) == DateText(d) + ("T" + b + "Z");
      assert FormatTime(u) == DateText(e) + ("T" + c + "Z");
    } else {
      ClockTextsOrdered(ClockOf(t), ClockOf(u));
      LexCommonPrefix(DateText(d) + "T", b + "Z", c + "Z");
      assert FormatTime(t) == (DateText(d) + "T") + (b + "Z");
      assert FormatTime(u) == (DateText(d) + "T") + (c + "Z");
    }
  }
}
