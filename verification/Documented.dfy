/** The names as the system documents them, spelled out to the last character: local
    snapshots, object keys, downloads. */
module Documented {
  import opened Text
  import opened Calendar
  import opened BackupName
  import opened FileSystem
  import opened Cycle
  import opened S3Key
  import opened Directories
  import opened Recover
  import opened Stamps

  // ---------- numbers ----------

  /** A printed number reads back, without zeros in front. */
  lemma {:induction false} DecimalReads(n: nat)
    ensures AllDigits(Decimal(n)) && Value(Decimal(n)) == n
    ensures n > 0 ==> Decimal(n)[0] != '0'
    ensures Decimal(0 - n) == if n == 0 then "0" else "-" + Decimal(n)
  {
    if n < 10 {
      assert Decimal(n)[..0] == "" && Decimal(n)[0] == DigitChar(n);
    } else {
      DecimalReads(n / 10);
      var s := Decimal(n);
      assert s[..|s| - 1] == Decimal(n / 10) && s[0] == Decimal(n / 10)[0];
    }
  }

  /** The pad counts the seconds to the end of the year 9999. */
  lemma PadCounts(t: Time)
    requires 0 <= 253402300799 - Unix(t) < 1_000_000_000_000
    ensures |Pad(t)| == 12 && AllDigits(Pad(t)) && Value(Pad(t)) + Unix(t) == 253402300799
  {
    hide Digits, Pow10, Value;
    PadShape(t);
    Powers();
    DigitsThenValue(253402300799 - Unix(t), 12);
  }

  /** Whatever the time, the pad has at least twelve characters and reads as the seconds left,
      with a sign after that year. */
  lemma PadReads(t: Time)
    ensures var n, s := 253402300799 - Unix(t), Pad(t);
            && |s| >= 12
            && (n >= 0 ==> AllDigits(s) && Value(s) == n)
            && (n < 0 ==> s[0] == '-' && AllDigits(s[1..]) && Value(s[1..]) == -n)
  {
    hide Digits, Pow10, Value, AllDigits;
    var n := 253402300799 - Unix(t);
    if n >= 0 { PaddedReads(n, 12); } else { PaddedReads(-n, 11); }
  }

  lemma PaddedReads(n: nat, w: nat)
    ensures var s := ZeroPadded(n, w);
            AllDigits(s) && Value(s) == n && |s| >= w
  {
    hide Digits, Value, AllDigits, Pow10, Decimal;
    if n < Pow10(w) {
      DigitsThenValue(n, w);
    } else {
      DecimalReads(n);
      ValueBound(Decimal(n));
      if |Decimal(n)| < w { PowersGrow(|Decimal(n)|, w); }
    }
  }

  lemma {:induction false} PowersGrow(a: nat, b: nat)
    requires a <= b
    ensures Pow10(a) <= Pow10(b) && Pow10(a) > 0
    decreases b
  {
    if a < b { PowersGrow(a, b - 1); } else if a > 0 { PowersGrow(a - 1, b - 1); }
  }

  /** The last second of that year has the pad zero. */
  lemma LastPad()
    ensures var f := Fields(9999, 12, 31, 23, 59, 59);
            && IsStamp(f.Stamp()) && ParseTime(f.Stamp()).Some?
            && Unix(ParseTime(f.Stamp()).value) == 253402300799
            && Pad(ParseTime(f.Stamp()).value) == "000000000000"
  {
    hide ParseTime, TimeOf, Digits, DayNumber, Pow10;
    var f := Fields(9999, 12, 31, 23, 59, 59);
    StampParsed(f);
    ExistsIsValid(f);
    LastDay();
    TimeIs(f.Date(), f.Clock(), 3652058, 86399);
    var t := ParseTime(f.Stamp()).value;
    assert Unix(t) == 253402300799;
    PadShape(t);
    Zeros(12);
  }

  lemma LastDay()
    ensures Date(9999, 12, 31).Valid() && DayNumber(Date(9999, 12, 31)) == 3652058
  {
    hide DaysBeforeMonth;
    MonthStart(9999, 12);
    MonthTable(9999);
    assert DaysBeforeYear(9999) == 3651694 by { assert 9998 / 4 == 2499 && 9998 / 100 == 99 && 9998 / 400 == 24; }
  }

  function Repeat(c: char, n: nat): string { if n == 0 then "" else Repeat(c, n - 1) + [c] }

  lemma {:induction false} Zeros(w: nat)
    ensures Digits(0, w) == Repeat('0', w)
    ensures w == 12 ==> Digits(0, w) == "000000000000"
  {
    if w > 0 { Zeros(w - 1); }
  }

  // ---------- local snapshots ----------

  /** The five names of a cycle, for a source in whatever directory. */
  lemma CycleNames(e: Entry, env: Env, x: string, b: string)
    requires InRange(env.now) && NoSlash(b) && b != "" && (e.source == b || e.source == x + "/" + b)
    ensures var p, id := PathsOf(e, env), e.lbl + "-" + b;
            var final := id + "-" + FormatTime(env.now) + if e.compression then ".bck.gz" else ".db";
            && p.final == Path(e.dest, final) && p.stage == Path(e.dest, final + ".tmp")
            && p.latest == Path(e.dest, "latest-" + id) && p.latestTmp == Path(e.dest, "latest-" + id + ".tmp")
            && p.temp == Path(env.tempDir, "backup-" + id + "-" + Decimal(UnixNano(env.now)) + ".db")
            && (p.linked <==> !e.compression)
  {
    hide FormatTime, Decimal, Base, InRange;
    BaseExactly(x, b);
  }

  /** The documented ID. */
  lemma DocumentedId()
    ensures BackupId("app_db", Base("data/app.db")) == "app_db-app.db"
  {
    hide Base;
    BaseExactly("data", "app.db");
    assert "data" + "/" + "app.db" == "data/app.db";
  }

  /** The documented snapshot name is that ID on the first of August 2025 at half past ten. */
  lemma DocumentedName()
    ensures var stamp, name := Fields(2025, 8, 1, 10, 30, 0).Stamp(), "app_db-app.db-20250801T103000Z.bck.gz";
            && IsStamp(stamp) && ParseTime(stamp).Some? && InRange(ParseTime(stamp).value)
            && var f := BackupFile("app_db-app.db", ParseTime(stamp).value, true);
               Render(f) == name && Parse(name) == Some(f)
  {
    hide ParseTime, FormatTime, Parse, IsStamp, InRange, Truncate, Fields.Exists, Fields.Printable;
    hide Fields.Stamp, IdChars;
    var f := Fields(2025, 8, 1, 10, 30, 0);
    DocumentedStamp(f);
    ParsesExactly(f);
    ParseThenFormat(f.Stamp());
    RenderedName(ParseTime(f.Stamp()).value);
  }

  lemma RenderedName(t: Time)
    requires InRange(t) && FormatTime(t) == "20250801T103000Z" && Truncate(t) == t
    ensures var f, name := BackupFile("app_db-app.db", t, true), "app_db-app.db-20250801T103000Z.bck.gz";
            Render(f) == name && Parse(name) == Some(f)
  {
    hide FormatTime, Parse, InRange, Truncate, IdChars;
    PlainId();
    RenderThenParse(BackupFile("app_db-app.db", t, true));
  }

  lemma PlainId()
    ensures IdChars("app_db-app.db")
  {
  }

  lemma DocumentedStamp(f: Fields)
    requires f == Fields(2025, 8, 1, 10, 30, 0)
    ensures f.Stamp() == "20250801T103000Z" && f.Printable() && f.Exists()
  {
    hide Digits;
    OneDigit(2);
    OneDigit(0);
    OneDigit(1);
    OneDigit(3);
    LastDigit(20, 2);
    LastDigit(202, 3);
    LastDigit(2025, 4);
    LastDigit(8, 2);
    LastDigit(1, 2);
    LastDigit(10, 2);
    LastDigit(30, 2);
    LastDigit(0, 2);
  }

  // ---------- object keys and downloads ----------

  /** The documented key. */
  lemma DocumentedKey()
    ensures ObjectKey("app-s3", "251611468335", "app.db") == "backup/app-s3/251611468335/app.db"
  {
    hide ObjectKey, ObjectKeyPrefix;
    hide GoodSegment;
    PlainSegments();
    KeyText("app-s3", "251611468335", "app.db");
  }

  /** Its parts. */
  lemma DocumentedParts()
    ensures PadAndName("backup/app-s3/251611468335/app.db") == Some(("251611468335", "app.db"))
  {
    hide ObjectKey, PadAndName, GoodSegment;
    PlainSegments();
    DocumentedKey();
    PadAndNameOfKey("app-s3", "251611468335", "app.db");
  }

  lemma PlainSegments()
    ensures GoodSegment("app-s3") && GoodSegment("251611468335") && GoodSegment("app.db")
  {
  }

  /** The names of downloads. */
  lemma DownloadName(lbl: string, pad: string, name: string)
    ensures DestName(lbl, pad, name) == "s3download-" + lbl + "-" + pad + "-" + name
  {
    var head := "s3download-" + lbl + "-";
    assert head + (pad + "-" + name) == head + pad + "-" + name;
  }

  /** A key without a slash has no pad. */
  lemma NoParts(key: string)
    ensures PadAndName(key).None? <==> NoSlash(key)
  {
    hide Split;
    if NoSlash(key) { SplitOfSegment(key, ""); } else { OnePart(key); }
  }

  lemma {:induction false} OnePart(key: string)
    requires !NoSlash(key)
    ensures |Split(key)| >= 2
  {
    if key[0] != '/' {
      assert !NoSlash(key[1..]);
      OnePart(key[1..]);
    }
  }
}
