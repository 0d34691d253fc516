/** The file names of local snapshots: `backupFile.String`, `parseBackupFile` and the
    other names one snapshot cycle uses in a destination directory. */
module BackupName {
  import opened Text
  import opened Calendar

  const COMPRESSED_EXT := ".bck.gz"
  const UNCOMPRESSED_EXT := ".db"

  /** One snapshot: the backup ID, the instant, and whether it is gzip-compressed. */
  datatype BackupFile = BackupFile(id: string, time: Time, compressed: bool)

  function Ext(compressed: bool): string {
    if compressed then COMPRESSED_EXT else UNCOMPRESSED_EXT
  }

  function Render(f: BackupFile): string
    requires InRange(f.time)
  {
    f.id + "-" + FormatTime(f.time) + Ext(f.compressed)
  }

  /** What the group `(.+)` accepts: `.` is any character but a newline. */
  predicate IdChars(id: string) {
    id != [] && '\n' !in id
  }

  /** `^(.+)-(\d{8}T\d{6}Z)<ext>$` matches `name` with these two groups. */
  predicate Matches(name: string, ext: string, id: string, stamp: string) {
    IdChars(id) && IsStamp(stamp) && name == id + "-" + stamp + ext
  }

  /** `FindStringSubmatch`: the tail has a fixed length, so the split is forced. */
  function FindSubmatch(name: string, ext: string): (r: Option<(string, string)>)
    ensures r.Some? ==> Matches(name, ext, r.value.0, r.value.1)
    ensures forall id, stamp :: Matches(name, ext, id, stamp) ==> r == Some((id, stamp))
  {
    var cut := |name| - |ext| - 17;
    assert forall id, stamp :: Matches(name, ext, id, stamp) ==>
        |id| == cut && id == name[..cut] && stamp == name[cut + 1..cut + 17];
    if cut < 1 then None
    else
      var id, stamp := name[..cut], name[cut + 1..cut + 17];
      if Matches(name, ext, id, stamp) then Some((id, stamp)) else None
  }

  function Parse(name: string): Option<BackupFile> {
    var compressed := HasSuffix(name, COMPRESSED_EXT);
    match FindSubmatch(name, Ext(compressed))
    case None => None
    case Some((id, stamp)) =>
      match ParseTime(stamp)
      case None => None
      case Some(t) => Some(BackupFile(id, t, compressed))
  }

  // ---------- printer and parser are inverse ----------

  lemma ExtOfRendered(f: BackupFile)
    requires InRange(f.time)
    ensures HasSuffix(Render(f), COMPRESSED_EXT) == f.compressed
    ensures HasSuffix(Render(f), Ext(f.compressed))
  {
    var s := Render(f);
    assert s[|s| - |Ext(f.compressed)|..] == Ext(f.compressed);
    assert !f.compressed ==> s[|s| - 1] == 'b';
    assert HasSuffix(s, COMPRESSED_EXT) ==> s[|s| - 1] == COMPRESSED_EXT[6];
  }

  /** Parsing a printed name gives back the file with its time cut to the second, for
      every ID the grammar can hold, and is refused for every other ID. */
  lemma RenderThenParse(f: BackupFile)
    requires InRange(f.time)
    ensures Parse(Render(f)) ==
            if IdChars(f.id) then Some(f.(time := Truncate(f.time))) else None
  {
    hide FormatTime, ParseTime, Truncate;
    ExtOfRendered(f);
    FormatThenParse(f.time);
    var s, ext, stamp := Render(f), Ext(f.compressed), FormatTime(f.time);
    if IdChars(f.id) {
      assert Matches(s, ext, f.id, stamp);
    } else {
      assert f.id == s[..|f.id|];
      assert forall id, st :: Matches(s, ext, id, st) ==> id == f.id;
    }
  }

  /** Printing a parsed file gives back the name, so no two names parse alike. */
  lemma ParseThenRender(name: string)
    requires Parse(name).Some?
    ensures var f := Parse(name).value;
            && InRange(f.time) && Truncate(f.time) == f.time && IdChars(f.id)
            && Render(f) == name
  {
    hide FormatTime, ParseTime, Truncate;
    var (id, stamp) := FindSubmatch(name, Ext(HasSuffix(name, COMPRESSED_EXT))).value;
    ParseThenFormat(stamp);
  }

  /** For one ID and one extension, names sort as the seconds they carry. */
  lemma NamesSortByTime(f: BackupFile, g: BackupFile)
    requires f.id == g.id && InRange(f.time) && InRange(g.time)
    requires Truncate(f.time) < Truncate(g.time)
    ensures LexLess(Render(f), Render(g))
  {
    hide FormatTime, LexLess, Truncate;
    TextOrderIsTimeOrder(f.time, g.time);
    LexExtend(FormatTime(f.time), FormatTime(g.time), Ext(f.compressed), Ext(g.compressed));
    LexCommonPrefix(f.id + "-", FormatTime(f.time) + Ext(f.compressed), FormatTime(g.time) + Ext(g.compressed));
    assert Render(f) == f.id + "-" + (FormatTime(f.time) + Ext(f.compressed));
    assert Render(g) == f.id + "-" + (FormatTime(g.time) + Ext(g.compressed));
  }

  // ---------- the other names of a cycle ----------

  const LATEST := "latest-"
  const TMP := ".tmp"

  /** `buildBackupID`, on the base name of the source path. */
  function BackupId(lbl: string, base: string): (id: string)
    ensures '-' in id
  {
    assert (lbl + "-" + base)[|lbl|] == '-';
    lbl + "-" + base
  }

  function Staged(name: string): string { name + TMP }
  function LatestName(id: string): string { LATEST + id }
  function TempName(id: string, now: Time): string {
    "backup-" + id + "-" + Decimal(UnixNano(now)) + ".db"
  }

  /** Nanoseconds since 1970, 719162 days after Go's zero time. */
  function UnixNano(t: Time): int { t - 719162 * 86400 * SECOND }

  /** A snapshot name ends `Z.db` or `.bck.gz`. */
  lemma TailOfParsed(s: string)
    requires Parse(s).Some?
    ensures |s| >= 4
    ensures s[|s| - 1] == 'z' || (s[|s| - 1] == 'b' && s[|s| - 4] == 'Z')
  {
    hide FormatTime, Parse;
    ParseThenRender(s);
    var f := Parse(s).value;
    FormatIsStamp(f.time);
    var tail := FormatTime(f.time) + Ext(f.compressed);
    assert s == f.id + "-" + tail;
    assert s[|s| - 1] == tail[|tail| - 1] && s[|s| - 4] == tail[|tail| - 4];
  }

  /** No staging name is ever a snapshot, whatever it stages. */
  lemma StagedNeverParses(name: string)
    ensures Parse(Staged(name)).None?
  {
    hide Parse;
    var s := Staged(name);
    assert s[|s| - 1] == TMP[3];
    if Parse(s).Some? { TailOfParsed(s); }
  }

  /** Nor is the dump in the system's temp directory. */
  lemma TempNeverParses(id: string, now: Time)
    ensures Parse(TempName(id, now)).None?
  {
    hide Parse;
    var n := Decimal(UnixNano(now));
    var s := TempName(id, now);
    assert s == "backup-" + id + "-" + n + ".db";
    assert s[|s| - 1] == 'b' && s[|s| - 4] == n[|n| - 1];
    if Parse(s).Some? { TailOfParsed(s); }
  }

  /** A timestamp and its extension hold no dash. */
  lemma TailHasNoDash(t: Time, compressed: bool)
    requires InRange(t)
    ensures '-' !in FormatTime(t) + Ext(compressed)
  {
    hide FormatTime;
    FormatIsStamp(t);
    var s := FormatTime(t);
    forall i | 0 <= i < 16
      ensures s[i] != '-'
    {
      assert i < 8 ==> s[i] == s[..8][i];
      assert 9 <= i < 15 ==> s[i] == s[9..15][i - 9];
    }
  }

  /** A latest link can only parse as a snapshot of an ID that itself starts with
      `latest-`; IDs always contain a dash. */
  lemma LatestParsesAs(id: string)
    requires '-' in id && Parse(LatestName(id)).Some?
    ensures HasPrefix(Parse(LatestName(id)).value.id, LATEST)
  {
    hide FormatTime, Parse;
    var s := LatestName(id);
    var f := Parse(s).value;
    ParseThenRender(s);
    var i :| 0 <= i < |id| && id[i] == '-';
    assert s[7 + i] == '-';
    TailHasNoDash(f.time, f.compressed);
    var tail := FormatTime(f.time) + Ext(f.compressed);
    assert s == f.id + "-" + tail;
    assert forall j :: |f.id| < j < |s| ==> s[j] == tail[j - |f.id| - 1];
    assert f.id == s[..|f.id|];
    assert f.id[..7] == s[..7] == LATEST;
  }
}
