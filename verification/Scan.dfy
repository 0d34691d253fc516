/** Reading the newest snapshots back from directory listings: `scanBackupDir`,
    `latestBackupFiles`, `LatestBackupPath`, and the SFTP client's pick by name. */
module Scan {
  import opened Text
  import opened Calendar
  import opened BackupName
  import opened FileSystem
  import opened Cycle

  datatype DirEntry = DirEntry(name: string, isDir: bool)

  /** The snapshot of `id` that a directory entry stands for, if any. */
  function Candidate(e: DirEntry, id: string): Option<BackupFile> {
    if e.isDir then None
    else match Parse(e.name)
      case Some(f) => if f.id == id then Some(f) else None
      case None => None
  }

  function BestTime(best: Option<BackupFile>): Time {
    match best case Some(f) => f.time case None => 0
  }

  /** What the scan has recorded for `id` after reading `listing`. */
  function Newest(listing: seq<DirEntry>, id: string): Option<BackupFile> {
    if listing == [] then None
    else
      var best := Newest(listing[..|listing| - 1], id);
      match Candidate(listing[|listing| - 1], id)
      case Some(f) => if f.time > BestTime(best) then Some(f) else best
      case None => best
  }

  lemma ParsedHasExtension(name: string)
    requires Parse(name).Some?
    ensures HasSuffix(name, UNCOMPRESSED_EXT) || HasSuffix(name, COMPRESSED_EXT)
  {
    hide Parse;
    ParseThenRender(name);
    ExtOfRendered(Parse(name).value);
  }

  method ScanBackupDir(listing: seq<DirEntry>, backupIDs: seq<string>) returns (latest: map<string, BackupFile>)
    ensures forall id :: id in latest <==> id in backupIDs && Newest(listing, id).Some?
    ensures forall id :: id in latest ==> latest[id] == Newest(listing, id).value
  {
    hide Parse, HasSuffix;
    var wanted: set<string> := {};
    for i := 0 to |backupIDs|
      invariant forall id :: id in wanted <==> id in backupIDs[..i]
    {
      wanted := wanted + {backupIDs[i]};
    }
    assert backupIDs[..|backupIDs|] == backupIDs;
    latest := map[];
    for i := 0 to |listing|
      invariant forall id :: id in latest <==> id in wanted && Newest(listing[..i], id).Some?
      invariant forall id :: id in latest ==> latest[id] == Newest(listing[..i], id).value
    {
      var e := listing[i];
      assert listing[..i + 1][..i] == listing[..i] && listing[..i + 1][i] == e;
      assert forall id :: Candidate(e, id).None? ==> Newest(listing[..i + 1], id) == Newest(listing[..i], id);
      if e.isDir { continue; }
      // the extension gate lets every name through that can parse
      if !HasSuffix(e.name, UNCOMPRESSED_EXT) && !HasSuffix(e.name, COMPRESSED_EXT) {
        if Parse(e.name).Some? { ParsedHasExtension(e.name); }
        continue;
      }
      var parsed := Parse(e.name);
      if parsed.None? { continue; }
      var f := parsed.value;
      if f.id !in wanted { continue; }
      var recorded := if f.id in latest then latest[f.id].time else 0;
      if f.time > recorded {
        latest := latest[f.id := f];
      }
    }
    assert listing[..|listing|] == listing;
  }

  /** The recorded file is in the listing under its own name, nothing of the ID is newer,
      and it is absent only when the listing holds no snapshot after Go's zero time. */
  lemma {:induction false} NewestIsMaximal(listing: seq<DirEntry>, id: string)
    ensures var r := Newest(listing, id);
            && (r.Some? ==> r.value.time > 0 && r.value.id == id && InRange(r.value.time)
                            && DirEntry(Render(r.value), false) in listing)
            && (forall e | e in listing && Candidate(e, id).Some? :: Candidate(e, id).value.time <= BestTime(r))
            && (r.None? <==> forall e | e in listing && Candidate(e, id).Some? :: Candidate(e, id).value.time <= 0)
  {
    hide Parse, Render;
    if listing != [] {
      var n := |listing| - 1;
      var init, e := listing[..n], listing[n];
      NewestIsMaximal(init, id);
      assert forall x :: x in listing <==> x in init || x == e;
      if Candidate(e, id).Some? { ParseThenRender(e.name); }
    }
  }

  /** Of equally new snapshots the first listed one is recorded. */
  lemma {:induction false} NewestIsFirst(listing: seq<DirEntry>, id: string)
    requires Newest(listing, id).Some?
    ensures exists k | 0 <= k < |listing| ::
              && Candidate(listing[k], id) == Newest(listing, id)
              && forall j | 0 <= j < k && Candidate(listing[j], id).Some? ::
                   Candidate(listing[j], id).value.time < Newest(listing, id).value.time
  {
    hide Candidate;
    var n, r := |listing| - 1, Newest(listing, id);
    var init := listing[..n];
    NewestIsMaximal(init, id);
    if r == Newest(init, id) {
      NewestIsFirst(init, id);
      var k :| 0 <= k < |init| && Candidate(init[k], id) == r
        && forall j | 0 <= j < k && Candidate(init[j], id).Some? :: Candidate(init[j], id).value.time < r.value.time;
      assert listing[k] == init[k] && forall j | 0 <= j < k :: listing[j] == init[j];
    } else {
      assert forall j | 0 <= j < n :: listing[j] == init[j] && listing[j] in init;
      assert Candidate(listing[n], id) == r;
    }
  }

  /** `LatestBackupPath`, for a directory that could be listed or not; the path is the
      destination directory joined with the returned name. */
  method LatestBackupPath(listing: Option<seq<DirEntry>>, lbl: string, source: string) returns (name: Option<string>)
    ensures listing.None? ==> name.None?
    ensures listing.Some? ==> (name.Some? <==> Newest(listing.value, BackupId(lbl, Base(source))).Some?)
    ensures listing.Some? && name.Some? ==>
              && DirEntry(name.value, false) in listing.value
              && Parse(name.value) == Newest(listing.value, BackupId(lbl, Base(source)))
  {
    hide Parse, Render;
    var id := BackupId(lbl, Base(source));
    match listing {
      case None => return None;
      case Some(entries) =>
        var found := ScanBackupDir(entries, [id]);
        if id !in found { return None; }
        NewestIsMaximal(entries, id);
        RenderedNewest(entries, id);
        return Some(Render(found[id]));
    }
  }

  lemma {:induction false} RenderedNewest(listing: seq<DirEntry>, id: string)
    ensures var r := Newest(listing, id);
            r.Some? ==> InRange(r.value.time) && Parse(Render(r.value)) == r
  {
    hide Parse, Render;
    if listing != [] {
      RenderedNewest(listing[..|listing| - 1], id);
      var e := listing[|listing| - 1];
      if Candidate(e, id).Some? { ParseThenRender(e.name); }
    }
  }

  // ---------- all configured directories ----------

  ghost predicate Wants(entries: seq<Entry>, dir: string, id: string) {
    exists e | e in entries :: e.Active() && e.dest == dir && e.Id() == id
  }

  lemma WantsAppend(entries: seq<Entry>, e: Entry, dir: string, id: string)
    ensures Wants(entries + [e], dir, id) <==> Wants(entries, dir, id) || (e.Active() && e.dest == dir && e.Id() == id)
  {
    hide BackupId, Base;
    assert forall x :: x in entries + [e] <==> x in entries || x == e;
  }

  function NewestIn(listings: map<string, seq<DirEntry>>, dir: string, id: string): Option<BackupFile> {
    if dir in listings then Newest(listings[dir], id) else None
  }

  /** The scan of a directory that could be listed finds a snapshot of the ID. */
  ghost predicate Found(entries: seq<Entry>, listings: map<string, seq<DirEntry>>, dir: string, id: string) {
    Wants(entries, dir, id) && NewestIn(listings, dir, id).Some?
  }

  /** Among `dirs`, the last directory in name order that finds the ID. */
  ghost predicate LastFound(entries: seq<Entry>, listings: map<string, seq<DirEntry>>, dirs: set<string>,
                            dir: string, id: string) {
    && dir in dirs && Found(entries, listings, dir, id)
    && forall other | other in dirs && Found(entries, listings, other, id) && other != dir :: LexLess(other, dir)
  }

  /** The map holds what the last directory finds, and nothing where none does. */
  ghost predicate Records(entries: seq<Entry>, listings: map<string, seq<DirEntry>>, dirs: set<string>,
                          latest: map<string, BackupFile>) {
    && (forall id | id in latest :: exists dir ::
          LastFound(entries, listings, dirs, dir, id) && Some(latest[id]) == NewestIn(listings, dir, id))
    && (forall id, dir | dir in dirs && Found(entries, listings, dir, id) :: id in latest)
  }

  lemma {:induction false} LeastOf(names: set<string>) returns (least: string)
    requires names != {}
    ensures least in names && forall n | n in names && n != least :: LexLess(least, n)
    decreases |names|
  {
    hide LexLess;
    least :| least in names;
    var rest := names - {least};
    if rest != {} {
      var r := LeastOf(rest);
      LexTotal(least, r);
      if LexLess(r, least) {
        least := r;
      } else {
        forall n | n in names && n != least
          ensures LexLess(least, n)
        {
          if n != r { LexTransitive(least, r, n); }
        }
      }
    }
  }

  /** The directory scanned next comes after all earlier ones, so what it finds is recorded
      over what they found. */
  lemma RecordsNext(entries: seq<Entry>, listings: map<string, seq<DirEntry>>, dirs: set<string>,
                    latest: map<string, BackupFile>,
                    dir: string, found: map<string, BackupFile>)
    requires Records(entries, listings, dirs, latest) && dir !in dirs
             && forall other | other in dirs :: LexLess(other, dir)
    requires forall id :: id in found <==> Found(entries, listings, dir, id)
    requires forall id | id in found :: Some(found[id]) == NewestIn(listings, dir, id)
    ensures Records(entries, listings, dirs + {dir}, latest + found)
  {
    hide LexLess, Wants, NewestIn, Found;
    forall id | id in latest + found
      ensures exists x ::
                LastFound(entries, listings, dirs + {dir}, x, id)
                  && Some((latest + found)[id]) == NewestIn(listings, x, id)
    {
      if id in found {
        assert LastFound(entries, listings, dirs + {dir}, dir, id);
      } else {
        var x :| LastFound(entries, listings, dirs, x, id) && Some(latest[id]) == NewestIn(listings, x, id);
        assert LastFound(entries, listings, dirs + {dir}, x, id);
      }
    }
  }

  /** `latestBackupFiles`. `listings` holds what each directory read gave; a directory that
      could not be read is missing. */
  method LatestBackupFiles(entries: seq<Entry>, listings: map<string, seq<DirEntry>>)
    returns (latest: map<string, BackupFile>)
    ensures Records(entries, listings, listings.Keys, latest)
  {
    hide BackupId, Base, Newest, LexLess, Records;
    var destDirs: map<string, seq<string>> := map[];
    for i := 0 to |entries|
      invariant forall dir, id :: (dir in destDirs && id in destDirs[dir]) <==> Wants(entries[..i], dir, id)
    {
      var e := entries[i];
      assert entries[..i + 1] == entries[..i] + [e];
      forall dir, id { WantsAppend(entries[..i], e, dir, id); }
      if e.source == "" || e.dest == "" { continue; }
      var ids := if e.dest in destDirs then destDirs[e.dest] else [];
      destDirs := destDirs[e.dest := ids + [e.Id()]];
    }
    assert entries[..|entries|] == entries;
    latest := map[];
    var todo := destDirs.Keys;
    NothingRecorded(entries, listings);
    assert destDirs.Keys - todo == {};
    while todo != {}
      invariant todo <= destDirs.Keys
      invariant forall a, b | a in destDirs.Keys - todo && b in todo :: LexLess(a, b)
      invariant Records(entries, listings, destDirs.Keys - todo, latest)
    {
      ghost var least := LeastOf(todo);
      ghost var done := destDirs.Keys - todo;
      var dir :| dir in todo && forall other | other in todo && other != dir :: LexLess(dir, other);
      todo := todo - {dir};
      assert destDirs.Keys - todo == done + {dir};
      if dir in listings {
        var found := ScanBackupDir(listings[dir], destDirs[dir]);
        RecordsNext(entries, listings, done, latest, dir, found);
        latest := latest + found;
      } else {
        RecordsNext(entries, listings, done, latest, dir, map[]);
        assert latest + map[] == latest;
      }
    }
    assert destDirs.Keys - todo == destDirs.Keys;
    AllWanted(entries, listings, destDirs.Keys, latest);
  }

  lemma NothingRecorded(entries: seq<Entry>, listings: map<string, seq<DirEntry>>)
    ensures Records(entries, listings, {}, map[])
  {
  }

  lemma AllWanted(entries: seq<Entry>, listings: map<string, seq<DirEntry>>, dirs: set<string>,
                  latest: map<string, BackupFile>)
    requires Records(entries, listings, dirs, latest) && forall dir, id | Wants(entries, dir, id) :: dir in dirs
    ensures Records(entries, listings, listings.Keys, latest)
  {
    hide LexLess, Newest, Wants;
    forall id | id in latest
      ensures exists dir ::
                LastFound(entries, listings, listings.Keys, dir, id) && Some(latest[id]) == NewestIn(listings, dir, id)
    {
      var dir :| LastFound(entries, listings, dirs, dir, id) && Some(latest[id]) == NewestIn(listings, dir, id);
      assert LastFound(entries, listings, listings.Keys, dir, id);
    }
  }

  /** For an ID kept in one directory the map says what that directory holds. */
  lemma RecordedInOneDir(entries: seq<Entry>, listings: map<string, seq<DirEntry>>, latest: map<string, BackupFile>,
                         e: Entry)
    requires Records(entries, listings, listings.Keys, latest) && e in entries && e.Active()
    requires forall x | x in entries && x.Active() && x.Id() == e.Id() :: x.dest == e.dest
    ensures (if e.Id() in latest then Some(latest[e.Id()]) else None) ==
            NewestIn(listings, e.dest, e.Id())
  {
    hide LexLess, Newest, BackupId, Base;
    assert Wants(entries, e.dest, e.Id());
    if e.Id() in latest {
      var dir :| LastFound(entries, listings, listings.Keys, dir, e.Id())
        && Some(latest[e.Id()]) == NewestIn(listings, dir, e.Id());
      assert dir == e.dest;
    }
  }

  /** The local jobs and the upload job agree on the newest snapshot: both report the same
      file for the same listing. */
  method NewestTwice(e: Entry, listing: seq<DirEntry>) returns (file: Option<BackupFile>, name: Option<string>)
    requires e.Active()
    ensures file.Some? <==> name.Some?
    ensures file.Some? ==> InRange(file.value.time) && name == Some(Render(file.value))
    ensures name.Some? ==> DirEntry(name.value, false) in listing
  {
    hide Parse, Render, Newest, Records, BackupId, Base;
    var latest := LatestBackupFiles([e], map[e.dest := listing]);
    file := if e.Id() in latest then Some(latest[e.Id()]) else None;
    name := LatestBackupPath(Some(listing), e.lbl, e.source);
    RecordedInOneDir([e], map[e.dest := listing], latest, e);
    if name.Some? { ParseThenRender(name.value); }
  }

  // ---------- the due check ----------

  function IsBackupDue(latestTime: Time, frequency: Duration, now: Time): bool {
    latestTime == 0 || Sub(now, latestTime) >= frequency
  }

  ghost predicate Lists(listing: seq<DirEntry>, d: Disk, dir: string) {
    && (forall p: Path | p.dir == dir :: p in d.names <==> DirEntry(p.name, false) in listing)
  }

  /** Checking the newest snapshot of a directory alone decides for all of them. */
  lemma DueByNewest(d: Disk, dir: string, id: string, frequency: Duration, now: Time, listing: seq<DirEntry>)
    requires Lists(listing, d, dir)
    ensures var newest := Newest(listing, id);
            && (newest.Some? <==> exists p :: Counts(d, p, dir, id))
            && (AllOld(d, dir, id, frequency, now) <==> IsBackupDue(BestTime(newest), frequency, now))
  {
    hide Parse, Newest, Render;
    var r := Newest(listing, id);
    NewestIsMaximal(listing, id);
    RenderedNewest(listing, id);
    if r.Some? {
      var p := Path(dir, Render(r.value));
      assert p in d.names && Counts(d, p, dir, id);
      forall q | Counts(d, q, dir, id)
        ensures Parse(q.name).value.time <= r.value.time
      {
        assert Candidate(DirEntry(q.name, false), id) == Parse(q.name);
      }
    } else {
      NothingCounts(d, dir, id, listing);
    }
  }

  lemma NothingCounts(d: Disk, dir: string, id: string, listing: seq<DirEntry>)
    requires Lists(listing, d, dir)
    requires forall x | x in listing && Candidate(x, id).Some? :: Candidate(x, id).value.time <= 0
    ensures forall q :: !Counts(d, q, dir, id)
  {
    hide Parse;
    forall q: Path
      ensures !Counts(d, q, dir, id)
    {
      var x := DirEntry(q.name, false);
      assert Candidate(x, id) ==
        (match Parse(q.name) case Some(f) => if f.id == id then Some(f) else None case None => None);
    }
  }

  // ---------- the SFTP client ----------

  /** `sort.Slice` with `>` on names: insertion, newest name first. */
  function Insert(x: string, xs: seq<string>): seq<string> {
    if xs == [] || LexLess(xs[0], x) then [x] + xs else [xs[0]] + Insert(x, xs[1..])
  }

  function SortDescending(xs: seq<string>): seq<string> {
    if xs == [] then [] else Insert(xs[0], SortDescending(xs[1..]))
  }

  function FindLatestBackup(names: seq<string>): Option<string> {
    var sorted := SortDescending(names);
    if sorted == [] then None else Some(sorted[0])
  }

  lemma {:induction false} InsertFront(x: string, xs: seq<string>)
    ensures multiset(Insert(x, xs)) == multiset(xs) + multiset{x} && Insert(x, xs) != []
    ensures Insert(x, xs)[0] == if xs == [] || LexLess(xs[0], x) then x else xs[0]
  {
    hide LexLess;
    if !(xs == [] || LexLess(xs[0], x)) {
      InsertFront(x, xs[1..]);
      assert xs == [xs[0]] + xs[1..];
    }
  }

  /** The sorted listing holds the same names and starts with the greatest. */
  lemma {:induction false} SortedFront(xs: seq<string>)
    ensures multiset(SortDescending(xs)) == multiset(xs)
    ensures xs == [] <==> SortDescending(xs) == []
    ensures xs != [] ==> SortDescending(xs)[0] in xs
    ensures forall y | y in xs :: y == SortDescending(xs)[0] || LexLess(y, SortDescending(xs)[0])
  {
    hide LexLess;
    if xs != [] {
      var rest := SortDescending(xs[1..]);
      SortedFront(xs[1..]);
      InsertFront(xs[0], rest);
      assert xs == [xs[0]] + xs[1..];
      var top := SortDescending(xs)[0];
      forall y | y in xs
        ensures y == top || LexLess(y, top)
      {
        if rest != [] {
          LexTotal(xs[0], rest[0]);
          if y != rest[0] && LexLess(rest[0], xs[0]) && y in xs[1..] { LexTransitive(y, rest[0], xs[0]); }
        }
      }
    }
  }

  /** In a directory of compressed snapshots of one ID, the greatest name is the newest
      snapshot, the one the scan reports. */
  lemma PickByNameIsNewest(names: seq<string>, listing: seq<DirEntry>, id: string)
    requires names != [] && forall n :: n in names <==> DirEntry(n, false) in listing
    requires forall n | n in names ::
               Parse(n).Some? && Parse(n).value.id == id && Parse(n).value.compressed && Parse(n).value.time > 0
    ensures Newest(listing, id).Some? && InRange(Newest(listing, id).value.time)
    ensures FindLatestBackup(names) == Some(Render(Newest(listing, id).value))
  {
    hide Parse, Newest, LexLess, Render, InRange, Truncate;
    SortedFront(names);
    var top := SortDescending(names)[0];
    NewestIsMaximal(listing, id);
    RenderedNewest(listing, id);
    assert Candidate(DirEntry(top, false), id) == Parse(top);
    assert Newest(listing, id).Some?;
    var best := Render(Newest(listing, id).value);
    assert best in names;
    var f, g := Parse(best).value, Parse(top).value;
    ParseThenRender(best);
    ParseThenRender(top);
    assert Candidate(DirEntry(best, false), id) == Parse(best);
    if g.time < f.time {
      NamesSortByTime(g, f);
      LexAntisymmetric(top, best);
    }
    assert f == g;
  }

  lemma LexAntisymmetric(a: string, b: string)
    ensures !(LexLess(a, b) && LexLess(b, a)) && !LexLess(a, a)
  {
    LexIrreflexive(a);
    if LexLess(a, b) && LexLess(b, a) { LexTransitive(a, b, a); }
  }
}
