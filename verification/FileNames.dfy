/** Directory and name as one path, the way `filepath.Join` makes it: why a file can be
    modelled as a directory and a name, and what an ID with a slash in it does. */
module FileNames {
  import opened Text
  import opened Calendar
  import opened BackupName
  import opened NameSpace
  import opened FileSystem
  import opened S3Key
  import opened Scan

  function FullPath(p: Path): string { PathJoin([p.dir, p.name]) }

  // ---------- names without a slash ----------

  predicate Rooted(dir: string) { dir != "" && dir[0] == '/' }

  function Elements(dir: string): seq<string> { PushAll([], Rooted(dir), Split(dir)) }

  lemma ElementsAreClean(dir: string)
    ensures (forall x | x in Elements(dir) :: NoSlash(x)) && "" !in Elements(dir) && "." !in Elements(dir)
  {
    hide Split, PushAll;
    PushAllKeepsSegments([], Rooted(dir), Split(dir));
  }

  function Written(rooted: bool, elements: seq<string>): string
    requires elements != []
  {
    (if rooted then "/" else "") + Join(elements)
  }

  lemma FullPathText(p: Path)
    requires p.dir != "" && GoodSegment(p.name)
    ensures FullPath(p) == Written(Rooted(p.dir), Elements(p.dir) + [p.name])
  {
    hide Split, PushAll, Push;
    var whole := p.dir + "/" + p.name;
    JoinPairOf(p.dir, p.name);
    assert whole != "" && Rooted(whole) == Rooted(p.dir);
    SplitAppend(p.dir, p.name);
    SplitOfSegment(p.name, "");
    PushAllAppend([], Rooted(p.dir), Split(p.dir), [p.name]);
    PushLast(Elements(p.dir), Rooted(p.dir), p.name);
    ElementsAreClean(p.dir);
    JoinNotEmpty(Elements(p.dir) + [p.name]);
  }

  lemma JoinPairOf(dir: string, name: string)
    requires dir != ""
    ensures DropEmpty([dir, name]) == [dir, name] && Join([dir, name]) == dir + "/" + name
  {
    assert [dir, name][1..] == [name];
  }

  lemma PushLast(elements: seq<string>, rooted: bool, name: string)
    requires GoodSegment(name)
    ensures PushAll(elements, rooted, [name]) == elements + [name]
  {
    assert PushAll(elements + [name], rooted, []) == elements + [name];
  }

  lemma JoinStarts(elements: seq<string>)
    requires elements != [] && NoSlash(elements[0]) && elements[0] != ""
    ensures Join(elements) != "" && Join(elements)[0] != '/'
  {
  }

  lemma TextDecides(rooted: bool, a: seq<string>, rooted': bool, b: seq<string>)
    requires a != [] && b != [] && forall x | x in a + b :: NoSlash(x) && x != ""
    ensures Written(rooted, a) == Written(rooted', b) <==> rooted == rooted' && a == b
  {
    hide Split, Join, NoSlash;
    assert a[0] in a + b && b[0] in a + b;
    assert forall x | x in a || x in b :: x in a + b;
    JoinStarts(a);
    JoinStarts(b);
    SplitOfJoin(a);
    SplitOfJoin(b);
    if Written(rooted, a) == Written(rooted', b) {
      assert Written(rooted, a)[0] == '/' <==> rooted;
      assert Written(rooted', b)[0] == '/' <==> rooted';
      assert Join(a) == if rooted then Written(rooted, a)[1..] else Written(rooted, a);
      assert Join(b) == if rooted then Written(rooted', b)[1..] else Written(rooted', b);
    }
  }

  /** The cleaned directory tells where it starts and its elements. */
  lemma CleanDecides(dir: string, other: string)
    ensures Clean(dir) == Clean(other) <==> Rooted(dir) == Rooted(other) && Elements(dir) == Elements(other)
  {
    hide Split, PushAll, Join, NoSlash;
    CleanText(dir);
    CleanText(other);
    ElementsAreClean(dir);
    ElementsAreClean(other);
    DotElements();
    if Elements(dir) != [] && Elements(other) != [] {
      assert forall x | x in Elements(dir) + Elements(other) :: x in Elements(dir) || x in Elements(other);
      TextDecides(Rooted(dir), Elements(dir), Rooted(other), Elements(other));
    } else if Elements(dir) != [] {
      NotRootNorDot(Rooted(dir), Elements(dir));
    } else if Elements(other) != [] {
      NotRootNorDot(Rooted(other), Elements(other));
    }
  }

  lemma CleanText(dir: string)
    ensures Clean(dir) ==
            if Elements(dir) != [] then Written(Rooted(dir), Elements(dir)) else if Rooted(dir) then "/" else "."
  {
    hide Split, PushAll, Join;
    ElementsAreClean(dir);
    if Elements(dir) != [] { JoinNotEmpty(Elements(dir)); }
  }

  lemma DotElements()
    ensures Split(".") == ["."]
  {
    SplitOfSegment(".", "");
  }

  lemma NotRootNorDot(rooted: bool, elements: seq<string>)
    requires elements != [] && "" !in elements && "." !in elements && forall x | x in elements :: NoSlash(x)
    ensures Written(rooted, elements) != "/" && Written(rooted, elements) != "."
  {
    hide Split, Join, NoSlash;
    assert elements[0] in elements;
    JoinStarts(elements);
    SplitOfJoin(elements);
    DotElements();
    var text := Join(elements);
    if rooted {
      assert ("/" + text)[1..] == text && "/"[1..] == "";
    } else {
      assert "" + text == text && elements[0] in elements;
    }
  }

  /** Two files are the same exactly when they have the same name in the same directory,
      however the directory is spelled. So distinct cleaned directories and names stand for
      distinct files, which is what the disk model takes for granted. */
  lemma SameFile(p: Path, q: Path)
    requires p.dir != "" && q.dir != "" && GoodSegment(p.name) && GoodSegment(q.name)
    ensures FullPath(p) == FullPath(q) <==> p.name == q.name && Clean(p.dir) == Clean(q.dir)
  {
    hide Split, PushAll, Join, NoSlash, Clean, FullPath, Elements, Written;
    var a, b := Elements(p.dir) + [p.name], Elements(q.dir) + [q.name];
    FullPathText(p);
    FullPathText(q);
    ElementsAreClean(p.dir);
    ElementsAreClean(q.dir);
    NamesHaveNoSlash(p.name);
    NamesHaveNoSlash(q.name);
    TextDecides(Rooted(p.dir), a, Rooted(q.dir), b);
    CleanDecides(p.dir, q.dir);
    assert a[..|a| - 1] == Elements(p.dir) && a[|a| - 1] == p.name;
    assert b[..|b| - 1] == Elements(q.dir) && b[|b| - 1] == q.name;
  }

  lemma NamesHaveNoSlash(name: string)
    requires GoodSegment(name)
    ensures NoSlash(name) && name != ""
  {
  }

  // ---------- which IDs print such names ----------

  lemma StampHasNoSlash(t: Time)
    requires InRange(t)
    ensures '/' !in FormatTime(t)
  {
    hide FormatTime;
    FormatIsStamp(t);
    var s := FormatTime(t);
    forall i | 0 <= i < 16
      ensures s[i] != '/'
    {
      assert i < 8 ==> s[i] == s[..8][i];
      assert 9 <= i < 15 ==> s[i] == s[9..15][i - 9];
    }
  }

  lemma {:induction false} DecimalHasNoSlash(n: int)
    ensures '/' !in Decimal(n)
    decreases n < 0, if n < 0 then -n else n
  {
    if n < 0 { DecimalHasNoSlash(-n); } else if n >= 10 { DecimalHasNoSlash(n / 10); }
  }

  /** A cycle's names are single path elements exactly when its ID holds no slash. */
  lemma ElementsExactly(f: BackupFile)
    requires InRange(f.time)
    ensures (forall name | Touches(NamesOf(f), name) :: GoodSegment(name)) <==> '/' !in f.id
    ensures '/' in Render(f) <==> '/' in f.id
  {
    hide Render, TempName;
    RenderSlash(f);
    TempSlash(f.id, f.time);
    NamesAreLong(f);
    assert Touches(NamesOf(f), Render(f));
  }

  lemma NamesAreLong(f: BackupFile)
    requires InRange(f.time)
    ensures |Render(f)| > 2 && |TempName(f.id, f.time)| > 2
  {
    hide FormatTime, Decimal;
  }

  lemma RenderSlash(f: BackupFile)
    requires InRange(f.time)
    ensures '/' in Render(f) <==> '/' in f.id
  {
    hide FormatTime;
    StampHasNoSlash(f.time);
    assert Render(f) == f.id + ("-" + FormatTime(f.time) + Ext(f.compressed));
    assert '/' !in "-" + FormatTime(f.time) + Ext(f.compressed);
  }

  lemma TempSlash(id: string, now: Time)
    ensures '/' in TempName(id, now) <==> '/' in id
  {
    hide Decimal;
    DecimalHasNoSlash(UnixNano(now));
    assert '/' !in "-" + Decimal(UnixNano(now)) + ".db" && '/' !in "backup-";
    assert TempName(id, now) == "backup-" + id + ("-" + Decimal(UnixNano(now)) + ".db");
  }

  // ---------- IDs with a slash ----------

  /** The file of an ID with a slash is outside its directory, under a name that may be
      another ID's there: the link of `a/latest-c` is staged over the link of `c.tmp` in the
      directory `latest-a` below. Both IDs are good in every other respect. */
  lemma SlashIdCollides(dir: string, a: string, c: string)
    requires dir != "" && NoSlash(a) && NoSlash(c)
    ensures FullPath(Path(dir, Staged(LatestName(a + "/latest-" + c)))) ==
            FullPath(Path(dir + "/" + LATEST + a, LatestName(c + TMP)))
  {
    hide Clean;
    var x, y := Staged(LatestName(a + "/latest-" + c)), LatestName(c + TMP);
    JoinPairOf(dir, x);
    JoinPairOf(dir + "/" + LATEST + a, y);
    assert x == LATEST + a + "/" + y;
    assert dir + "/" + (LATEST + a + "/" + y) == dir + "/" + LATEST + a + "/" + y;
  }

  /** An ID can ever be recorded by a scan exactly when the grammar can hold it and it has
      no slash: a directory lists single path elements. For every other ID each pass finds
      nothing, so it is always due. */
  lemma RecordableExactly(id: string)
    ensures (exists listing :: SingleElements(listing) && Newest(listing, id).Some?) <==> IdChars(id) && '/' !in id
    ensures !(IdChars(id) && '/' !in id) ==>
              forall listing, f, now | SingleElements(listing) :: IsBackupDue(BestTime(Newest(listing, id)), f, now)
  {
    hide Parse, Newest, Render, InRange;
    forall listing | SingleElements(listing) && Newest(listing, id).Some?
      ensures IdChars(id) && '/' !in id
    {
      var f := Newest(listing, id).value;
      NewestIsMaximal(listing, id);
      RenderedNewest(listing, id);
      ParseThenRender(Render(f));
      ElementsExactly(f);
      assert DirEntry(Render(f), false) in listing;
    }
    if IdChars(id) && '/' !in id { var listing := RecordedOnce(id); }
  }

  /** Directory entries are single path elements. */
  ghost predicate SingleElements(listing: seq<DirEntry>) { forall e | e in listing :: '/' !in e.name }

  lemma RecordedOnce(id: string) returns (listing: seq<DirEntry>)
    requires IdChars(id) && '/' !in id
    ensures SingleElements(listing) && Newest(listing, id).Some?
  {
    hide Parse, Render, Newest;
    var f := BackupFile(id, SECOND, false);
    assert InRange(SECOND);
    RenderThenParse(f);
    ElementsExactly(f);
    var e := DirEntry(Render(f), false);
    listing := [e];
    NewestIsMaximal(listing, id);
    assert e in listing && Candidate(e, id) == Some(f);
  }
}
