/** Which names of a destination directory mean what, for a set of configured backup
    IDs, and why the names of two IDs never meet. */
module NameSpace {
  import opened Text
  import opened Calendar
  import opened BackupName

  /** The IDs configured for one directory. `linked` are those with an uncompressed entry,
      which keep a latest link there. */
  datatype Ids = Ids(all: set<string>, linked: set<string>)

  /** What the code assumes of the configured IDs. */
  ghost predicate GoodIds(ids: Ids) {
    ids.linked <= ids.all && forall id | id in ids.all :: GoodId(id)
  }

  /** With a slash in it a name would be a path into another directory. */
  predicate GoodId(id: string) { IdChars(id) && '-' in id && '/' !in id && !HasPrefix(id, LATEST) }

  /** The ID is another linked one plus `.tmp`, so that its latest link has the name under
      which the other one's link is staged. */
  predicate Contested(id: string, ids: Ids) {
    HasSuffix(id, TMP) && id[..|id| - |TMP|] in ids.linked
  }

  /** A name the scan takes for a snapshot of a configured ID. */
  ghost predicate Accepted(name: string, ids: Ids) {
    Parse(name).Some? && Parse(name).value.id in ids.all
  }

  ghost predicate LinkName(name: string, ids: Ids) {
    HasPrefix(name, LATEST) && name[|LATEST|..] in ids.linked
  }

  /** A latest link that nothing but its own ID's cycle touches. */
  ghost predicate IsLatest(name: string, ids: Ids) {
    LinkName(name, ids) && !Contested(name[|LATEST|..], ids)
  }

  ghost predicate IsLatestTmp(name: string, ids: Ids) {
    HasSuffix(name, TMP) && LinkName(name[..|name| - |TMP|], ids)
  }

  /** Names that may share an inode with another name. */
  ghost predicate Linkable(name: string, ids: Ids) {
    Accepted(name, ids) || LinkName(name, ids) || IsLatestTmp(name, ids)
  }

  lemma LatestNotAccepted(id: string, ids: Ids)
    requires GoodIds(ids) && '-' in id
    ensures !Accepted(LatestName(id), ids)
  {
    hide Parse;
    if Accepted(LatestName(id), ids) { LatestParsesAs(id); }
  }

  lemma AcceptedIsNotLatest(name: string, ids: Ids)
    requires GoodIds(ids) && Accepted(name, ids)
    ensures !LinkName(name, ids) && !IsLatest(name, ids) && !IsLatestTmp(name, ids)
  {
    hide Parse, Accepted;
    if LinkName(name, ids) {
      assert name == LatestName(name[|LATEST|..]);
      LatestNotAccepted(name[|LATEST|..], ids);
    }
    if HasSuffix(name, TMP) {
      assert name == Staged(name[..|name| - |TMP|]);
      StagedNotAccepted(name[..|name| - |TMP|], ids);
    }
  }

  lemma StagedNotAccepted(name: string, ids: Ids)
    ensures !Accepted(Staged(name), ids)
  {
    hide Parse;
    StagedNeverParses(name);
  }

  lemma LatestOf(id: string, ids: Ids)
    requires GoodIds(ids) && id in ids.linked
    ensures LinkName(LatestName(id), ids) && LatestName(id)[|LATEST|..] == id
    ensures IsLatestTmp(Staged(LatestName(id)), ids)
    ensures !Accepted(LatestName(id), ids)
    ensures !Accepted(Staged(LatestName(id)), ids) && !IsLatest(Staged(LatestName(id)), ids)
  {
    hide Parse, Accepted;
    var l := LatestName(id);
    assert l[|LATEST|..] == id && l[..|LATEST|] == LATEST;
    LatestNotAccepted(id, ids);
    var s := Staged(l);
    assert s[..|s| - |TMP|] == l && s[|s| - |TMP|..] == TMP;
    assert s[|LATEST|..] == id + TMP;
    assert (id + TMP)[..|id|] == id && (id + TMP)[|id|..] == TMP;
    StagedNotAccepted(l, ids);
  }

  lemma RenderedIsAccepted(f: BackupFile, ids: Ids)
    requires GoodIds(ids) && f.id in ids.all && InRange(f.time)
    ensures Accepted(Render(f), ids) && Parse(Render(f)) == Some(f.(time := Truncate(f.time)))
  {
    hide Parse, Render;
    RenderThenParse(f);
  }

  /** The staging name of a snapshot is nobody's name but its own. */
  lemma StagedIsPrivate(f: BackupFile, ids: Ids)
    requires GoodIds(ids) && f.id in ids.all && InRange(f.time)
    ensures !Linkable(Staged(Render(f)), ids)
  {
    hide Parse, FormatTime;
    var final := Render(f);
    var s := Staged(final);
    StagedNeverParses(final);
    RenderedIsAccepted(f, ids);
    AcceptedIsNotLatest(final, ids);
    assert s[..|s| - |TMP|] == final;
    NoLatestPrefix(f.id, "-" + FormatTime(f.time) + Ext(f.compressed) + TMP);
    assert s == f.id + ("-" + FormatTime(f.time) + Ext(f.compressed) + TMP);
  }

  /** The dash inside an ID keeps the text after it from completing `latest-`. */
  lemma NoLatestPrefix(id: string, tail: string)
    requires '-' in id && !HasPrefix(id, LATEST)
    ensures !HasPrefix(id + tail, LATEST)
  {
    var s := id + tail;
    var i :| 0 <= i < |id| && id[i] == '-';
    assert s[i] == '-';
    assert |s| >= 7 ==> i < 7 ==> s[..7][i] == '-';
    assert |id| >= 7 ==> s[..7] == id[..7];
  }

  lemma TempIsPrivate(id: string, now: Time, ids: Ids)
    ensures !Linkable(TempName(id, now), ids)
  {
    hide Parse, Decimal;
    TempNeverParses(id, now);
    var s := TempName(id, now);
    assert s[0] == 'b' && LATEST[0] == 'l' && s[|s| - 1] == 'b' && TMP[3] == 'p';
    if HasSuffix(s, TMP) { EndOfSuffix(s, TMP); }
    if HasPrefix(s, LATEST) { StartOfPrefix(s, LATEST); }
  }

  // ---------- the names one cycle of one ID touches ----------

  /** A compressed cycle (`linked` false) leaves the links alone. */
  datatype CycleNames = CycleNames(final: string, stage: string, temp: string, latest: string, latestTmp: string,
                                   linked: bool)

  function NamesOf(f: BackupFile): CycleNames
    requires InRange(f.time)
  {
    CycleNames(Render(f), Staged(Render(f)), TempName(f.id, f.time), LatestName(f.id), Staged(LatestName(f.id)),
      !f.compressed)
  }

  /** The names in the destination directory. */
  predicate TouchesThere(n: CycleNames, name: string) {
    name == n.final || name == n.stage || (n.linked && (name == n.latest || name == n.latestTmp))
  }

  predicate Touches(n: CycleNames, name: string) { TouchesThere(n, name) || name == n.temp }

  lemma StageTail(name: string)
    ensures Staged(name)[|Staged(name)| - 1] == 'p'
    ensures Staged(name)[..|Staged(name)| - |TMP|] == name
  {
    assert Staged(name)[|Staged(name)| - 1] == TMP[3];
  }

  lemma TempEnds(id: string, now: Time)
    ensures var s := TempName(id, now);
            s != [] && s[0] == 'b' && s[|s| - 1] == 'b'
  {
    hide Decimal;
    var head := "backup-" + id + "-" + Decimal(UnixNano(now));
    assert TempName(id, now) == head + ".db";
  }

  lemma TempNamesApart(id: string, other: string, now: Time)
    requires id != other
    ensures TempName(id, now) != TempName(other, now)
  {
    hide Decimal;
    var n := "-" + Decimal(UnixNano(now)) + ".db";
    assert TempName(id, now) == "backup-" + id + n;
    assert TempName(other, now) == "backup-" + other + n;
    assert id == TempName(id, now)[7..7 + |id|];
    assert other == TempName(other, now)[7..7 + |other|];
  }

  /** No temp dump has a name that any cycle uses in a destination directory. */
  lemma TempApart(id: string, now: Time, g: BackupFile)
    requires GoodId(g.id) && InRange(g.time)
    ensures !TouchesThere(NamesOf(g), TempName(id, now))
  {
    hide Parse, Render, Decimal, TempName;
    TempNeverParses(id, now);
    RenderThenParse(g);
    TempEnds(id, now);
    StageTail(Render(g));
    assert LatestName(g.id)[0] == 'l' && Staged(LatestName(g.id))[0] == 'l';
  }

  lemma FinalApart(f: BackupFile, g: BackupFile)
    requires GoodId(f.id) && GoodId(g.id) && f.id != g.id && InRange(f.time) && f.time == g.time
    ensures !TouchesThere(NamesOf(g), Render(f))
  {
    hide Parse, Render, LatestName;
    RenderThenParse(f);
    RenderThenParse(g);
    StagedNeverParses(Render(g));
    StagedNeverParses(LatestName(g.id));
    if Render(f) == LatestName(g.id) { LatestParsesAs(g.id); }
  }

  lemma StageApart(f: BackupFile, g: BackupFile)
    requires GoodId(f.id) && GoodId(g.id) && f.id != g.id && InRange(f.time) && f.time == g.time
    ensures !TouchesThere(NamesOf(g), Staged(Render(f)))
  {
    hide Parse, FormatTime;
    var s := Staged(Render(f));
    StagedNeverParses(Render(f));
    RenderThenParse(f);
    RenderThenParse(g);
    StageTail(Render(f));
    StageTail(Render(g));
    NoLatestPrefix(f.id, "-" + FormatTime(f.time) + Ext(f.compressed) + TMP);
    assert s == f.id + ("-" + FormatTime(f.time) + Ext(f.compressed) + TMP);
    LatestPrefixes(g.id);
  }

  lemma LatestPrefixes(id: string)
    ensures HasPrefix(LatestName(id), LATEST) && HasPrefix(Staged(LatestName(id)), LATEST)
  {
    assert Staged(LatestName(id))[..7] == LATEST;
  }

  lemma LinksApart(f: BackupFile, g: BackupFile)
    requires f.id != g.id && f.id != g.id + TMP && g.id != f.id + TMP
    ensures LatestName(f.id) != LatestName(g.id) && Staged(LatestName(f.id)) != Staged(LatestName(g.id))
    ensures LatestName(f.id) != Staged(LatestName(g.id)) && LatestName(g.id) != Staged(LatestName(f.id))
  {
    StageTail(LatestName(f.id));
    StageTail(LatestName(g.id));
    assert forall id :: LatestName(id)[7..] == id;
    assert Staged(LatestName(g.id))[7..] == g.id + TMP && Staged(LatestName(f.id))[7..] == f.id + TMP;
  }

  /** The names two IDs touch in one pass never coincide, unless one is the other plus
      `.tmp` and both keep latest links. */
  lemma CyclesApart(f: BackupFile, g: BackupFile, name: string)
    requires GoodId(f.id) && GoodId(g.id) && f.id != g.id && InRange(f.time) && f.time == g.time
    requires !f.compressed && !g.compressed ==> f.id != g.id + TMP && g.id != f.id + TMP
    ensures !(Touches(NamesOf(f), name) && Touches(NamesOf(g), name))
  {
    hide Parse, Render, Decimal, TempName, LatestName, Staged, GoodId;
    FinalApart(f, g);
    FinalApart(g, f);
    StageApart(f, g);
    StageApart(g, f);
    TempApart(f.id, f.time, g);
    TempApart(g.id, g.time, f);
    TempNamesApart(f.id, g.id, f.time);
    if !f.compressed && !g.compressed { LinksApart(f, g); }
  }

  /** The exception is real: label `a` on `b-c` and label `a-b` on `c.tmp` give two IDs of
      which the first one's link is staged under the name of the other's link. */
  lemma TmpIdsCollide()
    ensures var x, y := BackupId("a", "b-c"), BackupId("a-b", "c.tmp");
            x != y && Staged(LatestName(x)) == LatestName(y)
  {
    assert BackupId("a", "b-c") == "a-b-c";
    assert BackupId("a-b", "c.tmp") == "a-b-c.tmp";
    assert LATEST + "a-b-c" + TMP == LATEST + "a-b-c.tmp";
  }
}
