/** Every disk state of every cycle, pass and run is safe: whatever crashes, the scan
    never accepts anything but complete snapshots. */
module CrashSafety {
  import opened Text
  import opened Calendar
  import opened BackupName
  import opened NameSpace
  import opened FileSystem
  import opened Cycle

  /** All states of a run are safe and differ from its start at `ps` only. */
  ghost predicate Steps(d: Disk, states: seq<Disk>, ids: Dirs, ps: set<Path>) {
    forall s | s in states :: Safe(s, ids) && SameOutside(d, s, ps)
  }

  lemma EndOfSteps(d: Disk, states: seq<Disk>, ids: Dirs, ps: set<Path>)
    requires Safe(d, ids) && Steps(d, states, ids, ps)
    ensures Safe(End(d, states), ids) && SameOutside(d, End(d, states), ps)
  {
    hide Safe;
    if states != [] { assert End(d, states) in states; }
  }

  lemma AppendSteps(d: Disk, a: seq<Disk>, b: seq<Disk>, ids: Dirs, ps: set<Path>)
    requires Safe(d, ids) && Steps(d, a, ids, ps) && Steps(End(d, a), b, ids, ps)
    ensures Steps(d, a + b, ids, ps)
    ensures End(d, a + b) == End(End(d, a), b)
  {
    hide Safe, SameOutside;
    EndOfSteps(d, a, ids, ps);
    EndOfAppend(d, a, b);
    forall s | s in a + b
      ensures Safe(s, ids) && SameOutside(d, s, ps)
    {
      if s !in a { SameOutsideTrans(d, End(d, a), s, ps); }
    }
  }

  lemma WidenOne(d: Disk, e: Disk, qs: set<Path>, ps: set<Path>)
    requires SameOutside(d, e, qs) && qs <= ps
    ensures SameOutside(d, e, ps)
  {
    forall p | p !in ps
      ensures SameAt(d, e, p)
    {
      assert p !in qs;
    }
  }

  lemma NoChange(d: Disk, ps: set<Path>)
    ensures SameOutside(d, d, ps)
  {
  }

  /** The names of a cycle stand where they should. */
  ghost predicate GoodPaths(p: CyclePaths, f: BackupFile, ids: Dirs) {
    && p.linked == !f.compressed
    && Accepted(p.final.name, ids(p.final.dir)) && Parse(p.final.name) == Some(f)
    && !IsLatest(p.final.name, ids(p.final.dir))
    && !Linkable(p.stage.name, ids(p.stage.dir)) && !Linkable(p.temp.name, ids(p.temp.dir))
    && (p.linked ==> GoodLinkPaths(p, f, ids))
    && Distinct(p)
  }

  ghost predicate GoodLinkPaths(p: CyclePaths, f: BackupFile, ids: Dirs) {
    && Linkable(p.latest.name, ids(p.latest.dir)) && !Accepted(p.latest.name, ids(p.latest.dir))
    && HasPrefix(p.latest.name, LATEST) && p.latest.name[|LATEST|..] == f.id
    && Linkable(p.latestTmp.name, ids(p.latestTmp.dir))
    && !Accepted(p.latestTmp.name, ids(p.latestTmp.dir)) && !IsLatest(p.latestTmp.name, ids(p.latestTmp.dir))
  }

  predicate Distinct(p: CyclePaths) {
    && p.final != p.stage && p.final != p.temp && p.final != p.latest && p.final != p.latestTmp
    && p.stage != p.temp && p.stage != p.latest && p.stage != p.latestTmp
    && p.temp != p.latest && p.temp != p.latestTmp && p.latest != p.latestTmp
  }

  lemma PathsAreDistinct(e: Entry, env: Env)
    requires GoodId(e.Id()) && InRange(env.now)
    ensures Distinct(PathsOf(e, env))
  {
    hide Parse, Render, TempName, Decimal, LatestName;
    var f := FileOf(e, env.now);
    RenderThenParse(f);
    StagedNeverParses(Render(f));
    StagedNeverParses(LatestName(f.id));
    TempApart(f.id, f.time, f.(compressed := false));
    TempApart(f.id, f.time, f.(compressed := true));
    if Render(f) == LatestName(f.id) { LatestParsesAs(f.id); }
    StageIsNoLatest(f);
    StageTail(LatestName(f.id));
    StageTail(Render(f));
  }

  lemma StageIsNoLatest(f: BackupFile)
    requires GoodId(f.id) && InRange(f.time)
    ensures Staged(Render(f)) != LatestName(f.id) && Staged(Render(f)) != Staged(LatestName(f.id))
  {
    hide FormatTime;
    NoLatestPrefix(f.id, "-" + FormatTime(f.time) + Ext(f.compressed) + TMP);
    assert Staged(Render(f)) == f.id + ("-" + FormatTime(f.time) + Ext(f.compressed) + TMP);
    LatestPrefixes(f.id);
  }

  /** The entry is one of those the IDs of its directory come from. */
  ghost predicate KnownEntry(e: Entry, ids: Dirs) {
    e.Id() in ids(e.dest).all && (!e.compression ==> e.Id() in ids(e.dest).linked)
  }

  lemma PathsAreGood(e: Entry, env: Env, ids: Dirs)
    requires GoodDirs(ids) && KnownEntry(e, ids) && InRange(env.now)
    ensures GoodPaths(PathsOf(e, env), Stamped(e, env.now), ids)
  {
    hide Parse, Render, TempName, Decimal, Truncate, GoodId;
    var f, here := FileOf(e, env.now), ids(e.dest);
    assert GoodIds(here);
    RenderedIsAccepted(f, here);
    AcceptedIsNotLatest(Render(f), here);
    StagedIsPrivate(f, here);
    TempIsPrivate(f.id, f.time, ids(env.tempDir));
    PathsAreDistinct(e, env);
    if !e.compression {
      LatestOf(f.id, here);
      LatestPrefixes(f.id);
    }
  }

  // ---------- one step after the other ----------

  lemma RemoveIfSafe(d: Disk, p: Path, works: bool, ids: Dirs)
    requires Safe(d, ids)
    ensures Safe(RemoveIf(d, p, works), ids) && SameOutside(d, RemoveIf(d, p, works), {p})
  {
    hide Safe;
    RemoveStep(d, p, ids);
    NoChange(d, {p});
  }

  lemma CopySafe(d: Disk, p: Path, c: Content, o: CopyOutcome, ids: Dirs)
    requires Safe(d, ids) && !Linkable(p.name, ids(p.dir))
    ensures var r := CopyRun(d, p, c, o);
            && Steps(d, r.states, ids, {p})
            && (r.ok ==> End(d, r.states).Read(p) == Some(c))
  {
    hide Safe, Linkable, SameOutside;
    OpenStep(d, p, ids);
    var e := Open(d, p);
    WriteStep(e, p, c, ids);
    SameOutsideTrans(d, e, Write(e, p, c), {p});
  }

  lemma ZipSafe(d: Disk, src: Path, dst: Path, o: ZipOutcome, ids: Dirs)
    requires Safe(d, ids) && !Linkable(dst.name, ids(dst.dir))
    ensures var r := ZipRun(d, src, dst, o);
            && Steps(d, r.states, ids, {dst})
            && (r.ok ==> (d.Read(src).Some? && o.Zipped?
                && End(d, r.states).Read(dst) == Some(if o.closed then Gzip(d.Read(src).value) else Partial)))
  {
    hide Safe, Linkable, SameOutside;
    if o.Zipped? && d.Read(src).Some? {
      CopySafe(d, dst, if o.closed then Gzip(d.Read(src).value) else Partial, Copied, ids);
    } else {
      OpenStep(d, dst, ids);
    }
  }

  /** Promotion is safe exactly because the staged content is the one the name promises. */
  lemma PromoteSafe(d: Disk, p: CyclePaths, plan: Plan, f: BackupFile, ids: Dirs)
    requires Safe(d, ids) && GoodPaths(p, f, ids)
    requires plan.rename ==> d.Read(p.stage) == Some(Complete(f))
    ensures var r := PromoteRun(d, p, plan);
            && Steps(d, r.states, ids, {p.final, p.stage})
            && (r.ok <==> plan.rename)
            && (r.ok ==> End(d, r.states).Read(p.final) == Some(Complete(f)))
  {
    hide Safe, SameOutside, Complete, Parse, Accepted, IsLatest;
    if plan.rename {
      assert Linkable(p.final.name, ids(p.final.dir)) && p.stage != p.final;
      RenameStep(d, p.stage, p.final, ids);
      assert {p.stage, p.final} == {p.final, p.stage};
    } else {
      RemoveIfSafe(d, p.stage, plan.rmStage, ids);
      WidenOne(d, RemoveIf(d, p.stage, plan.rmStage), {p.stage}, {p.final, p.stage});
    }
  }

  /** The link refresh: until its last step the link is untouched, and after it the link
      is the inode of the snapshot just promoted. */
  lemma LinkSafe(d: Disk, p: CyclePaths, plan: Plan, f: BackupFile, ids: Dirs)
    requires Safe(d, ids) && GoodPaths(p, f, ids) && !f.compressed
    requires d.Read(p.final) == Some(Complete(f))
    ensures var r := LinkRun(d, p, plan);
            && Steps(d, r.states, ids, {p.latest, p.latestTmp})
            && (r.ok ==> End(d, r.states).At(p.latest) == d.At(p.final))
            && (forall s | s in r.states :: s.At(p.latest) == d.At(p.latest) || s.At(p.latest) == d.At(p.final))
            && (forall i | 0 <= i < |r.states| - 1 :: r.states[i].At(p.latest) == d.At(p.latest))
  {
    hide Safe, Parse, Accepted, IsLatest, Linkable, SameOutside;
    assert p.latest != p.latestTmp && p.final != p.latestTmp && p.final != p.latest;
    var ps := {p.latest, p.latestTmp};
    var d1 := RemoveIf(d, p.latestTmp, plan.rmLatestTmp);
    RemoveIfSafe(d, p.latestTmp, plan.rmLatestTmp, ids);
    Outside(d, d1, {p.latestTmp}, p.final);
    Outside(d, d1, {p.latestTmp}, p.latest);
    WidenOne(d, d1, {p.latestTmp}, ps);
    var (d2, linked) := if plan.link then Link(d1, p.final, p.latestTmp) else (d1, false);
    if linked {
      LinkableFinal(p, f, ids);
      LinkStep(d1, p.final, p.latestTmp, ids);
      Outside(d1, d2, {p.latestTmp}, p.latest);
      WidenOne(d1, d2, {p.latestTmp}, ps);
      SameOutsideTrans(d, d1, d2, ps);
      RenameStep(d2, p.latestTmp, p.latest, ids);
      assert {p.latestTmp, p.latest} == ps;
      var (d3, renamed) := if plan.relink then Rename(d2, p.latestTmp, p.latest) else (d2, false);
      NoChange(d2, ps);
      SameOutsideTrans(d, d2, d3, ps);
    }
  }

  lemma Outside(d: Disk, e: Disk, ps: set<Path>, p: Path)
    requires SameOutside(d, e, ps) && p !in ps
    ensures SameAt(d, e, p) && d.At(p) == e.At(p) && d.Read(p) == e.Read(p)
  {
    assert SameAt(d, e, p);
  }

  lemma LinkableFinal(p: CyclePaths, f: BackupFile, ids: Dirs)
    requires GoodPaths(p, f, ids)
    ensures Linkable(p.final.name, ids(p.final.dir))
    ensures p.linked ==> Linkable(p.latest.name, ids(p.latest.dir)) && Linkable(p.latestTmp.name, ids(p.latestTmp.dir))
  {
    hide Parse, LinkName, IsLatest, IsLatestTmp;
  }

  // ---------- a whole cycle ----------

  /** The link is either untouched or already the new snapshot; a snapshot under the
      final name is never lost. */
  ghost predicate Progress(d: Disk, s: Disk, p: CyclePaths, f: BackupFile) {
    && (s.At(p.latest) == d.At(p.latest)
        || (s.At(p.latest) == s.At(p.final) && s.Read(p.final) == Some(Complete(f)) && !f.compressed))
    && (d.At(p.final).Some? ==> s.At(p.final).Some?)
  }

  /** Progress in every state, and a link that has moved does not move back. */
  ghost predicate AllProgress(d: Disk, states: seq<Disk>, p: CyclePaths, f: BackupFile) {
    && (forall s | s in states :: Progress(d, s, p, f))
    && (forall i, j | 0 <= i <= j < |states| ::
          states[i].At(p.latest) == d.At(p.latest) || states[j].At(p.latest) == states[i].At(p.latest))
  }

  lemma QuietProgress(d: Disk, s: Disk, ps: set<Path>, p: CyclePaths, f: BackupFile)
    requires SameOutside(d, s, ps) && p.latest !in ps
    requires p.final in ps ==> s.At(p.final).Some?
    ensures Progress(d, s, p, f) && s.At(p.latest) == d.At(p.latest)
  {
    Outside(d, s, ps, p.latest);
    if p.final !in ps { Outside(d, s, ps, p.final); }
  }

  /** Steps at names other than the final one and the link, seen from the cycle's start. */
  lemma QuietSteps(d: Disk, states: seq<Disk>, ids: Dirs, ps: set<Path>, p: CyclePaths, f: BackupFile)
    requires Steps(d, states, ids, ps) && ps <= p.All() && p.latest !in ps && p.final !in ps
    ensures Steps(d, states, ids, p.All()) && AllProgress(d, states, p, f)
  {
    hide Safe, SameOutside;
    forall s | s in states
      ensures Safe(s, ids) && SameOutside(d, s, p.All()) && Progress(d, s, p, f)
      ensures s.At(p.latest) == d.At(p.latest)
    {
      WidenOne(d, s, ps, p.All());
      QuietProgress(d, s, ps, p, f);
    }
  }

  lemma PathsDiffer(p: CyclePaths, f: BackupFile, ids: Dirs)
    requires GoodPaths(p, f, ids)
    ensures Distinct(p) && p.linked == !f.compressed
  {
    hide GoodLinkPaths, Linkable, Accepted, IsLatest;
  }

  lemma PromoteProgress(d: Disk, p: CyclePaths, plan: Plan, f: BackupFile, ids: Dirs)
    requires Safe(d, ids) && GoodPaths(p, f, ids)
    requires plan.rename ==> d.Read(p.stage) == Some(Complete(f))
    ensures var r := PromoteRun(d, p, plan);
            && Steps(d, r.states, ids, p.All()) && AllProgress(d, r.states, p, f)
            && (r.ok <==> plan.rename)
            && End(d, r.states).At(p.latest) == d.At(p.latest)
            && (r.ok ==> End(d, r.states).Read(p.final) == Some(Complete(f)))
  {
    hide Safe, SameOutside, Complete, Parse, Accepted, IsLatest, GoodPaths;
    PathsDiffer(p, f, ids);
    PromoteSafe(d, p, plan, f, ids);
    var r := PromoteRun(d, p, plan);
    var s := r.states[0];
    assert s in r.states;
    WidenOne(d, s, {p.final, p.stage}, p.All());
    if plan.rename {
      QuietProgress(d, s, {p.final, p.stage}, p, f);
    } else {
      RemoveIfSafe(d, p.stage, plan.rmStage, ids);
      QuietProgress(d, s, {p.stage}, p, f);
    }
  }

  /** Progress so far, then more progress: the second leg may refresh the link only if it
      leaves the snapshot of the first leg in place. */
  lemma AppendProgress(d: Disk, a: seq<Disk>, b: seq<Disk>, p: CyclePaths, f: BackupFile)
    requires AllProgress(d, a, p, f) && AllProgress(End(d, a), b, p, f)
    requires End(d, a).At(p.latest) == d.At(p.latest)
    ensures AllProgress(d, a + b, p, f)
  {
    hide Complete;
    var e := End(d, a);
    assert a != [] ==> e == a[|a| - 1] && e in a;
    forall s | s in a + b
      ensures Progress(d, s, p, f)
    {
      if s !in a { assert Progress(e, s, p, f); }
    }
    var ab := a + b;
    forall i, j | 0 <= i <= j < |ab|
      ensures ab[i].At(p.latest) == d.At(p.latest) || ab[j].At(p.latest) == ab[i].At(p.latest)
    {
      if j < |a| {
        assert ab[i] == a[i] && ab[j] == a[j];
      } else if i >= |a| {
        assert ab[i] == b[i - |a|] && ab[j] == b[j - |a|];
      } else {
        assert ab[i] == a[i];
        assert a[|a| - 1].At(p.latest) == d.At(p.latest);
      }
    }
  }

  lemma LinkProgress(d: Disk, p: CyclePaths, plan: Plan, f: BackupFile, ids: Dirs)
    requires Safe(d, ids) && GoodPaths(p, f, ids) && !f.compressed
    requires d.Read(p.final) == Some(Complete(f))
    ensures var r := LinkRun(d, p, plan);
            && Steps(d, r.states, ids, p.All()) && AllProgress(d, r.states, p, f)
            && End(d, r.states).Read(p.final) == Some(Complete(f))
            && (r.ok ==> End(d, r.states).At(p.latest) == End(d, r.states).At(p.final))
  {
    hide Safe, SameOutside, Complete, Parse, Accepted, IsLatest, GoodPaths, LinkRun;
    PathsDiffer(p, f, ids);
    LinkSafe(d, p, plan, f, ids);
    var r := LinkRun(d, p, plan);
    var ps := {p.latest, p.latestTmp};
    forall s | s in r.states
      ensures Safe(s, ids) && SameOutside(d, s, p.All()) && Progress(d, s, p, f)
      ensures s.At(p.final) == d.At(p.final) && s.Read(p.final) == Some(Complete(f))
    {
      WidenOne(d, s, ps, p.All());
      Outside(d, s, ps, p.final);
    }
    assert r.states != [] ==> End(d, r.states) in r.states;
  }

  lemma UncompressedSafe(d: Disk, e: Entry, plan: Plan, p: CyclePaths, now: Time, ids: Dirs)
    requires Safe(d, ids) && GoodPaths(p, Stamped(e, now), ids) && !e.compression
    ensures var r, f := UncompressedRun(d, e, plan, p, now), Stamped(e, now);
            && Steps(d, r.states, ids, p.All()) && AllProgress(d, r.states, p, f)
            && (r.ok ==> End(d, r.states).At(p.latest) == End(d, r.states).At(p.final)
                         && End(d, r.states).Read(p.final) == Some(Complete(f)))
  {
    hide Safe, SameOutside, GoodPaths, PromoteRun, LinkRun, Linkable, Steps, AllProgress, RemoveIf;
    var f := Stamped(e, now);
    PathsDiffer(p, f, ids);
    var copy := CopyRun(d, p.stage, Snapshot(e.Id(), Truncate(now)), plan.copy);
    var d1 := End(d, copy.states);
    StageNotLinkable(p, f, ids);
    CopySafe(d, p.stage, Snapshot(e.Id(), Truncate(now)), plan.copy, ids);
    EndOfSteps(d, copy.states, ids, {p.stage});
    Outside(d, d1, {p.stage}, p.latest);
    QuietSteps(d, copy.states, ids, {p.stage}, p, f);
    if !copy.ok {
      RemoveLeg(d, copy.states, p.stage, plan.rmStage, p, f, ids);
    } else {
      PromoteProgress(d1, p, plan, f, ids);
      var promote := PromoteRun(d1, p, plan);
      AppendSteps(d, copy.states, promote.states, ids, p.All());
      AppendProgress(d, copy.states, promote.states, p, f);
      if promote.ok {
        var d2 := End(d1, promote.states);
        EndOfSteps(d1, promote.states, ids, p.All());
        LinkProgress(d2, p, plan, f, ids);
        var link := LinkRun(d2, p, plan);
        AppendSteps(d, copy.states + promote.states, link.states, ids, p.All());
        AppendProgress(d, copy.states + promote.states, link.states, p, f);
      }
    }
  }

  lemma StageNotLinkable(p: CyclePaths, f: BackupFile, ids: Dirs)
    requires GoodPaths(p, f, ids)
    ensures !Linkable(p.stage.name, ids(p.stage.dir)) && !Linkable(p.temp.name, ids(p.temp.dir)) && p.stage != p.temp
  {
  }

  /** Cleaning up after a failure. */
  lemma RemoveLeg(d: Disk, a: seq<Disk>, q: Path, works: bool, p: CyclePaths, f: BackupFile, ids: Dirs)
    requires Safe(d, ids) && Steps(d, a, ids, p.All()) && AllProgress(d, a, p, f)
    requires End(d, a).At(p.latest) == d.At(p.latest)
    requires q in p.All() && q != p.final && q != p.latest
    ensures var b := [RemoveIf(End(d, a), q, works)];
            && Steps(d, a + b, ids, p.All()) && AllProgress(d, a + b, p, f)
            && End(d, a + b) == b[0] && b[0].At(p.latest) == d.At(p.latest)
            && SameOutside(End(d, a), b[0], {q}) && Safe(b[0], ids)
  {
    hide Safe, SameOutside, RemoveIf, Complete, Progress;
    var e := End(d, a);
    var b := [RemoveIf(e, q, works)];
    EndOfSteps(d, a, ids, p.All());
    RemoveIfSafe(e, q, works, ids);
    Outside(e, b[0], {q}, p.latest);
    QuietSteps(e, b, ids, {q}, p, f);
    AppendSteps(d, a, b, ids, p.All());
    AppendProgress(d, a, b, p, f);
  }

  /** Everything a compressed cycle does before the promotion: dump, compress, remove the
      dump. What is staged then depends on whether the stream was closed. */
  lemma StagingSafe(d: Disk, e: Entry, plan: Plan, p: CyclePaths, now: Time, ids: Dirs)
    requires Safe(d, ids) && GoodPaths(p, Stamped(e, now), ids) && plan.copy.Copied?
    ensures var c, f := Snapshot(e.Id(), Truncate(now)), Stamped(e, now);
            var copy := CopyRun(d, p.temp, c, plan.copy);
            var d1 := End(d, copy.states);
            var zip := ZipRun(d1, p.temp, p.stage, plan.zip);
            var d3 := RemoveIf(End(d1, zip.states), p.temp, plan.rmTemp);
            var states := copy.states + (zip.states + [d3]);
            && Steps(d, states, ids, p.All()) && AllProgress(d, states, p, f)
            && End(d, states) == d3 && d3.At(p.latest) == d.At(p.latest)
            && (zip.ok <==> plan.zip.Zipped?)
            && (zip.ok ==> d3.Read(p.stage) == Some(if plan.zip.closed then Gzip(c) else Partial))
  {
    hide Safe, SameOutside, GoodPaths, Linkable, Steps, AllProgress, RemoveIf, CopyRun;
    var c, f := Snapshot(e.Id(), Truncate(now)), Stamped(e, now);
    PathsDiffer(p, f, ids);
    StageNotLinkable(p, f, ids);
    var copy := CopyRun(d, p.temp, c, plan.copy);
    var d1 := End(d, copy.states);
    CopySafe(d, p.temp, c, plan.copy, ids);
    assert copy.ok by { assert CopyRun(d, p.temp, c, Copied).ok by { CopySucceeds(d, p.temp, c); } }
    EndOfSteps(d, copy.states, ids, {p.temp});
    Outside(d, d1, {p.temp}, p.latest);
    QuietSteps(d, copy.states, ids, {p.temp}, p, f);
    var zip := ZipRun(d1, p.temp, p.stage, plan.zip);
    ZipSafe(d1, p.temp, p.stage, plan.zip, ids);
    var d2 := End(d1, zip.states);
    EndOfSteps(d1, zip.states, ids, {p.stage});
    Outside(d1, d2, {p.stage}, p.latest);
    QuietSteps(d1, zip.states, ids, {p.stage}, p, f);
    AppendSteps(d, copy.states, zip.states, ids, p.All());
    AppendProgress(d, copy.states, zip.states, p, f);
    RemoveLeg(d, copy.states + zip.states, p.temp, plan.rmTemp, p, f, ids);
    var d3 := RemoveIf(d2, p.temp, plan.rmTemp);
    assert copy.states + (zip.states + [d3]) == (copy.states + zip.states) + [d3];
    Outside(d2, d3, {p.temp}, p.stage);
  }

  lemma CopySucceeds(d: Disk, p: Path, c: Content)
    ensures CopyRun(d, p, c, Copied).ok
  {
  }

  /** The zip stage is promoted although its stream was never closed. */
  predicate Unclosed(plan: Plan) {
    plan.copy.Copied? && plan.zip == Zipped(false) && plan.rename
  }

  lemma CompressedSafe(d: Disk, e: Entry, plan: Plan, p: CyclePaths, now: Time, ids: Dirs)
    requires Safe(d, ids) && GoodPaths(p, Stamped(e, now), ids) && e.compression && !Unclosed(plan)
    ensures var r, f := CompressedRun(d, e, plan, p, now), Stamped(e, now);
            && Steps(d, r.states, ids, p.All()) && AllProgress(d, r.states, p, f)
            && (r.ok ==> End(d, r.states).Read(p.final) == Some(Complete(f)))
  {
    hide Safe, SameOutside, GoodPaths, PromoteRun, Linkable, Steps, AllProgress, RemoveIf, ZipRun;
    var f := Stamped(e, now);
    PathsDiffer(p, f, ids);
    StageNotLinkable(p, f, ids);
    var c := Snapshot(e.Id(), Truncate(now));
    var copy := CopyRun(d, p.temp, c, plan.copy);
    var d1 := End(d, copy.states);
    if !copy.ok {
      CopySafe(d, p.temp, c, plan.copy, ids);
      EndOfSteps(d, copy.states, ids, {p.temp});
      Outside(d, d1, {p.temp}, p.latest);
      QuietSteps(d, copy.states, ids, {p.temp}, p, f);
      RemoveLeg(d, copy.states, p.temp, plan.rmTemp, p, f, ids);
    } else {
      StagingSafe(d, e, plan, p, now, ids);
      var zip := ZipRun(d1, p.temp, p.stage, plan.zip);
      var d3 := RemoveIf(End(d1, zip.states), p.temp, plan.rmTemp);
      var states := copy.states + (zip.states + [d3]);
      EndOfSteps(d, states, ids, p.All());
      if !zip.ok {
        RemoveLeg(d, states, p.stage, plan.rmStage, p, f, ids);
      } else {
        PromoteProgress(d3, p, plan, f, ids);
        var promote := PromoteRun(d3, p, plan);
        AppendSteps(d, states, promote.states, ids, p.All());
        AppendProgress(d, states, promote.states, p, f);
      }
    }
  }

  /** And if it is, the scan accepts an incomplete file. */
  lemma CompressedUnsafe(d: Disk, e: Entry, plan: Plan, p: CyclePaths, now: Time, ids: Dirs)
    requires Safe(d, ids) && GoodPaths(p, Stamped(e, now), ids) && e.compression && Unclosed(plan)
    ensures var r := CompressedRun(d, e, plan, p, now);
            && r.ok && r.states != []
            && End(d, r.states).Read(p.final) == Some(Partial)
            && !Safe(End(d, r.states), ids)
  {
    hide GoodPaths, Linkable, Steps, AllProgress, RemoveIf, ZipRun, StagingPrivate, LinksResolve, Progress;
    var f := Stamped(e, now);
    PathsDiffer(p, f, ids);
    StagingSafe(d, e, plan, p, now, ids);
    var c := Snapshot(e.Id(), Truncate(now));
    var copy := CopyRun(d, p.temp, c, plan.copy);
    var d1 := End(d, copy.states);
    var zip := ZipRun(d1, p.temp, p.stage, plan.zip);
    var d3 := RemoveIf(End(d1, zip.states), p.temp, plan.rmTemp);
    var states := copy.states + (zip.states + [d3]);
    EndOfSteps(d, states, ids, p.All());
    var (d4, ok) := Rename(d3, p.stage, p.final);
    RenameFrame(d3, p.stage, p.final);
    EndOfAppend(d, states, [d4]);
    FinalIsAccepted(p, f, ids);
    assert d4.Read(p.final) == Some(Partial);
  }

  lemma FinalIsAccepted(p: CyclePaths, f: BackupFile, ids: Dirs)
    requires GoodPaths(p, f, ids)
    ensures Accepted(p.final.name, ids(p.final.dir)) && Parse(p.final.name) == Some(f)
  {
  }

  // ---------- nothing is left behind ----------

  lemma PromoteRemovesStage(d: Disk, p: CyclePaths, plan: Plan, f: BackupFile, ids: Dirs)
    requires Safe(d, ids) && GoodPaths(p, f, ids) && plan.rmStage
    ensures var e := End(d, PromoteRun(d, p, plan).states);
            p.stage !in e.names && forall q | q !in d.names && q != p.final :: q !in e.names
  {
    hide Parse, Accepted, IsLatest, IsLatestTmp, IsSnapshotOf, Complete;
    PathsDiffer(p, f, ids);
    StageNotLinkable(p, f, ids);
    if p.stage in d.names && p.final in d.names { assert d.names[p.stage] != d.names[p.final]; }
  }

  lemma LinkAddsOnlyLinks(d: Disk, p: CyclePaths, plan: Plan, q: Path)
    requires q !in d.names && q != p.latest && q != p.latestTmp
    ensures q !in End(d, LinkRun(d, p, plan).states).names
  {
  }

  /** When the cleanup removals work, an uncompressed cycle leaves no staging file, however
      it ends. */
  lemma UncompressedCleansUp(d: Disk, e: Entry, plan: Plan, p: CyclePaths, now: Time, ids: Dirs)
    requires Safe(d, ids) && GoodPaths(p, Stamped(e, now), ids) && plan.rmStage
    ensures p.stage !in End(d, UncompressedRun(d, e, plan, p, now).states).names
  {
    hide Safe, GoodPaths, PromoteRun, LinkRun, Linkable, Steps;
    var f := Stamped(e, now);
    PathsDiffer(p, f, ids);
    StageNotLinkable(p, f, ids);
    var copy := CopyRun(d, p.stage, Snapshot(e.Id(), Truncate(now)), plan.copy);
    CopySafe(d, p.stage, Snapshot(e.Id(), Truncate(now)), plan.copy, ids);
    EndOfSteps(d, copy.states, ids, {p.stage});
    var d1 := End(d, copy.states);
    PromoteRemovesStage(d1, p, plan, f, ids);
    var promote := PromoteRun(d1, p, plan);
    EndOfAppend(d, copy.states, promote.states);
    EndOfAppend(d, copy.states, [RemoveIf(d1, p.stage, plan.rmStage)]);
    var d2 := End(d1, promote.states);
    LinkAddsOnlyLinks(d2, p, plan, p.stage);
    EndOfAppend(d, copy.states + promote.states, LinkRun(d2, p, plan).states);
  }

  /** Nor does a compressed cycle leave its dump or its staging file. */
  lemma CompressedCleansUp(d: Disk, e: Entry, plan: Plan, p: CyclePaths, now: Time, ids: Dirs)
    requires Safe(d, ids) && GoodPaths(p, Stamped(e, now), ids) && plan.rmStage && plan.rmTemp
    ensures var end := End(d, CompressedRun(d, e, plan, p, now).states);
            p.temp !in end.names && (plan.copy.Copied? ==> p.stage !in end.names)
  {
    hide Safe, GoodPaths, PromoteRun, Linkable, Steps, ZipRun, AllProgress;
    var f := Stamped(e, now);
    PathsDiffer(p, f, ids);
    StageNotLinkable(p, f, ids);
    var c := Snapshot(e.Id(), Truncate(now));
    var copy := CopyRun(d, p.temp, c, plan.copy);
    var d1 := End(d, copy.states);
    EndOfAppend(d, copy.states, [RemoveIf(d1, p.temp, plan.rmTemp)]);
    if copy.ok {
      StagingSafe(d, e, plan, p, now, ids);
      var zip := ZipRun(d1, p.temp, p.stage, plan.zip);
      var d3 := RemoveIf(End(d1, zip.states), p.temp, plan.rmTemp);
      var states := copy.states + (zip.states + [d3]);
      EndOfSteps(d, states, ids, p.All());
      PromoteRemovesStage(d3, p, plan, f, ids);
      EndOfAppend(d, states, PromoteRun(d3, p, plan).states);
      EndOfAppend(d, states, [RemoveIf(d3, p.stage, plan.rmStage)]);
    }
  }
}
