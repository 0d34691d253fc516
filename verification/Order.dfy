/** The entries come from a Go map, in any order, and a failing entry is skipped over.
    Neither shows in the result: each entry's cycle reads and writes its own names. */
module Order {
  import opened Calendar
  import opened BackupName
  import opened NameSpace
  import opened FileSystem
  import opened Cycle
  import opened CrashSafety
  import opened Tidiness

  /** Two disks that cannot be told apart at `ps`. */
  ghost predicate Agree(d: Disk, e: Disk, ps: set<Path>) {
    forall p | p in ps :: SameAt(d, e, p)
  }

  ghost predicate Unshared(d: Disk, p: Path) {
    p in d.names ==> forall q | q in d.names && q != p :: d.names[q] != d.names[p]
  }

  lemma StagingUnshared(d: Disk, p: Path, ids: Dirs)
    requires Tidy(d, ids) && !Linkable(p.name, ids(p.dir))
    ensures Unshared(d, p) && d.WF()
  {
    hide Linkable, Accepted, IsLatest, Parse;
  }

  lemma SamePresence(d: Disk, e: Disk, p: Path)
    requires d.WF() && e.WF() && SameAt(d, e, p)
    ensures p in d.names <==> p in e.names
    ensures p in d.names ==> d.names[p] == e.names[p] && d.data[d.names[p]] == e.data[e.names[p]]
    ensures d.Read(p) == e.Read(p)
  {
  }

  lemma OpenAgree(d: Disk, e: Disk, p: Path, ps: set<Path>)
    requires d.WF() && e.WF() && Unshared(d, p) && Unshared(e, p) && Agree(d, e, ps) && p in ps
    ensures Agree(Open(d, p), Open(e, p), ps)
  {
    SamePresence(d, e, p);
    OpenFrame(d, p);
    OpenFrame(e, p);
    forall q | q in ps
      ensures SameAt(Open(d, p), Open(e, p), q)
    {
      assert SameAt(d, e, q);
      if q != p {
        Outside(d, Open(d, p), {p}, q);
        Outside(e, Open(e, p), {p}, q);
      }
    }
  }

  lemma WriteAgree(d: Disk, e: Disk, p: Path, c: Content, ps: set<Path>)
    requires d.WF() && e.WF() && Unshared(d, p) && Unshared(e, p) && Agree(d, e, ps) && p in ps
    requires p in d.names && p in e.names
    ensures Agree(Write(d, p, c), Write(e, p, c), ps)
  {
    SamePresence(d, e, p);
    forall q | q in ps
      ensures SameAt(Write(d, p, c), Write(e, p, c), q)
    {
      SamePresence(d, e, q);
    }
  }

  lemma RemoveAgree(d: Disk, e: Disk, p: Path, works: bool, ps: set<Path>)
    requires d.WF() && e.WF() && Agree(d, e, ps)
    ensures Agree(RemoveIf(d, p, works), RemoveIf(e, p, works), ps)
  {
    forall q | q in ps
      ensures SameAt(RemoveIf(d, p, works), RemoveIf(e, p, works), q)
    {
      SamePresence(d, e, q);
    }
  }

  lemma LinkAgree(d: Disk, e: Disk, src: Path, dst: Path, ps: set<Path>)
    requires d.WF() && e.WF() && Agree(d, e, ps) && src in ps && dst in ps
    ensures Agree(Link(d, src, dst).0, Link(e, src, dst).0, ps) && Link(d, src, dst).1 == Link(e, src, dst).1
  {
    SamePresence(d, e, src);
    SamePresence(d, e, dst);
    forall q | q in ps
      ensures SameAt(Link(d, src, dst).0, Link(e, src, dst).0, q)
    {
      SamePresence(d, e, q);
    }
  }

  lemma RenameAgree(d: Disk, e: Disk, src: Path, dst: Path, ps: set<Path>)
    requires d.WF() && e.WF() && Agree(d, e, ps) && src in ps && dst in ps
    ensures Agree(Rename(d, src, dst).0, Rename(e, src, dst).0, ps) && Rename(d, src, dst).1 == Rename(e, src, dst).1
  {
    SamePresence(d, e, src);
    SamePresence(d, e, dst);
    forall q | q in ps
      ensures SameAt(Rename(d, src, dst).0, Rename(e, src, dst).0, q)
    {
      SamePresence(d, e, q);
    }
  }

  // ---------- the parts of a cycle ----------

  /** Two runs end alike, as far as `ps` can see, and report alike. */
  ghost predicate SameEnd(d: Disk, r: Run, e: Disk, s: Run, ps: set<Path>) {
    r.ok == s.ok && Agree(End(d, r.states), End(e, s.states), ps)
  }

  lemma ThenAgree(d: Disk, r: Run, r': Run, e: Disk, s: Run, s': Run, ps: set<Path>)
    requires SameEnd(End(d, r.states), r', End(e, s.states), s', ps)
    ensures SameEnd(d, Then(r, r'), e, Then(s, s'), ps)
  {
    EndOfAppend(d, r.states, r'.states);
    EndOfAppend(e, s.states, s'.states);
  }

  lemma CopyAgree(d: Disk, e: Disk, p: Path, c: Content, o: CopyOutcome, ps: set<Path>, ids: Dirs)
    requires Tidy(d, ids) && Tidy(e, ids) && !Linkable(p.name, ids(p.dir)) && Agree(d, e, ps) && p in ps
    ensures SameEnd(d, CopyRun(d, p, c, o), e, CopyRun(e, p, c, o), ps)
  {
    hide StagingPrivate, Agree, Linkable, Unshared;
    StagingUnshared(d, p, ids);
    StagingUnshared(e, p, ids);
    OpenAgree(d, e, p, ps);
    if o.Copied? {
      OpenPrivate(d, p, ids);
      OpenPrivate(e, p, ids);
      StagingUnshared(Open(d, p), p, ids);
      StagingUnshared(Open(e, p), p, ids);
      WriteAgree(Open(d, p), Open(e, p), p, c, ps);
    }
  }

  lemma ZipAgree(d: Disk, e: Disk, src: Path, dst: Path, o: ZipOutcome, ps: set<Path>, ids: Dirs)
    requires Tidy(d, ids) && Tidy(e, ids) && !Linkable(dst.name, ids(dst.dir)) && Agree(d, e, ps) && src in ps
             && dst in ps
    ensures SameEnd(d, ZipRun(d, src, dst, o), e, ZipRun(e, src, dst, o), ps)
  {
    hide Tidy, Linkable, Unshared;
    assert SameAt(d, e, src);
    assert d.Read(src) == e.Read(src);
    match d.Read(src)
    case None =>
    case Some(c) =>
      if o.Zipped? {
        CopyAgree(d, e, dst, if o.closed then Gzip(c) else Partial, Copied, ps, ids);
      } else {
        CopyAgree(d, e, dst, Partial, Broken, ps, ids);
      }
  }

  lemma PromoteAgree(d: Disk, e: Disk, p: CyclePaths, plan: Plan, ps: set<Path>)
    requires d.WF() && e.WF() && Agree(d, e, ps) && p.stage in ps && p.final in ps
    ensures SameEnd(d, PromoteRun(d, p, plan), e, PromoteRun(e, p, plan), ps)
  {
    hide Agree, Rename, RemoveIf;
    RenameAgree(d, e, p.stage, p.final, ps);
    RemoveAgree(d, e, p.stage, plan.rmStage, ps);
  }

  lemma LinkRunAgree(d: Disk, e: Disk, p: CyclePaths, plan: Plan, ps: set<Path>)
    requires d.WF() && e.WF() && Agree(d, e, ps) && p.final in ps && p.latest in ps && p.latestTmp in ps
    ensures SameEnd(d, LinkRun(d, p, plan), e, LinkRun(e, p, plan), ps)
  {
    hide Agree, Rename, Link, RemoveIf;
    RemoveAgree(d, e, p.latestTmp, plan.rmLatestTmp, ps);
    var d1, e1 := RemoveIf(d, p.latestTmp, plan.rmLatestTmp), RemoveIf(e, p.latestTmp, plan.rmLatestTmp);
    StepsKeepWF(d, p, plan);
    StepsKeepWF(e, p, plan);
    LinkAgree(d1, e1, p.final, p.latestTmp, ps);
    RenameAgree(Link(d1, p.final, p.latestTmp).0, Link(e1, p.final, p.latestTmp).0, p.latestTmp, p.latest, ps);
  }

  lemma StepsKeepWF(d: Disk, p: CyclePaths, plan: Plan)
    requires d.WF()
    ensures var d1 := RemoveIf(d, p.latestTmp, plan.rmLatestTmp);
            d1.WF() && Link(d1, p.final, p.latestTmp).0.WF()
  {
  }

  lemma UncompressedAgree(d: Disk, e: Disk, x: Entry, plan: Plan, p: CyclePaths, now: Time, ids: Dirs)
    requires Tidy(d, ids) && Tidy(e, ids) && GoodPaths(p, Stamped(x, now), ids) && !x.compression
    requires Agree(d, e, p.All())
    ensures SameEnd(d, UncompressedRun(d, x, plan, p, now), e, UncompressedRun(e, x, plan, p, now), p.All())
  {
    hide Tidy, StaysTidy, GoodPaths, Agree, Linkable, CopyRun, PromoteRun, LinkRun, RemoveIf, SameOutside;
    var c, ps, f := Snapshot(x.Id(), Truncate(now)), p.All(), Stamped(x, now);
    PathsDiffer(p, f, ids);
    StageNotLinkable(p, f, ids);
    CopyAgree(d, e, p.stage, c, plan.copy, ps, ids);
    CopyTidy(d, p.stage, c, plan.copy, ids);
    CopyTidy(e, p.stage, c, plan.copy, ids);
    var r, s := CopyRun(d, p.stage, c, plan.copy), CopyRun(e, p.stage, c, plan.copy);
    EndTidy(d, r, ids, {p.stage});
    EndTidy(e, s, ids, {p.stage});
    var d1, e1 := End(d, r.states), End(e, s.states);
    if !r.ok {
      RemoveAgree(d1, e1, p.stage, plan.rmStage, ps);
      ThenAgree(d, r, Run([RemoveIf(d1, p.stage, plan.rmStage)], false), e, s,
        Run([RemoveIf(e1, p.stage, plan.rmStage)], false), ps);
    } else {
      PromoteAgree(d1, e1, p, plan, ps);
      var r', s' := PromoteRun(d1, p, plan), PromoteRun(e1, p, plan);
      ThenAgree(d, r, r', e, s, s', ps);
      if r'.ok {
        PromoteTidy(d1, p, plan, f, ids);
        PromoteTidy(e1, p, plan, f, ids);
        EndTidy(d1, r', ids, ps);
        EndTidy(e1, s', ids, ps);
        var d2, e2 := End(d1, r'.states), End(e1, s'.states);
        LinkRunAgree(d2, e2, p, plan, ps);
        EndOfAppend(d, r.states, r'.states);
        EndOfAppend(e, s.states, s'.states);
        ThenAgree(d, Then(r, r'), LinkRun(d2, p, plan), e, Then(s, s'), LinkRun(e2, p, plan), ps);
      }
    }
  }

  /** Dump and compression of a compressed cycle, up to the staged file. */
  lemma StagingAgree(d: Disk, e: Disk, x: Entry, plan: Plan, p: CyclePaths, now: Time, ids: Dirs)
    requires Tidy(d, ids) && Tidy(e, ids) && GoodPaths(p, Stamped(x, now), ids)
    requires Agree(d, e, p.All())
    ensures var c := Snapshot(x.Id(), Truncate(now));
            var r, s := CopyRun(d, p.temp, c, plan.copy), CopyRun(e, p.temp, c, plan.copy);
            var d1, e1 := End(d, r.states), End(e, s.states);
            var zr, zs := ZipRun(d1, p.temp, p.stage, plan.zip), ZipRun(e1, p.temp, p.stage, plan.zip);
            && SameEnd(d, r, e, s, p.All()) && Tidy(d1, ids) && Tidy(e1, ids)
            && SameEnd(d1, zr, e1, zs, p.All()) && Tidy(End(d1, zr.states), ids) && Tidy(End(e1, zs.states), ids)
  {
    hide Tidy, StaysTidy, GoodPaths, Agree, Linkable, CopyRun, ZipRun, SameOutside;
    var c, ps := Snapshot(x.Id(), Truncate(now)), p.All();
    StageNotLinkable(p, Stamped(x, now), ids);
    CopyAgree(d, e, p.temp, c, plan.copy, ps, ids);
    CopyTidy(d, p.temp, c, plan.copy, ids);
    CopyTidy(e, p.temp, c, plan.copy, ids);
    var r, s := CopyRun(d, p.temp, c, plan.copy), CopyRun(e, p.temp, c, plan.copy);
    EndTidy(d, r, ids, {p.temp});
    EndTidy(e, s, ids, {p.temp});
    var d1, e1 := End(d, r.states), End(e, s.states);
    ZipAgree(d1, e1, p.temp, p.stage, plan.zip, ps, ids);
    ZipTidy(d1, p.temp, p.stage, plan.zip, ids);
    ZipTidy(e1, p.temp, p.stage, plan.zip, ids);
    EndTidy(d1, ZipRun(d1, p.temp, p.stage, plan.zip), ids, {p.stage});
    EndTidy(e1, ZipRun(e1, p.temp, p.stage, plan.zip), ids, {p.stage});
  }

  lemma CompressedAgree(d: Disk, e: Disk, x: Entry, plan: Plan, p: CyclePaths, now: Time, ids: Dirs)
    requires Tidy(d, ids) && Tidy(e, ids) && GoodPaths(p, Stamped(x, now), ids) && x.compression
    requires Agree(d, e, p.All())
    ensures SameEnd(d, CompressedRun(d, x, plan, p, now), e, CompressedRun(e, x, plan, p, now), p.All())
  {
    hide Tidy, StaysTidy, GoodPaths, Agree, CopyRun, ZipRun, PromoteRun, RemoveIf;
    StagingAgree(d, e, x, plan, p, now, ids);
    var c, ps := Snapshot(x.Id(), Truncate(now)), p.All();
    var r, s := CopyRun(d, p.temp, c, plan.copy), CopyRun(e, p.temp, c, plan.copy);
    var d1, e1 := End(d, r.states), End(e, s.states);
    TidyIsWF(d1, ids);
    TidyIsWF(e1, ids);
    if !r.ok {
      RemoveAgree(d1, e1, p.temp, plan.rmTemp, ps);
      ThenAgree(d, r, Run([RemoveIf(d1, p.temp, plan.rmTemp)], false), e, s,
        Run([RemoveIf(e1, p.temp, plan.rmTemp)], false), ps);
    } else {
      var zr, zs := ZipRun(d1, p.temp, p.stage, plan.zip), ZipRun(e1, p.temp, p.stage, plan.zip);
      var d2, e2 := End(d1, zr.states), End(e1, zs.states);
      TidyIsWF(d2, ids);
      TidyIsWF(e2, ids);
      RemoveAgree(d2, e2, p.temp, plan.rmTemp, ps);
      var d3, e3 := RemoveIf(d2, p.temp, plan.rmTemp), RemoveIf(e2, p.temp, plan.rmTemp);
      var a, b := Run([d3], zr.ok), Run([e3], zs.ok);
      RemoveIfTidy(d2, p.temp, plan.rmTemp, ids, zr.ok);
      RemoveIfTidy(e2, p.temp, plan.rmTemp, ids, zs.ok);
      EndTidy(d2, a, ids, {p.temp});
      EndTidy(e2, b, ids, {p.temp});
      ThenAgree(d1, zr, a, e1, zs, b, ps);
      ThenAgree(d, r, Then(zr, a), e, s, Then(zs, b), ps);
      var x', y' := Then(r, Then(zr, a)), Then(s, Then(zs, b));
      EndOfAppend(d1, zr.states, a.states);
      EndOfAppend(e1, zs.states, b.states);
      EndOfAppend(d, r.states, zr.states + a.states);
      EndOfAppend(e, s.states, zs.states + b.states);
      if !zr.ok {
        RemoveAgree(d3, e3, p.stage, plan.rmStage, ps);
        ThenAgree(d, x', Run([RemoveIf(d3, p.stage, plan.rmStage)], false), e, y',
          Run([RemoveIf(e3, p.stage, plan.rmStage)], false), ps);
      } else {
        PromoteAgree(d3, e3, p, plan, ps);
        ThenAgree(d, x', PromoteRun(d3, p, plan), e, y', PromoteRun(e3, p, plan), ps);
      }
    }
  }
}
