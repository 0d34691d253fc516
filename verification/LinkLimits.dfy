/** Which latest links the engine keeps: exactly those whose ID is not another linked ID of
    the same directory plus `.tmp`. */
module LinkLimits {
  import opened Text
  import opened Calendar
  import opened BackupName
  import opened NameSpace
  import opened FileSystem
  import opened Cycle
  import opened CrashSafety
  import opened Runs
  import opened Schedule
  import opened Tidiness

  /** The IDs of a configuration, directory by directory. */
  ghost function IdsOf(cfg: set<Entry>): Dirs {
    (dir: string) => Ids(set e | e in cfg && e.Active() && e.dest == dir :: e.Id(),
                         set e | e in cfg && e.Active() && e.dest == dir && !e.compression :: e.Id())
  }

  ghost predicate GoodConfig(cfg: set<Entry>) {
    forall e | e in cfg && e.Active() :: GoodId(e.Id())
  }

  lemma ConfigIsGood(cfg: set<Entry>)
    requires GoodConfig(cfg)
    ensures GoodDirs(IdsOf(cfg))
    ensures forall e | e in cfg && e.Active() :: KnownEntry(e, IdsOf(cfg))
  {
    hide GoodId, BackupId, Base;
  }

  /** The latest link of an ID, once it is a snapshot of the ID, is one in every state of
      every run, whatever fails or is left incomplete, as long as nobody else erases it. */
  ghost predicate LinkStays(ids: Dirs, q: Path, id: string) {
    forall d, events ::
      Tidy(d, ids) && IsSnapshotOf(d.Read(q), id) && Undisturbed(events, ids, q) ==>
        forall s | s in Visited(d, events, ids) :: IsSnapshotOf(s.Read(q), id)
  }

  ghost predicate Undisturbed(events: seq<Event>, ids: Dirs, q: Path) {
    GoodEvents(events, ids) && forall ev | ev in events && ev.Erase? :: ev.path != q
  }

  // ---------- why the other links stay ----------

  /** The link is as it was, or is a snapshot of its ID. */
  ghost predicate LinkKept(d: Disk, s: Disk, q: Path) {
    s.At(q) == d.At(q) || (|q.name| >= |LATEST| && IsSnapshotOf(s.Read(q), q.name[|LATEST|..]))
  }

  lemma LinkKeptTrans(d: Disk, e: Disk, s: Disk, q: Path)
    requires LinkKept(d, e, q) && LinkKept(e, s, q)
    ensures LinkKept(d, s, q)
  {
    assert s.At(q) == e.At(q) ==> s.Read(q) == e.Read(q);
  }

  /** The refresh, from a disk whose final name holds the snapshot. */
  lemma RefreshKeepsLink(d: Disk, p: CyclePaths, plan: Plan, ids: Dirs, f: BackupFile)
    requires Tidy(d, ids) && GoodPaths(p, f, ids) && !f.compressed && IsSnapshotOf(d.Read(p.final), f.id)
    ensures forall s | s in LinkRun(d, p, plan).states ::
              s.At(p.latest) == d.At(p.latest) || IsSnapshotOf(s.Read(p.latest), f.id)
  {
    hide GoodPaths, Linkable, StagingPrivate, SameOutside, Rename;
    PathsDiffer(p, f, ids);
    LinkableFinal(p, f, ids);
    var d1 := RemoveIf(d, p.latestTmp, plan.rmLatestTmp);
    RemoveIfTidy(d, p.latestTmp, plan.rmLatestTmp, ids, false);
    assert d1 in [d1] && Tidy(d1, ids);
    Outside(d, d1, {p.latestTmp}, p.latest);
    Outside(d, d1, {p.latestTmp}, p.final);
    var (d2, linked) := Link(d1, p.final, p.latestTmp);
    LinkTidy(d1, p.final, p.latestTmp, ids);
    Outside(d1, d2, {p.latestTmp}, p.latest);
    assert linked ==> d2.At(p.latestTmp) == d1.At(p.final);
    RenameFrame(d2, p.latestTmp, p.latest);
  }

  lemma UncompressedKeepsLink(d: Disk, e: Entry, plan: Plan, p: CyclePaths, now: Time, ids: Dirs)
    requires Tidy(d, ids) && GoodPaths(p, Stamped(e, now), ids) && !e.compression
    ensures forall s | s in UncompressedRun(d, e, plan, p, now).states ::
              s.At(p.latest) == d.At(p.latest) || IsSnapshotOf(s.Read(p.latest), e.Id())
  {
    hide Tidy, SameOutside, GoodPaths, LinkRun, RemoveIf, Linkable, Rename, Open, Write, BackupId, Base;
    var f, c := Stamped(e, now), Snapshot(e.Id(), Truncate(now));
    PathsDiffer(p, f, ids);
    StageNotLinkable(p, f, ids);
    var copy := CopyRun(d, p.stage, c, plan.copy);
    CopyTidy(d, p.stage, c, plan.copy, ids);
    EndTidy(d, copy, ids, {p.stage});
    var d1 := End(d, copy.states);
    forall s | s in copy.states + [d1]
      ensures s.At(p.latest) == d.At(p.latest)
    {
      if s in copy.states { Outside(d, s, {p.stage}, p.latest); } else { Outside(d, d1, {p.stage}, p.latest); }
    }
    var gone := RemoveIf(d1, p.stage, plan.rmStage);
    RemoveIfTidy(d1, p.stage, plan.rmStage, ids, false);
    OneStateOutside(d1, gone, p.stage, p.latest, ids);
    if copy.ok {
      CopyReads(d, p.stage, c, plan.copy);
      var (d2, ok) := if plan.rename then Rename(d1, p.stage, p.final) else (d1, false);
      if ok {
        LinkableFinal(p, f, ids);
        RenameTidy(d1, p.stage, p.final, ids);
        Outside(d1, d2, {p.stage, p.final}, p.latest);
        RenameFrame(d1, p.stage, p.final);
        assert d2.Read(p.final) == Some(c);
        RefreshKeepsLink(d2, p, plan, ids, f);
      }
    }
  }

  lemma CopyReads(d: Disk, p: Path, c: Content, o: CopyOutcome)
    requires CopyRun(d, p, c, o).ok
    ensures End(d, CopyRun(d, p, c, o).states).Read(p) == Some(c)
  {
  }

  lemma OneStateOutside(d: Disk, s: Disk, p: Path, q: Path, ids: Dirs)
    requires StaysTidy(d, Run([s], false), ids, {p}) && q != p
    ensures s.At(q) == d.At(q)
  {
    hide Tidy, SameOutside;
    assert s in [s];
    Outside(d, s, {p}, q);
  }

  lemma JobKeepsLink(d0: Disk, d: Disk, job: Job, env: Env, ids: Dirs, q: Path)
    requires Tidy(d, ids) && GoodDirs(ids) && GoodJob(job, ids) && InRange(env.now) && IsLatest(q.name, ids(q.dir))
    ensures forall s | s in JobRun(d0, d, job, env).states :: Tidy(s, ids) && LinkKept(d, s, q)
  {
    hide Tidy, GoodDirs, Due, UncompressedRun, CompressedRun, GoodPaths, PathsOf, IsLatest, Accepted, SameOutside;
    hide BackupId, Base, KnownEntry;
    JobTidy(d0, d, job, env, ids);
    LatestIdIn(q.name, ids(q.dir));
    if Starts(d0, job, env) {
      var e, p := job.entry, PathsOf(job.entry, env);
      PathsAreGood(e, env, ids);
      if q in p.All() {
        OnlyOwnNames(p, Stamped(e, env.now), ids, q);
        LinkedIsUncompressed(p, Stamped(e, env.now), ids, q);
        UncompressedKeepsLink(d, e, job.plan, p, env.now, ids);
      } else {
        forall s | s in JobRun(d0, d, job, env).states
          ensures s.At(q) == d.At(q)
        {
          Outside(d, s, p.All(), q);
        }
      }
    }
  }

  lemma LinkedIsUncompressed(p: CyclePaths, f: BackupFile, ids: Dirs, q: Path)
    requires GoodPaths(p, f, ids) && q in p.All() && q == p.latest
    ensures !f.compressed && HasPrefix(q.name, LATEST) && q.name[|LATEST|..] == f.id
  {
    hide Accepted, IsLatest, Linkable, Parse;
  }

  lemma {:induction false} PassKeepsLink(d0: Disk, d: Disk, jobs: seq<Job>, env: Env, ids: Dirs, q: Path)
    requires Tidy(d, ids) && GoodDirs(ids) && InRange(env.now) && IsLatest(q.name, ids(q.dir))
    requires forall j | j in jobs :: GoodJob(j, ids)
    ensures forall s | s in PassFrom(d0, d, jobs, env).states :: Tidy(s, ids) && LinkKept(d, s, q)
    decreases |jobs|
  {
    hide Tidy, GoodDirs, GoodJob, JobRun, LinkKept, IsLatest;
    if jobs != [] && !jobs[0].plan.cancelled {
      var r := JobRun(d0, d, jobs[0], env);
      var e := End(d, r.states);
      JobKeepsLink(d0, d, jobs[0], env, ids, q);
      assert LinkKept(d, d, q) by { SelfKept(d, q); }
      assert Tidy(e, ids) && LinkKept(d, e, q);
      PassKeepsLink(d0, e, jobs[1..], env, ids, q);
      forall s | s in PassFrom(d0, e, jobs[1..], env).states
        ensures LinkKept(d, s, q)
      {
        LinkKeptTrans(d, e, s, q);
      }
    }
  }

  lemma SelfKept(d: Disk, q: Path)
    ensures LinkKept(d, d, q)
  {
  }

  lemma EventKeepsLink(d: Disk, ev: Event, ids: Dirs, q: Path)
    requires Tidy(d, ids) && GoodDirs(ids) && GoodEvent(ev, ids) && IsLatest(q.name, ids(q.dir))
    requires ev.Erase? ==> ev.path != q
    ensures forall s | s in StatesOf(d, ev, ids) :: Tidy(s, ids) && LinkKept(d, s, q)
    ensures var e := End(d, StatesOf(d, ev, ids)); Tidy(e, ids) && LinkKept(d, e, q)
  {
    hide Tidy, GoodDirs, GoodJob, LinkKept, IsLatest, SameOutside, PassFrom;
    SelfKept(d, q);
    match ev
    case Erase(p) =>
      RemoveTidy(d, p, ids);
      Outside(d, Remove(d, p), {p}, q);
      assert LinkKept(d, Remove(d, p), q) by { SameKept(d, Remove(d, p), q); }
    case PassEvent(jobs, env, cut) => PassKeepsLink(d, d, jobs, env, ids, q);
  }

  lemma SameKept(d: Disk, s: Disk, q: Path)
    requires s.At(q) == d.At(q)
    ensures LinkKept(d, s, q)
  {
  }

  lemma {:induction false} UncontestedStays(d: Disk, events: seq<Event>, ids: Dirs, q: Path)
    requires GoodDirs(ids) && Tidy(d, ids) && IsLatest(q.name, ids(q.dir)) && Undisturbed(events, ids, q)
    ensures forall s | s in Visited(d, events, ids) :: LinkKept(d, s, q)
    decreases |events|
  {
    hide Tidy, GoodDirs, GoodEvent, StatesOf, LinkKept, IsLatest;
    SelfKept(d, q);
    if events != [] {
      var e := End(d, StatesOf(d, events[0], ids));
      EventKeepsLink(d, events[0], ids, q);
      UncontestedStays(e, events[1..], ids, q);
      forall s | s in Visited(e, events[1..], ids)
        ensures LinkKept(d, s, q)
      {
        LinkKeptTrans(d, e, s, q);
      }
    }
  }

  lemma KeptSnapshot(d: Disk, s: Disk, q: Path, id: string)
    requires LinkKept(d, s, q) && IsSnapshotOf(d.Read(q), id) && q.name == LatestName(id)
    ensures IsSnapshotOf(s.Read(q), id)
  {
    assert q.name[|LATEST|..] == id;
  }

  // ---------- the run that loses a contested link ----------

  const GOOD_PLAN := Plan(false, true, true, true, Copied, NoFile, true, true, true, true, true, true)

  /** A disk that holds nothing but one latest link. */
  function OneLink(q: Path, id: string): Disk {
    Disk(map[q := Inode(q, 0)], map[Inode(q, 0) := Snapshot(id, 0)], map[q := 1])
  }

  lemma OneLinkIsSafe(ids: Dirs, q: Path, id: string)
    requires GoodIds(ids(q.dir)) && '-' in id && q.name == LatestName(id) && Contested(id, ids(q.dir))
    ensures Safe(OneLink(q, id), ids) && IsSnapshotOf(OneLink(q, id).Read(q), id)
    ensures forall x | x in ids(q.dir).all :: !exists p :: Counts(OneLink(q, id), p, q.dir, x)
  {
    hide Parse, Linkable;
    LatestNotAccepted(id, ids(q.dir));
    assert q.name[|LATEST|..] == id;
  }

  /** With the one job of an uncompressed entry, the state right after its link's staging
      name was removed is among the states of the run. */
  lemma StagingRemoved(d: Disk, e: Entry, ids: Dirs, env: Env) returns (s: Disk)
    requires GoodDirs(ids) && KnownEntry(e, ids) && e.Active() && !e.compression && InRange(env.now) && Safe(d, ids)
    requires Due(d, e, env)
    ensures s in Pass(d, [Job(e, GOOD_PLAN)], env).states && PathsOf(e, env).latestTmp !in s.names
  {
    hide GoodDirs, Safe, Due, GoodPaths, PathsOf, CopyRun, PromoteRun, BackupId, Base, Steps, AllProgress;
    hide KnownEntry, Linkable;
    var job := Job(e, GOOD_PLAN);
    var p, f := PathsOf(e, env), Stamped(e, env.now);
    PathsAreGood(e, env, ids);
    StageNotLinkable(p, f, ids);
    var c := Snapshot(e.Id(), Truncate(env.now));
    var copy := CopyRun(d, p.stage, c, Copied);
    CopySafe(d, p.stage, c, Copied, ids);
    CopySucceeds(d, p.stage, c);
    EndOfSteps(d, copy.states, ids, {p.stage});
    var d1 := End(d, copy.states);
    var promote := PromoteRun(d1, p, GOOD_PLAN);
    PromoteProgress(d1, p, GOOD_PLAN, f, ids);
    var d2 := End(d1, promote.states);
    var link := LinkRun(d2, p, GOOD_PLAN);
    s := link.states[0];
    assert UncompressedRun(d, e, GOOD_PLAN, p, env.now).states == copy.states + promote.states + link.states;
    assert JobRun(d, d, job, env).states == copy.states + promote.states + link.states;
    assert s in JobRun(d, d, job, env).states;
  }

  /** The configuration, the disk and the run. */
  lemma TmpIdLosesLink(cfg: set<Entry>, e: Entry, q: Path, id: string) returns (d: Disk, events: seq<Event>)
    requires GoodConfig(cfg) && e in cfg && e.Active() && !e.compression && e.dest == q.dir
    requires id == e.Id() + TMP && q.name == LatestName(id)
    ensures var ids := IdsOf(cfg);
            && Safe(d, ids) && Tidy(d, ids) && IsSnapshotOf(d.Read(q), id) && Undisturbed(events, ids, q)
            && exists s :: s in Visited(d, events, ids) && q !in s.names
  {
    hide Safe, BackupId, Base, Pass, PathsOf, GoodId, Due, IsSnapshotOf;
    var ids := IdsOf(cfg);
    ConfigIsGood(cfg);
    assert GoodIds(ids(q.dir));
    d := OneLink(q, id);
    var env := Env(0, {e}, {}, "");
    var job := Job(e, GOOD_PLAN);
    events := [PassEvent([job], env, |Pass(d, [job], env).states|)];
    IsContested(e, ids, id);
    OneLinkIsSafe(ids, q, id);
    SafeIsTidy(d, ids);
    assert Due(d, e, env) by { NothingHeld(d, e, env); }
    var s := StagingRemoved(d, e, ids, env);
    TmpIsLatest(e, env, q, id);
    EntriesOfOne(job);
    Reached(d, events, ids, s);
  }

  lemma IsContested(e: Entry, ids: Dirs, id: string)
    requires e.Id() in ids(e.dest).linked && id == e.Id() + TMP && GoodId(e.Id())
    ensures Contested(id, ids(e.dest)) && '-' in id
  {
    hide BackupId, Base;
    assert id[|e.Id()|..] == TMP && id[..|e.Id()|] == e.Id();
  }

  lemma NothingHeld(d: Disk, e: Entry, env: Env)
    requires env.entries == {e} && !exists p :: Counts(d, p, e.dest, e.Id())
    ensures Due(d, e, env)
  {
    hide Counts, BackupId, Base;
  }

  lemma TmpIsLatest(e: Entry, env: Env, q: Path, id: string)
    requires InRange(env.now) && id == e.Id() + TMP && q == Path(e.dest, LatestName(id))
    ensures PathsOf(e, env).latestTmp == q
  {
    hide BackupId, Base, Render, TempName;
    assert LATEST + e.Id() + TMP == LATEST + (e.Id() + TMP);
  }

  lemma EntriesOfOne(job: Job)
    ensures EntriesOf([job]) == {job.entry}
  {
    assert job in [job];
  }

  lemma Reached(d: Disk, events: seq<Event>, ids: Dirs, s: Disk)
    requires GoodEvents(events, ids) && |events| == 1 && events[0].PassEvent? && InRange(events[0].env.now)
    requires s in Pass(d, events[0].jobs, events[0].env).states
    requires |Pass(d, events[0].jobs, events[0].env).states| <= events[0].cut
    ensures s in Visited(d, events, ids)
  {
    hide Pass, GoodJob;
    var states := StatesOf(d, events[0], ids);
    assert s in states;
  }

  /** The exact condition, for any configuration with otherwise good IDs: the latest link
      of a linked ID stays in every run if and only if no uncompressed entry of the same
      directory has the ID without a final `.tmp`. */
  lemma LinkStaysExactly(cfg: set<Entry>, q: Path, id: string)
    requires GoodConfig(cfg) && q.name == LatestName(id) && id in IdsOf(cfg)(q.dir).linked
    ensures LinkStays(IdsOf(cfg), q, id) <==>
            !exists e :: e in cfg && e.Active() && !e.compression && e.dest == q.dir && id == e.Id() + TMP
  {
    hide Safe, Tidy, BackupId, Base, Visited, GoodConfig, IsSnapshotOf, GoodEvents, LinkKept;
    var ids := IdsOf(cfg);
    ConfigIsGood(cfg);
    if e :| e in cfg && e.Active() && !e.compression && e.dest == q.dir && id == e.Id() + TMP {
      var d, events := TmpIdLosesLink(cfg, e, q, id);
      var s :| s in Visited(d, events, ids) && q !in s.names;
      NoFileNoSnapshot(s, q, id);
    } else {
      LinkedAndUncontested(cfg, q, id);
      forall d, events | Tidy(d, ids) && IsSnapshotOf(d.Read(q), id) && Undisturbed(events, ids, q)
        ensures forall s | s in Visited(d, events, ids) :: IsSnapshotOf(s.Read(q), id)
      {
        UncontestedStays(d, events, ids, q);
        forall s | s in Visited(d, events, ids)
          ensures IsSnapshotOf(s.Read(q), id)
        {
          KeptSnapshot(d, s, q, id);
        }
      }
    }
  }

  lemma NoFileNoSnapshot(s: Disk, q: Path, id: string)
    requires q !in s.names
    ensures !IsSnapshotOf(s.Read(q), id)
  {
  }

  lemma LinkedAndUncontested(cfg: set<Entry>, q: Path, id: string)
    requires q.name == LatestName(id) && id in IdsOf(cfg)(q.dir).linked
    requires !exists e :: e in cfg && e.Active() && !e.compression && e.dest == q.dir && id == e.Id() + TMP
    ensures IsLatest(q.name, IdsOf(cfg)(q.dir)) && q.name[|LATEST|..] == id
  {
    hide BackupId, Base;
    assert q.name[|LATEST|..] == id && q.name[..|LATEST|] == LATEST;
    if Contested(id, IdsOf(cfg)(q.dir)) { ContestedBy(cfg, q.dir, id); }
  }

  lemma ContestedBy(cfg: set<Entry>, dir: string, id: string)
    requires Contested(id, IdsOf(cfg)(dir))
    ensures exists e :: e in cfg && e.Active() && !e.compression && e.dest == dir && id == e.Id() + TMP
  {
    hide BackupId, Base;
    var x := id[..|id| - |TMP|];
    var e :| e in cfg && e.Active() && e.dest == dir && !e.compression && e.Id() == x;
    assert id == x + TMP;
  }
}
