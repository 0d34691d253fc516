/** What a cycle does to names and inodes whatever ends up in the files, so that it also
    covers cycles that promote an incomplete stream. */
module Tidiness {
  import opened Calendar
  import opened BackupName
  import opened NameSpace
  import opened FileSystem
  import opened Cycle
  import opened CrashSafety
  import opened Runs

  /** Every state of the run is tidy, and differs from its start at `ps` only. */
  ghost predicate StaysTidy(d: Disk, r: Run, ids: Dirs, ps: set<Path>) {
    forall s | s in r.states :: Tidy(s, ids) && SameOutside(d, s, ps)
  }

  lemma EndTidy(d: Disk, r: Run, ids: Dirs, ps: set<Path>)
    requires Tidy(d, ids) && StaysTidy(d, r, ids, ps)
    ensures Tidy(End(d, r.states), ids) && SameOutside(d, End(d, r.states), ps)
    ensures End(d, r.states).WF()
  {
    hide StagingPrivate;
    if r.states != [] { assert End(d, r.states) in r.states; }
  }

  lemma ThenTidy(d: Disk, r: Run, s: Run, ids: Dirs, ps: set<Path>)
    requires Tidy(d, ids) && StaysTidy(d, r, ids, ps) && StaysTidy(End(d, r.states), s, ids, ps)
    ensures StaysTidy(d, Then(r, s), ids, ps)
  {
    hide Tidy, SameOutside;
    EndTidy(d, r, ids, ps);
    forall x | x in r.states + s.states
      ensures Tidy(x, ids) && SameOutside(d, x, ps)
    {
      if x !in r.states { SameOutsideTrans(d, End(d, r.states), x, ps); }
    }
  }

  lemma WidenTidy(d: Disk, r: Run, ids: Dirs, qs: set<Path>, ps: set<Path>)
    requires StaysTidy(d, r, ids, qs) && qs <= ps
    ensures StaysTidy(d, r, ids, ps)
  {
    hide Tidy, SameOutside;
    forall s | s in r.states
      ensures Tidy(s, ids) && SameOutside(d, s, ps)
    {
      WidenOne(d, s, qs, ps);
    }
  }

  lemma SafeIsTidy(d: Disk, ids: Dirs)
    requires Safe(d, ids)
    ensures Tidy(d, ids) && d.WF()
  {
    hide SnapshotsComplete, LinksResolve, StagingPrivate;
  }

  lemma TidyIsWF(d: Disk, ids: Dirs)
    requires Tidy(d, ids)
    ensures d.WF()
  {
  }

  // ---------- the parts of a cycle ----------

  lemma CopyTidy(d: Disk, p: Path, c: Content, o: CopyOutcome, ids: Dirs)
    requires Tidy(d, ids) && !Linkable(p.name, ids(p.dir))
    ensures StaysTidy(d, CopyRun(d, p, c, o), ids, {p})
  {
    hide Linkable, SameOutside, StagingPrivate;
    NoChange(d, {p});
    OpenPrivate(d, p, ids);
    WriteTidy(Open(d, p), p, c, ids);
    SameOutsideTrans(d, Open(d, p), Write(Open(d, p), p, c), {p});
  }

  lemma ZipTidy(d: Disk, src: Path, dst: Path, o: ZipOutcome, ids: Dirs)
    requires Tidy(d, ids) && !Linkable(dst.name, ids(dst.dir))
    ensures StaysTidy(d, ZipRun(d, src, dst, o), ids, {dst})
  {
    hide Linkable, SameOutside, Tidy;
    NoChange(d, {dst});
    match d.Read(src)
    case None =>
    case Some(c) =>
      if o.Zipped? {
        CopyTidy(d, dst, if o.closed then Gzip(c) else Partial, Copied, ids);
      } else {
        CopyTidy(d, dst, c, Broken, ids);
      }
  }

  lemma RemoveIfTidy(d: Disk, p: Path, works: bool, ids: Dirs, ok: bool)
    requires Tidy(d, ids)
    ensures StaysTidy(d, Run([RemoveIf(d, p, works)], ok), ids, {p})
  {
    hide Tidy, SameOutside;
    RemoveTidy(d, p, ids);
    NoChange(d, {p});
  }

  lemma PromoteTidy(d: Disk, p: CyclePaths, plan: Plan, f: BackupFile, ids: Dirs)
    requires Tidy(d, ids) && GoodPaths(p, f, ids)
    ensures StaysTidy(d, PromoteRun(d, p, plan), ids, p.All())
  {
    hide Tidy, SameOutside, GoodPaths, Rename, Linkable;
    PathsDiffer(p, f, ids);
    LinkableFinal(p, f, ids);
    RenameTidy(d, p.stage, p.final, ids);
    RemoveIfTidy(d, p.stage, plan.rmStage, ids, false);
    WidenTidy(d, Run([RemoveIf(d, p.stage, plan.rmStage)], false), ids, {p.stage}, p.All());
    WidenOne(d, Rename(d, p.stage, p.final).0, {p.stage, p.final}, p.All());
  }

  lemma LinkRunTidy(d: Disk, p: CyclePaths, plan: Plan, f: BackupFile, ids: Dirs)
    requires Tidy(d, ids) && GoodPaths(p, f, ids) && !f.compressed
    ensures StaysTidy(d, LinkRun(d, p, plan), ids, p.All())
  {
    hide Tidy, SameOutside, GoodPaths, Rename, Link, RemoveIf, Linkable;
    var ps := p.All();
    PathsDiffer(p, f, ids);
    LinkableFinal(p, f, ids);
    var d1 := RemoveIf(d, p.latestTmp, plan.rmLatestTmp);
    RemoveIfTidy(d, p.latestTmp, plan.rmLatestTmp, ids, false);
    WidenOne(d, d1, {p.latestTmp}, ps);
    var d2 := Link(d1, p.final, p.latestTmp).0;
    LinkTidy(d1, p.final, p.latestTmp, ids);
    WidenOne(d1, d2, {p.latestTmp}, ps);
    SameOutsideTrans(d, d1, d2, ps);
    var d3 := Rename(d2, p.latestTmp, p.latest).0;
    RenameTidy(d2, p.latestTmp, p.latest, ids);
    WidenOne(d2, d3, {p.latestTmp, p.latest}, ps);
    SameOutsideTrans(d, d2, d3, ps);
  }

  // ---------- a whole cycle ----------

  lemma UncompressedTidy(d: Disk, e: Entry, plan: Plan, p: CyclePaths, now: Time, ids: Dirs)
    requires Tidy(d, ids) && GoodPaths(p, Stamped(e, now), ids) && !e.compression
    ensures StaysTidy(d, UncompressedRun(d, e, plan, p, now), ids, p.All())
  {
    hide Tidy, SameOutside, GoodPaths, CopyRun, PromoteRun, LinkRun, RemoveIf, Linkable, StaysTidy;
    var f, ps := Stamped(e, now), p.All();
    StageNotLinkable(p, f, ids);
    var copy := CopyRun(d, p.stage, Snapshot(e.Id(), Truncate(now)), plan.copy);
    CopyTidy(d, p.stage, Snapshot(e.Id(), Truncate(now)), plan.copy, ids);
    WidenTidy(d, copy, ids, {p.stage}, ps);
    var d1 := End(d, copy.states);
    EndTidy(d, copy, ids, ps);
    if !copy.ok {
      var undo := Run([RemoveIf(d1, p.stage, plan.rmStage)], false);
      RemoveIfTidy(d1, p.stage, plan.rmStage, ids, false);
      WidenTidy(d1, undo, ids, {p.stage}, ps);
      ThenTidy(d, copy, undo, ids, ps);
    } else {
      var promote := PromoteRun(d1, p, plan);
      PromoteTidy(d1, p, plan, f, ids);
      ThenTidy(d, copy, promote, ids, ps);
      if promote.ok {
        EndTidy(d1, promote, ids, ps);
        LinkRunTidy(End(d1, promote.states), p, plan, f, ids);
        EndOfAppend(d, copy.states, promote.states);
        ThenTidy(d, Then(copy, promote), LinkRun(End(d1, promote.states), p, plan), ids, ps);
      }
    }
  }

  lemma CompressedTidy(d: Disk, e: Entry, plan: Plan, p: CyclePaths, now: Time, ids: Dirs)
    requires Tidy(d, ids) && GoodPaths(p, Stamped(e, now), ids)
    ensures StaysTidy(d, CompressedRun(d, e, plan, p, now), ids, p.All())
  {
    hide Tidy, SameOutside, GoodPaths, CopyRun, ZipRun, PromoteRun, RemoveIf, Linkable, StaysTidy;
    var f, ps := Stamped(e, now), p.All();
    StageNotLinkable(p, f, ids);
    var copy := CopyRun(d, p.temp, Snapshot(e.Id(), Truncate(now)), plan.copy);
    CopyTidy(d, p.temp, Snapshot(e.Id(), Truncate(now)), plan.copy, ids);
    WidenTidy(d, copy, ids, {p.temp}, ps);
    var d1 := End(d, copy.states);
    EndTidy(d, copy, ids, ps);
    if !copy.ok {
      var undo := Run([RemoveIf(d1, p.temp, plan.rmTemp)], false);
      RemoveIfTidy(d1, p.temp, plan.rmTemp, ids, false);
      WidenTidy(d1, undo, ids, {p.temp}, ps);
      ThenTidy(d, copy, undo, ids, ps);
    } else {
      var zip := ZipRun(d1, p.temp, p.stage, plan.zip);
      ZipTidy(d1, p.temp, p.stage, plan.zip, ids);
      WidenTidy(d1, zip, ids, {p.stage}, ps);
      var d2 := End(d1, zip.states);
      EndTidy(d1, zip, ids, ps);
      var d3 := RemoveIf(d2, p.temp, plan.rmTemp);
      var clean := Run([d3], zip.ok);
      RemoveIfTidy(d2, p.temp, plan.rmTemp, ids, zip.ok);
      WidenTidy(d2, clean, ids, {p.temp}, ps);
      EndTidy(d2, clean, ids, ps);
      ThenTidy(d1, zip, clean, ids, ps);
      ThenTidy(d, copy, Then(zip, clean), ids, ps);
      var zipped := Then(copy, Then(zip, clean));
      EndOfAppend(d1, zip.states, clean.states);
      EndOfAppend(d, copy.states, zip.states + clean.states);
      if !zip.ok {
        var undo := Run([RemoveIf(d3, p.stage, plan.rmStage)], false);
        RemoveIfTidy(d3, p.stage, plan.rmStage, ids, false);
        WidenTidy(d3, undo, ids, {p.stage}, ps);
        ThenTidy(d, zipped, undo, ids, ps);
      } else {
        PromoteTidy(d3, p, plan, f, ids);
        ThenTidy(d, zipped, PromoteRun(d3, p, plan), ids, ps);
      }
    }
  }

  // ---------- jobs and passes ----------

  lemma JobTidy(d0: Disk, d: Disk, job: Job, env: Env, ids: Dirs)
    requires Tidy(d, ids) && GoodDirs(ids) && GoodJob(job, ids) && InRange(env.now)
    ensures StaysTidy(d, JobRun(d0, d, job, env), ids, PathsOf(job.entry, env).All())
  {
    hide Tidy, GoodDirs, Due, UncompressedRun, CompressedRun, GoodPaths, SameOutside, PathsOf;
    if Starts(d0, job, env) {
      var e, p := job.entry, PathsOf(job.entry, env);
      PathsAreGood(e, env, ids);
      if e.compression {
        CompressedTidy(d, e, job.plan, p, env.now, ids);
      } else {
        UncompressedTidy(d, e, job.plan, p, env.now, ids);
      }
    } else {
      NoChange(d, PathsOf(job.entry, env).All());
    }
  }

  ghost predicate SnapshotMade(d0: Disk, q: Path, jobs: seq<Job>, env: Env)
    requires InRange(env.now)
  {
    exists job | job in jobs :: Starts(d0, job, env) && q == PathsOf(job.entry, env).final
  }

  /** Every accepted name in `s` was there in `d`, or is the snapshot of a started job. */
  ghost predicate Adds(d0: Disk, d: Disk, s: Disk, jobs: seq<Job>, env: Env, ids: Dirs)
    requires InRange(env.now)
  {
    forall q: Path | Accepted(q.name, ids(q.dir)) && s.At(q).Some? :: d.At(q).Some? || SnapshotMade(d0, q, jobs, env)
  }

  lemma JobAdds(d0: Disk, d: Disk, job: Job, env: Env, ids: Dirs, s: Disk)
    requires Tidy(d, ids) && GoodDirs(ids) && GoodJob(job, ids) && InRange(env.now)
    requires s in JobRun(d0, d, job, env).states
    ensures Tidy(s, ids) && Adds(d0, d, s, [job], env, ids)
  {
    hide Tidy, GoodDirs, GoodJob, FileRun, Accepted, IsLatest, GoodPaths, PathsOf, Due;
    JobTidy(d0, d, job, env, ids);
    var p, f := PathsOf(job.entry, env), Stamped(job.entry, env.now);
    assert Starts(d0, job, env) && job in [job];
    StartedIsGood(d0, job, env, ids);
    PathsAreGood(job.entry, env, ids);
    forall q: Path | Accepted(q.name, ids(q.dir)) && s.At(q).Some?
      ensures d.At(q).Some? || SnapshotMade(d0, q, [job], env)
    {
      if q in p.All() {
        OnlyOwnNames(p, f, ids, q);
      } else {
        Outside(d, s, p.All(), q);
      }
    }
  }

  lemma JobEndAdds(d0: Disk, d: Disk, job: Job, env: Env, ids: Dirs)
    requires Tidy(d, ids) && GoodDirs(ids) && GoodJob(job, ids) && InRange(env.now)
    ensures var e := End(d, JobRun(d0, d, job, env).states);
            Tidy(e, ids) && Adds(d0, d, e, [job], env, ids)
  {
    hide Tidy, GoodDirs, GoodJob, JobRun;
    var r := JobRun(d0, d, job, env);
    if r.states != [] {
      JobAdds(d0, d, job, env, ids, End(d, r.states));
    }
  }

  lemma AddsTrans(d0: Disk, d: Disk, e: Disk, s: Disk, a: seq<Job>, b: seq<Job>, jobs: seq<Job>, env: Env, ids: Dirs)
    requires InRange(env.now) && Adds(d0, d, e, a, env, ids) && Adds(d0, e, s, b, env, ids)
    requires forall j | j in a || j in b :: j in jobs
    ensures Adds(d0, d, s, jobs, env, ids)
  {
    hide Starts, Accepted, PathsOf;
  }

  /** Every state of a pass, unclosed streams included, adds snapshots of started jobs only. */
  lemma {:induction false} PassAdds(d0: Disk, d: Disk, jobs: seq<Job>, env: Env, ids: Dirs, s: Disk)
    requires Tidy(d, ids) && GoodDirs(ids) && InRange(env.now)
    requires forall j | j in jobs :: GoodJob(j, ids)
    requires s in PassFrom(d0, d, jobs, env).states
    ensures Tidy(s, ids) && Adds(d0, d, s, jobs, env, ids)
    decreases |jobs|
  {
    hide Tidy, GoodDirs, GoodJob, JobRun, Adds;
    var r := JobRun(d0, d, jobs[0], env);
    if s in r.states {
      JobAdds(d0, d, jobs[0], env, ids, s);
      NothingAdded(d0, d, env, ids);
      AddsTrans(d0, d, d, s, [], [jobs[0]], jobs, env, ids);
    } else {
      var e := End(d, r.states);
      JobEndAdds(d0, d, jobs[0], env, ids);
      PassAdds(d0, e, jobs[1..], env, ids, s);
      AddsTrans(d0, d, e, s, [jobs[0]], jobs[1..], jobs, env, ids);
    }
  }

  lemma NothingAdded(d0: Disk, d: Disk, env: Env, ids: Dirs)
    requires InRange(env.now)
    ensures Adds(d0, d, d, [], env, ids)
  {
  }
}
