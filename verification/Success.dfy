/** When a cycle succeeds and what a pass leaves of each entry, said in terms of the steps
    that worked: neither more failures than failed steps, nor fewer. */
module Success {
  import opened Text
  import opened Calendar
  import opened BackupName
  import opened NameSpace
  import opened FileSystem
  import opened Cycle
  import opened CrashSafety
  import opened Runs
  import opened Tidiness
  import opened OrderOfPass
  import opened Scan

  // ---------- one cycle ----------

  /** The link refresh succeeds exactly when its steps do. A leftover staging name that
      cannot be removed makes the link step fail. */
  lemma LinkWorks(d: Disk, p: CyclePaths, plan: Plan)
    requires Distinct(p) && p.final in d.names
    ensures LinkRun(d, p, plan).ok <==> plan.link && plan.relink && (plan.rmLatestTmp || p.latestTmp !in d.names)
  {
  }

  /** Every step the entry's cycle takes works. */
  ghost predicate StepsWork(d: Disk, plan: Plan, p: CyclePaths) {
    && plan.copy.Copied? && plan.rename
    && (if p.linked then plan.link && plan.relink && (plan.rmLatestTmp || p.latestTmp !in d.names)
        else plan.zip.Zipped?)
  }

  /** The snapshot gets its final name. */
  predicate Promotes(plan: Plan, linked: bool) { plan.copy.Copied? && plan.rename && (linked || plan.zip.Zipped?) }

  /** What the snapshot then holds. */
  function Result(e: Entry, plan: Plan, now: Time): Content {
    var snapshot := Snapshot(e.Id(), Truncate(now));
    if !e.compression then snapshot
    else if plan.zip == Zipped(true) then Gzip(snapshot)
    else Partial
  }

  lemma RenameWorks(d: Disk, p: CyclePaths)
    requires d.WF() && Distinct(p) && p.stage in d.names
    ensures var (e, ok) := Rename(d, p.stage, p.final);
            && ok && e.At(p.final) == d.At(p.stage) && p.final in e.names && e.WF()
            && e.At(p.latest) == d.At(p.latest) && (p.latestTmp in e.names <==> p.latestTmp in d.names)
  {
    RenameFrame(d, p.stage, p.final);
  }

  /** The promotion, seen from its names. */
  lemma PromoteWorks(d: Disk, p: CyclePaths, plan: Plan)
    requires d.WF() && Distinct(p) && p.stage in d.names
    ensures var r := PromoteRun(d, p, plan);
            var e := End(d, r.states);
            && (r.ok <==> plan.rename)
            && (r.ok ==> e.At(p.final) == d.At(p.stage) && p.final in e.names)
            && (!r.ok ==> e.At(p.final) == d.At(p.final))
            && e.At(p.latest) == d.At(p.latest) && (p.latestTmp in e.names <==> p.latestTmp in d.names)
            && e.WF()
  {
    if plan.rename {
      hide Rename;
      RenameWorks(d, p);
    }
  }

  lemma CopyWorks(d: Disk, p: Path, c: Content, o: CopyOutcome, ids: Dirs)
    requires Tidy(d, ids) && !Linkable(p.name, ids(p.dir))
    ensures var r := CopyRun(d, p, c, o);
            var e := End(d, r.states);
            && (r.ok <==> o.Copied?)
            && (r.ok ==> p in e.names && e.Read(p) == Some(c))
            && Tidy(e, ids) && e.WF() && SameOutside(d, e, {p})
  {
    hide Linkable, SameOutside, StagingPrivate;
    CopyTidy(d, p, c, o, ids);
    EndTidy(d, CopyRun(d, p, c, o), ids, {p});
  }

  lemma ZipWorks(d: Disk, src: Path, dst: Path, o: ZipOutcome, ids: Dirs)
    requires Tidy(d, ids) && !Linkable(dst.name, ids(dst.dir)) && d.Read(src).Some?
    ensures var r := ZipRun(d, src, dst, o);
            var e := End(d, r.states);
            && (r.ok <==> o.Zipped?)
            && (r.ok ==> dst in e.names && e.Read(dst) == Some(if o.closed then Gzip(d.Read(src).value) else Partial))
            && Tidy(e, ids) && e.WF() && SameOutside(d, e, {dst})
  {
    hide Linkable, SameOutside, StagingPrivate;
    ZipTidy(d, src, dst, o, ids);
    EndTidy(d, ZipRun(d, src, dst, o), ids, {dst});
  }

  lemma Unmoved(d: Disk, e: Disk, p: Path, q: Path)
    requires d.WF() && e.WF() && SameOutside(d, e, {p}) && q != p
    ensures e.At(q) == d.At(q) && e.Read(q) == d.Read(q) && (q in e.names <==> q in d.names)
  {
    assert SameAt(d, e, q);
  }

  lemma RemoveWorks(d: Disk, p: Path, works: bool, ids: Dirs)
    requires Tidy(d, ids)
    ensures var e := RemoveIf(d, p, works);
            Tidy(e, ids) && e.WF() && SameOutside(d, e, {p})
  {
    hide Linkable, SameOutside, StagingPrivate;
    RemoveTidy(d, p, ids);
    NoChange(d, {p});
  }

  /** The result of a cycle: success exactly when all its steps work; the snapshot under its
      final name exactly when it was promoted, and otherwise everything as it was. */
  ghost predicate CycleDone(d: Disk, r: Run, e: Entry, plan: Plan, p: CyclePaths, now: Time) {
    var s := End(d, r.states);
    && (r.ok <==> StepsWork(d, plan, p))
    && (Promotes(plan, p.linked) ==> p.final in s.names && s.Read(p.final) == Some(Result(e, plan, now)))
    && (!Promotes(plan, p.linked) ==> s.At(p.final) == d.At(p.final) && s.At(p.latest) == d.At(p.latest))
    && (r.ok && p.linked ==> s.At(p.latest) == s.At(p.final))
  }

  lemma UncompressedWorks(d: Disk, e: Entry, plan: Plan, p: CyclePaths, now: Time, ids: Dirs)
    requires Tidy(d, ids) && GoodPaths(p, Stamped(e, now), ids) && !e.compression
    ensures CycleDone(d, UncompressedRun(d, e, plan, p, now), e, plan, p, now)
  {
    hide Tidy, GoodPaths, Linkable, CopyRun, PromoteRun, LinkRun, RemoveIf, SameOutside, BackupId, Base;
    var f, c := Stamped(e, now), Snapshot(e.Id(), Truncate(now));
    PathsDiffer(p, f, ids);
    StageNotLinkable(p, f, ids);
    var copy := CopyRun(d, p.stage, c, plan.copy);
    var d1 := End(d, copy.states);
    TidyIsWF(d, ids);
    CopyWorks(d, p.stage, c, plan.copy, ids);
    Unmoved(d, d1, p.stage, p.final);
    Unmoved(d, d1, p.stage, p.latest);
    Unmoved(d, d1, p.stage, p.latestTmp);
    if !copy.ok {
      var gone := RemoveIf(d1, p.stage, plan.rmStage);
      RemoveWorks(d1, p.stage, plan.rmStage, ids);
      Unmoved(d1, gone, p.stage, p.final);
      Unmoved(d1, gone, p.stage, p.latest);
      EndOfAppend(d, copy.states, [gone]);
    } else {
      PromoteWorks(d1, p, plan);
      var promote := PromoteRun(d1, p, plan);
      var d2 := End(d1, promote.states);
      EndOfAppend(d, copy.states, promote.states);
      if promote.ok {
        assert d2.Read(p.final) == Some(c);
        var link := LinkRun(d2, p, plan);
        LinkWorks(d2, p, plan);
        LinkedTo(d2, p, plan);
        EndOfAppend(d, copy.states + promote.states, link.states);
      }
    }
  }

  /** Whatever the refresh does, the snapshot stays; when it succeeds the link is its inode. */
  lemma LinkedTo(d: Disk, p: CyclePaths, plan: Plan)
    requires d.WF() && Distinct(p) && p.final in d.names
    ensures var r := LinkRun(d, p, plan);
            var s := End(d, r.states);
            && s.At(p.final) == d.At(p.final) && p.final in s.names && s.Read(p.final) == d.Read(p.final)
            && (r.ok ==> s.At(p.latest) == s.At(p.final))
  {
  }

  /** The dump and its compression, both staging files' removals included. */
  lemma ZipStage(d: Disk, f: BackupFile, plan: Plan, p: CyclePaths, ids: Dirs, c: Content)
    requires Tidy(d, ids) && GoodPaths(p, f, ids) && d.Read(p.temp) == Some(c)
    ensures var zip := ZipRun(d, p.temp, p.stage, plan.zip);
            var e := RemoveIf(End(d, zip.states), p.temp, plan.rmTemp);
            && (zip.ok <==> plan.zip.Zipped?)
            && (zip.ok ==> p.stage in e.names && e.Read(p.stage) == Some(if plan.zip.closed then Gzip(c) else Partial))
            && Tidy(e, ids) && e.WF() && e.At(p.final) == d.At(p.final) && e.At(p.latest) == d.At(p.latest)
  {
    hide Tidy, GoodPaths, Linkable, ZipRun, RemoveIf, SameOutside;
    PathsDiffer(p, f, ids);
    StageNotLinkable(p, f, ids);
    TidyIsWF(d, ids);
    var e1 := End(d, ZipRun(d, p.temp, p.stage, plan.zip).states);
    ZipWorks(d, p.temp, p.stage, plan.zip, ids);
    Unmoved(d, e1, p.stage, p.final);
    Unmoved(d, e1, p.stage, p.latest);
    var e2 := RemoveIf(e1, p.temp, plan.rmTemp);
    RemoveWorks(e1, p.temp, plan.rmTemp, ids);
    Unmoved(e1, e2, p.temp, p.final);
    Unmoved(e1, e2, p.temp, p.latest);
    Unmoved(e1, e2, p.temp, p.stage);
  }

  /** The end of a compressed cycle, by how far it got. */
  lemma CompressedEnd(d: Disk, e: Entry, plan: Plan, p: CyclePaths, now: Time)
    ensures var r, copy := CompressedRun(d, e, plan, p, now),
            CopyRun(d, p.temp, Snapshot(e.Id(), Truncate(now)), plan.copy);
            var d1 := End(d, copy.states);
            var zip := ZipRun(d1, p.temp, p.stage, plan.zip);
            var d2 := RemoveIf(End(d1, zip.states), p.temp, plan.rmTemp);
            && (!copy.ok ==> !r.ok && End(d, r.states) == RemoveIf(d1, p.temp, plan.rmTemp))
            && (copy.ok && !zip.ok ==> !r.ok && End(d, r.states) == RemoveIf(d2, p.stage, plan.rmStage))
            && (copy.ok && zip.ok ==>
                  r.ok == PromoteRun(d2, p, plan).ok && End(d, r.states) == End(d2, PromoteRun(d2, p, plan).states))
  {
    hide CopyRun, ZipRun, PromoteRun, RemoveIf, BackupId, Base;
    var copy := CopyRun(d, p.temp, Snapshot(e.Id(), Truncate(now)), plan.copy);
    var d1 := End(d, copy.states);
    var zip := ZipRun(d1, p.temp, p.stage, plan.zip);
    var d2 := RemoveIf(End(d1, zip.states), p.temp, plan.rmTemp);
    var states := copy.states + (zip.states + [d2]);
    EndOfAppend(d, copy.states, [RemoveIf(d1, p.temp, plan.rmTemp)]);
    EndOfAppend(d1, zip.states, [d2]);
    EndOfAppend(d, copy.states, zip.states + [d2]);
    EndOfAppend(d, states, [RemoveIf(d2, p.stage, plan.rmStage)]);
    EndOfAppend(d, states, PromoteRun(d2, p, plan).states);
  }

  lemma CompressedWorks(d: Disk, e: Entry, plan: Plan, p: CyclePaths, now: Time, ids: Dirs)
    requires Tidy(d, ids) && GoodPaths(p, Stamped(e, now), ids) && e.compression
    ensures CycleDone(d, CompressedRun(d, e, plan, p, now), e, plan, p, now)
  {
    hide Tidy, GoodPaths, Linkable, CopyRun, ZipRun, PromoteRun, RemoveIf, SameOutside, BackupId, Base, CompressedRun;
    hide StagingPrivate, Truncate;
    var f, c := Stamped(e, now), Snapshot(e.Id(), Truncate(now));
    PathsDiffer(p, f, ids);
    StageNotLinkable(p, f, ids);
    var d1 := End(d, CopyRun(d, p.temp, c, plan.copy).states);
    TidyIsWF(d, ids);
    CopyWorks(d, p.temp, c, plan.copy, ids);
    Unmoved(d, d1, p.temp, p.final);
    Unmoved(d, d1, p.temp, p.latest);
    CompressedEnd(d, e, plan, p, now);
    if !plan.copy.Copied? {
      var gone := RemoveIf(d1, p.temp, plan.rmTemp);
      RemoveWorks(d1, p.temp, plan.rmTemp, ids);
      Unmoved(d1, gone, p.temp, p.final);
      Unmoved(d1, gone, p.temp, p.latest);
    } else {
      ZipStage(d1, f, plan, p, ids, c);
      var d2 := RemoveIf(End(d1, ZipRun(d1, p.temp, p.stage, plan.zip).states), p.temp, plan.rmTemp);
      if !plan.zip.Zipped? {
        var gone := RemoveIf(d2, p.stage, plan.rmStage);
        RemoveWorks(d2, p.stage, plan.rmStage, ids);
        Unmoved(d2, gone, p.stage, p.final);
        Unmoved(d2, gone, p.stage, p.latest);
      } else {
        PromoteWorks(d2, p, plan);
      }
    }
  }

  // ---------- when an entry is due ----------

  /** The clamped difference decides as the true one, for every duration. */
  lemma DueExactly(latestTime: Time, f: Duration, now: Time)
    requires MIN_DURATION < f <= MAX_DURATION
    ensures IsBackupDue(latestTime, f, now) <==> latestTime == 0 || now - latestTime >= f
  {
  }

  /** No snapshot of the entry in its directory is younger than its frequency. */
  ghost predicate NoneYoung(d: Disk, e: Entry, env: Env) {
    e.dest in env.unreadable
    || forall p | Counts(d, p, e.dest, e.Id()) :: env.now - Parse(p.name).value.time >= e.frequency
  }

  lemma DueIsNoneYoung(d: Disk, e: Entry, env: Env)
    requires e in env.entries && e.Active() && OnlyDir(env, e.dest, e.Id())
             && MIN_DURATION < e.frequency <= MAX_DURATION
    ensures Due(d, e, env) <==> NoneYoung(d, e, env)
  {
    hide Parse, BackupId, Base, Due;
    DueInOneDir(d, e, env);
    assert forall t: Time :: Sub(env.now, t) >= e.frequency <==> env.now - t >= e.frequency;
  }

  // ---------- a whole pass ----------

  predicate ChecksPass(plan: Plan) { plan.destIsDir && plan.sourceIsFile && plan.connects }

  /** An entry without a source or without a destination is skipped, and that is no failure. */
  lemma DeactivatedIsSkipped(d0: Disk, d: Disk, j: Job, env: Env)
    requires InRange(env.now) && (j.entry.source == "" || j.entry.dest == "")
    ensures JobRun(d0, d, j, env) == Run([], true)
  {
    hide Due, FileRun;
  }

  lemma JobDone(d: Disk, j: Job, env: Env, ids: Dirs)
    requires Tidy(d, ids) && GoodDirs(ids) && GoodJob(j, ids) && InRange(env.now) && j.entry.Active()
    ensures var r := JobRun(d, d, j, env);
            && (!Due(d, j.entry, env) ==> r.ok && r.states == [])
            && (Due(d, j.entry, env) && !ChecksPass(j.plan) ==> !r.ok && r.states == [])
            && (Due(d, j.entry, env) && ChecksPass(j.plan) ==>
                  CycleDone(d, r, j.entry, j.plan, PathsOf(j.entry, env), env.now))
  {
    hide Tidy, GoodDirs, Due, UncompressedRun, CompressedRun, GoodPaths, PathsOf, CycleDone, KnownEntry;
    if Due(d, j.entry, env) && ChecksPass(j.plan) {
      PathsAreGood(j.entry, env, ids);
      if j.entry.compression {
        CompressedWorks(d, j.entry, j.plan, PathsOf(j.entry, env), env.now, ids);
      } else {
        UncompressedWorks(d, j.entry, j.plan, PathsOf(j.entry, env), env.now, ids);
      }
    }
  }

  /** What is left of an entry after a pass. If it was not due it did not fail; otherwise it
      failed exactly when a check or a step of its cycle did. Its new snapshot is there
      exactly when it was promoted, and after a success the link of an uncompressed entry is
      that snapshot. An entry that was skipped or refused leaves no trace. */
  ghost predicate Outcome(d: Disk, s: Disk, j: Job, p: CyclePaths, now: Time, due: bool, failed: bool) {
    var started := due && ChecksPass(j.plan);
    && (failed <==> due && !(started && StepsWork(d, j.plan, p)))
    && (started && Promotes(j.plan, p.linked) ==> s.Read(p.final) == Some(Result(j.entry, j.plan, now)))
    && (started && !Promotes(j.plan, p.linked) ==>
          s.At(p.final) == d.At(p.final) && (p.linked ==> s.At(p.latest) == d.At(p.latest)))
    && (started && !failed && p.linked ==> s.At(p.latest).Some? && s.At(p.latest) == s.At(p.final))
    && (!started ==> forall q | q in p.All() :: SameAt(d, s, q))
  }

  /** An active entry is due exactly when no snapshot of it is younger than its frequency,
      and its outcome depends on its own steps alone. */
  lemma PassOutcome(d: Disk, jobs: seq<Job>, env: Env, ids: Dirs, j: Job)
    requires Tidy(d, ids) && PlainPass(jobs, env, ids) && env.entries == EntriesOf(jobs)
    requires j in jobs && j.entry.Active() && MIN_DURATION < j.entry.frequency <= MAX_DURATION
    ensures InRange(env.now)
    ensures var r := Pass(d, jobs, env);
            Outcome(d, End(d, r.states), j, PathsOf(j.entry, env), env.now, NoneYoung(d, j.entry, env),
              j.entry.Id() in r.failed)
  {
    hide Tidy, PlainPass, PassFrom, JobRun, GoodDirs, GoodJob, Due, Starts, NoneYoung, StepsWork, OnlyDir;
    hide BackupId, Base, Outcome, CycleDone, PathsOf, SameAt;
    PlainEnv(jobs, env, ids);
    PlainOneDir(jobs, env, ids, j);
    DueIsNoneYoung(d, j.entry, env);
    JobDone(d, j, env, ids);
    FailsAlone(d, jobs, env, ids, j);
    var p := PathsOf(j.entry, env);
    var s, r := End(d, Pass(d, jobs, env).states), JobRun(d, d, j, env);
    if Due(d, j.entry, env) && ChecksPass(j.plan) {
      EndsAlone(d, jobs, env, ids, j);
      DoneIsOutcome(d, s, r, j, p, env.now);
    } else {
      forall q | q in p.All()
        ensures SameAt(d, s, q)
      {
        NobodyOwns(d, jobs, env, ids, j, q);
        PassOutside(d, d, jobs, env, ids, q);
      }
      IdleIsOutcome(d, s, r, j, p, env.now, Due(d, j.entry, env));
    }
  }

  lemma FailsAlone(d: Disk, jobs: seq<Job>, env: Env, ids: Dirs, j: Job)
    requires Tidy(d, ids) && PlainPass(jobs, env, ids) && j in jobs && j.entry.Active()
    ensures InRange(env.now)
    ensures j.entry.Id() in Pass(d, jobs, env).failed <==> !JobRun(d, d, j, env).ok
  {
    hide Tidy, PlainPass, PassFrom, JobRun, Owns, BackupId, Base;
    PassLocal(d, d, jobs, env, ids, j);
  }

  lemma EndsAlone(d: Disk, jobs: seq<Job>, env: Env, ids: Dirs, j: Job)
    requires Tidy(d, ids) && PlainPass(jobs, env, ids) && j in jobs && j.entry.Active()
    requires Due(d, j.entry, env) && ChecksPass(j.plan)
    ensures InRange(env.now)
    ensures var s, alone := End(d, Pass(d, jobs, env).states), End(d, JobRun(d, d, j, env).states);
            var p := PathsOf(j.entry, env);
            SameAt(s, alone, p.final) && (p.linked ==> SameAt(s, alone, p.latest))
  {
    hide Tidy, PlainPass, PassFrom, JobRun, Owns, BackupId, Base, Due, PathsOf, SameAt;
    PassLocal(d, d, jobs, env, ids, j);
    StartedOwns(d, j, env);
  }

  lemma DoneIsOutcome(d: Disk, s: Disk, r: Run, j: Job, p: CyclePaths, now: Time)
    requires CycleDone(d, r, j.entry, j.plan, p, now) && ChecksPass(j.plan)
    requires SameAt(s, End(d, r.states), p.final) && (p.linked ==> SameAt(s, End(d, r.states), p.latest))
    ensures Outcome(d, s, j, p, now, true, !r.ok)
  {
    hide Result, BackupId, Base;
  }

  lemma IdleIsOutcome(d: Disk, s: Disk, r: Run, j: Job, p: CyclePaths, now: Time, due: bool)
    requires !(due && ChecksPass(j.plan)) && (r.ok <==> !due) && forall q | q in p.All() :: SameAt(d, s, q)
    ensures Outcome(d, s, j, p, now, due, !r.ok)
  {
    hide Result, BackupId, Base, StepsWork, SameAt;
  }

  lemma StartedOwns(d: Disk, j: Job, env: Env)
    requires InRange(env.now) && j.entry.Active() && Due(d, j.entry, env) && ChecksPass(j.plan)
    ensures var p := PathsOf(j.entry, env);
            Owns(d, j, env, p.final) && (p.linked ==> Owns(d, j, env, p.latest))
  {
    hide Due, Render, TempName;
  }

  lemma NobodyOwns(d: Disk, jobs: seq<Job>, env: Env, ids: Dirs, j: Job, q: Path)
    requires PlainPass(jobs, env, ids) && InRange(env.now) && j in jobs && j.entry.Active()
    requires !(Due(d, j.entry, env) && ChecksPass(j.plan)) && q in PathsOf(j.entry, env).All()
    ensures forall k | k in jobs :: !Owns(d, k, env, q)
  {
    hide GoodDirs, GoodJob, Due, PathsOf, BackupId, Base, Apart;
    forall k | k in jobs
      ensures !Owns(d, k, env, q)
    {
      if Owns(d, k, env, q) && k != j { PathsApart(j, k, env, ids, q); }
    }
  }
}
