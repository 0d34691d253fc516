/** Passes and whole runs: any number of passes, each cut short by a crash after any of
    its steps, with files erased in between. */
module Runs {
  import opened Text
  import opened Calendar
  import opened BackupName
  import opened NameSpace
  import opened FileSystem
  import opened Cycle
  import opened CrashSafety

  /** The job promotes a compressed file whose stream was never closed. */
  ghost predicate UnclosedJob(d0: Disk, job: Job, env: Env) {
    Starts(d0, job, env) && job.entry.compression && Unclosed(job.plan)
  }

  ghost predicate GoodJob(job: Job, ids: Dirs) {
    job.entry.Active() ==> KnownEntry(job.entry, ids)
  }

  /** The loop gets past the cancellation check of job k. */
  predicate Reached(jobs: seq<Job>, k: nat)
    requires k < |jobs|
  {
    forall i | 0 <= i <= k :: !jobs[i].plan.cancelled
  }

  // ---------- one job ----------

  lemma JobSafe(d0: Disk, d: Disk, job: Job, env: Env, ids: Dirs)
    requires Safe(d, ids) && GoodDirs(ids) && GoodJob(job, ids) && InRange(env.now)
    requires !UnclosedJob(d0, job, env)
    ensures var r, p := JobRun(d0, d, job, env), PathsOf(job.entry, env);
            Steps(d, r.states, ids, p.All()) && AllProgress(d, r.states, p, Stamped(job.entry, env.now))
  {
    hide Safe, GoodDirs, Due, UncompressedRun, CompressedRun, Unclosed, GoodPaths, SameOutside, Progress, PathsOf;
    if Starts(d0, job, env) {
      var e, p := job.entry, PathsOf(job.entry, env);
      PathsAreGood(e, env, ids);
      if e.compression {
        CompressedSafe(d, e, job.plan, p, env.now, ids);
      } else {
        UncompressedSafe(d, e, job.plan, p, env.now, ids);
      }
    }
  }

  lemma JobUnsafe(d0: Disk, d: Disk, job: Job, env: Env, ids: Dirs)
    requires Safe(d, ids) && GoodDirs(ids) && GoodJob(job, ids) && InRange(env.now)
    requires UnclosedJob(d0, job, env)
    ensures var r := JobRun(d0, d, job, env);
            r.states != [] && !Safe(End(d, r.states), ids)
  {
    hide Safe, GoodDirs, Due, CompressedRun, Unclosed, GoodPaths, PathsOf;
    PathsAreGood(job.entry, env, ids);
    CompressedUnsafe(d, job.entry, job.plan, PathsOf(job.entry, env), env.now, ids);
  }

  // ---------- one pass ----------

  /** A pass goes through safe states only, exactly when it promotes no unclosed stream. */
  lemma {:induction false} PassSafe(d0: Disk, d: Disk, jobs: seq<Job>, env: Env, ids: Dirs)
    requires Safe(d, ids) && GoodDirs(ids) && InRange(env.now)
    requires forall k | 0 <= k < |jobs| :: GoodJob(jobs[k], ids)
    ensures (forall s | s in PassFrom(d0, d, jobs, env).states :: Safe(s, ids)) <==>
            (forall k | 0 <= k < |jobs| && Reached(jobs, k) :: !UnclosedJob(d0, jobs[k], env))
    decreases |jobs|
  {
    hide Safe, GoodDirs, UnclosedJob, GoodJob, JobRun, AllProgress, SameOutside;
    if jobs != [] && !jobs[0].plan.cancelled {
      var r := JobRun(d0, d, jobs[0], env);
      var e := End(d, r.states);
      var rest := PassFrom(d0, e, jobs[1..], env);
      assert PassFrom(d0, d, jobs, env).states == r.states + rest.states;
      assert Reached(jobs, 0);
      if UnclosedJob(d0, jobs[0], env) {
        JobUnsafe(d0, d, jobs[0], env, ids);
        assert e in r.states + rest.states;
      } else {
        JobSafe(d0, d, jobs[0], env, ids);
        EndOfSteps(d, r.states, ids, PathsOf(jobs[0].entry, env).All());
        PassSafe(d0, e, jobs[1..], env, ids);
        ReachedTail(jobs);
        assert forall s | s in rest.states :: s in r.states + rest.states;
        assert forall k | 0 < k < |jobs| :: jobs[k] == jobs[1..][k - 1];
        assert forall k | 0 <= k < |jobs[1..]| ::
            jobs[1..][k] == jobs[k + 1] && (Reached(jobs[1..], k) <==> Reached(jobs, k + 1));
      }
    }
  }

  lemma ReachedTail(jobs: seq<Job>)
    requires jobs != [] && !jobs[0].plan.cancelled
    ensures forall k | 0 <= k < |jobs| - 1 :: Reached(jobs[1..], k) <==> Reached(jobs, k + 1)
  {
    forall k | 0 <= k < |jobs| - 1
      ensures Reached(jobs[1..], k) <==> Reached(jobs, k + 1)
    {
      assert forall i | 0 < i <= k + 1 :: jobs[i] == jobs[1..][i - 1];
      assert forall i | 0 <= i <= k :: jobs[1..][i] == jobs[i + 1];
    }
  }

  // ---------- what a pass adds ----------

  /** The link holds the snapshot this job took, and that snapshot has its own name. */
  ghost predicate LinkedBy(s: Disk, q: Path, job: Job, env: Env)
    requires InRange(env.now)
  {
    && !job.entry.compression && q == PathsOf(job.entry, env).latest
    && s.Read(q) == Some(Complete(Stamped(job.entry, env.now)))
    && s.At(PathsOf(job.entry, env).final).Some?
  }

  ghost predicate LinkMoved(d0: Disk, s: Disk, q: Path, jobs: seq<Job>, env: Env)
    requires InRange(env.now)
  {
    exists job | job in jobs :: Starts(d0, job, env) && LinkedBy(s, q, job, env)
  }

  /** From `d` to `s`: links stay or move to a snapshot of a started job, and snapshots stay. */
  ghost predicate Grows(d0: Disk, d: Disk, s: Disk, jobs: seq<Job>, env: Env, ids: Dirs)
    requires InRange(env.now)
  {
    && (forall q: Path | IsLatest(q.name, ids(q.dir)) :: s.At(q) == d.At(q) || LinkMoved(d0, s, q, jobs, env))
    && (forall q: Path | Accepted(q.name, ids(q.dir)) && d.At(q).Some? :: s.At(q).Some?)
  }

  lemma OnlyOwnNames(p: CyclePaths, f: BackupFile, ids: Dirs, q: Path)
    requires GoodPaths(p, f, ids) && q in p.All()
    ensures IsLatest(q.name, ids(q.dir)) ==> q == p.latest
    ensures Accepted(q.name, ids(q.dir)) ==> q == p.final
  {
    hide Parse;
  }

  lemma JobGrows(d0: Disk, d: Disk, job: Job, env: Env, ids: Dirs, s: Disk)
    requires Safe(d, ids) && GoodDirs(ids) && GoodJob(job, ids) && InRange(env.now)
    requires !UnclosedJob(d0, job, env) && s in JobRun(d0, d, job, env).states
    ensures Safe(s, ids) && Grows(d0, d, s, [job], env, ids)
  {
    hide Safe, GoodDirs, UnclosedJob, GoodJob, FileRun, Accepted, IsLatest, GoodPaths, PathsOf, Due;
    JobSafe(d0, d, job, env, ids);
    var p, f := PathsOf(job.entry, env), Stamped(job.entry, env.now);
    assert Starts(d0, job, env) && job in [job];
    StartedIsGood(d0, job, env, ids);
    PathsAreGood(job.entry, env, ids);
    assert Progress(d, s, p, f);
    forall q: Path | IsLatest(q.name, ids(q.dir))
      ensures s.At(q) == d.At(q) || LinkMoved(d0, s, q, [job], env)
    {
      if q in p.All() {
        OnlyOwnNames(p, f, ids, q);
        if s.At(q) != d.At(q) { assert LinkedBy(s, q, job, env); }
      } else {
        Outside(d, s, p.All(), q);
      }
    }
    forall q: Path | Accepted(q.name, ids(q.dir)) && d.At(q).Some?
      ensures s.At(q).Some?
    {
      if q in p.All() {
        OnlyOwnNames(p, f, ids, q);
      } else {
        Outside(d, s, p.All(), q);
      }
    }
  }

  lemma StartedIsGood(d0: Disk, job: Job, env: Env, ids: Dirs)
    requires GoodJob(job, ids) && Starts(d0, job, env)
    ensures KnownEntry(job.entry, ids)
  {
  }

  lemma GrowsTrans(d0: Disk, d: Disk, e: Disk, s: Disk, a: seq<Job>, b: seq<Job>, jobs: seq<Job>, env: Env, ids: Dirs)
    requires InRange(env.now) && GoodDirs(ids)
    requires Grows(d0, d, e, a, env, ids) && Grows(d0, e, s, b, env, ids)
    requires forall j | j in a || j in b :: j in jobs
    requires forall j | j in jobs :: GoodJob(j, ids)
    ensures Grows(d0, d, s, jobs, env, ids)
  {
    hide GoodDirs, Starts, Accepted, IsLatest, PathsOf, Complete, GoodJob;
    forall q: Path | IsLatest(q.name, ids(q.dir)) && s.At(q) != d.At(q)
      ensures LinkMoved(d0, s, q, jobs, env)
    {
      if s.At(q) == e.At(q) {
        var job :| job in a && Starts(d0, job, env) && LinkedBy(e, q, job, env);
        StartedIsGood(d0, job, env, ids);
        PathsAreGood(job.entry, env, ids);
        FinalIsAccepted(PathsOf(job.entry, env), Stamped(job.entry, env.now), ids);
        assert LinkedBy(s, q, job, env);
      }
    }
  }

  /** A pass is safe and only adds, whatever it skips and wherever it fails. */
  lemma {:induction false} PassGrows(d0: Disk, d: Disk, jobs: seq<Job>, env: Env, ids: Dirs, s: Disk)
    requires Safe(d, ids) && GoodDirs(ids) && InRange(env.now)
    requires forall j | j in jobs :: GoodJob(j, ids) && !UnclosedJob(d0, j, env)
    requires s in PassFrom(d0, d, jobs, env).states
    ensures Safe(s, ids) && Grows(d0, d, s, jobs, env, ids)
    decreases |jobs|
  {
    hide Safe, GoodDirs, UnclosedJob, GoodJob, JobRun, Grows, AllProgress, SameOutside;
    var r := JobRun(d0, d, jobs[0], env);
    if s in r.states {
      JobGrows(d0, d, jobs[0], env, ids, s);
      SelfGrows(d0, d, env, ids);
      GrowsTrans(d0, d, d, s, [], [jobs[0]], jobs, env, ids);
    } else {
      var e := End(d, r.states);
      JobEndGrows(d0, d, jobs[0], env, ids);
      PassGrows(d0, e, jobs[1..], env, ids, s);
      GrowsTrans(d0, d, e, s, [jobs[0]], jobs[1..], jobs, env, ids);
    }
  }

  lemma SelfGrows(d0: Disk, d: Disk, env: Env, ids: Dirs)
    requires InRange(env.now)
    ensures Grows(d0, d, d, [], env, ids)
  {
  }

  lemma JobEndGrows(d0: Disk, d: Disk, job: Job, env: Env, ids: Dirs)
    requires Safe(d, ids) && GoodDirs(ids) && GoodJob(job, ids) && InRange(env.now)
    requires !UnclosedJob(d0, job, env)
    ensures var e := End(d, JobRun(d0, d, job, env).states);
            Safe(e, ids) && Grows(d0, d, e, [job], env, ids)
  {
    hide Safe, GoodDirs, UnclosedJob, GoodJob, JobRun;
    var r := JobRun(d0, d, job, env);
    if r.states != [] {
      JobGrows(d0, d, job, env, ids, End(d, r.states));
    }
  }

  /** A cancelled context ends the pass at an entry boundary: it is the pass over the
      entries before it. */
  lemma {:induction false} CancelledPassIsPrefix(d0: Disk, d: Disk, jobs: seq<Job>, env: Env, k: nat)
    requires InRange(env.now) && k < |jobs| && jobs[k].plan.cancelled
    requires forall i | 0 <= i < k :: !jobs[i].plan.cancelled
    ensures var cut, before := PassFrom(d0, d, jobs, env), PassFrom(d0, d, jobs[..k], env);
            cut.aborted && !before.aborted && cut.states == before.states && cut.failed == before.failed
    decreases k
  {
    hide JobRun;
    if k > 0 {
      assert jobs[..k][0] == jobs[0] && jobs[..k][1..] == jobs[1..][..k - 1];
      CancelledPassIsPrefix(d0, End(d, JobRun(d0, d, jobs[0], env).states), jobs[1..], env, k - 1);
    }
  }
}
