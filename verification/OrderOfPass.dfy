/** The pass as a whole: order independence, failure isolation, and what the latest link
    is after an error-free copy. */
module OrderOfPass {
  import opened Text
  import opened Calendar
  import opened BackupName
  import opened NameSpace
  import opened FileSystem
  import opened Cycle
  import opened CrashSafety
  import opened Runs
  import opened Tidiness
  import opened Order
  import opened Spacing

  lemma JobAgree(d0: Disk, d: Disk, e: Disk, job: Job, env: Env, ids: Dirs)
    requires Tidy(d, ids) && Tidy(e, ids) && GoodDirs(ids) && GoodJob(job, ids) && InRange(env.now)
    requires Agree(d, e, PathsOf(job.entry, env).All())
    ensures SameEnd(d, JobRun(d0, d, job, env), e, JobRun(d0, e, job, env), PathsOf(job.entry, env).All())
  {
    hide Tidy, GoodDirs, Due, UncompressedRun, CompressedRun, GoodPaths, Agree, PathsOf;
    if Starts(d0, job, env) {
      PathsAreGood(job.entry, env, ids);
      if job.entry.compression {
        CompressedAgree(d, e, job.entry, job.plan, PathsOf(job.entry, env), env.now, ids);
      } else {
        UncompressedAgree(d, e, job.entry, job.plan, PathsOf(job.entry, env), env.now, ids);
      }
    }
  }

  /** A started job's name. */
  ghost predicate Owns(d0: Disk, job: Job, env: Env, p: Path)
    requires InRange(env.now)
  {
    Starts(d0, job, env) && p in PathsOf(job.entry, env).All()
  }

  /** What the code relies on for two entries: different IDs, and in one directory no latest
      link that is the other's link staging name. */
  ghost predicate Apart(j: Job, k: Job) {
    j.entry.Active() && k.entry.Active() ==>
      && j.entry.Id() != k.entry.Id()
      && (j.entry.dest == k.entry.dest && !j.entry.compression && !k.entry.compression ==>
            j.entry.Id() != k.entry.Id() + TMP && k.entry.Id() != j.entry.Id() + TMP)
  }

  lemma ApartIds(j: Job, k: Job)
    requires Apart(j, k) && j.entry.Active() && k.entry.Active()
    ensures j.entry.Id() != k.entry.Id()
  {
    hide BackupId, Base;
  }

  lemma PathsApart(j: Job, k: Job, env: Env, ids: Dirs, p: Path)
    requires GoodDirs(ids) && GoodJob(j, ids) && GoodJob(k, ids) && InRange(env.now) && Apart(j, k)
    requires j.entry.Active() && k.entry.Active()
    ensures !(p in PathsOf(j.entry, env).All() && p in PathsOf(k.entry, env).All())
  {
    hide Render, TempName, LatestName, Staged, Parse, GoodId, BackupId;
    var f, g := FileOf(j.entry, env.now), FileOf(k.entry, env.now);
    assert GoodIds(ids(j.entry.dest)) && GoodIds(ids(k.entry.dest));
    if j.entry.dest == k.entry.dest {
      CyclesApart(f, g, p.name);
    } else {
      TempApart(f.id, f.time, g);
      TempApart(g.id, g.time, f);
      TempNamesApart(f.id, g.id, f.time);
    }
  }

  lemma OwnersApart(d0: Disk, j: Job, k: Job, env: Env, ids: Dirs, p: Path)
    requires GoodDirs(ids) && GoodJob(j, ids) && GoodJob(k, ids) && InRange(env.now) && Apart(j, k)
    ensures !(Owns(d0, j, env, p) && Owns(d0, k, env, p))
  {
    hide Due, PathsOf, GoodJob, GoodDirs, BackupId, Base, Apart;
    if Owns(d0, j, env, p) && Owns(d0, k, env, p) { PathsApart(j, k, env, ids, p); }
  }

  lemma JobOutside(d0: Disk, d: Disk, job: Job, env: Env, ids: Dirs, p: Path)
    requires Tidy(d, ids) && GoodDirs(ids) && GoodJob(job, ids) && InRange(env.now)
    ensures Tidy(End(d, JobRun(d0, d, job, env).states), ids)
    ensures !Owns(d0, job, env, p) ==> SameAt(d, End(d, JobRun(d0, d, job, env).states), p)
  {
    hide Tidy, GoodDirs, GoodJob, FileRun, PathsOf, Due;
    hide StaysTidy, SameOutside;
    JobTidy(d0, d, job, env, ids);
    EndTidy(d, JobRun(d0, d, job, env), ids, PathsOf(job.entry, env).All());
    if !Owns(d0, job, env, p) { OutsideJob(d0, d, job, env, p); }
  }

  lemma OutsideJob(d0: Disk, d: Disk, job: Job, env: Env, p: Path)
    requires InRange(env.now) && !Owns(d0, job, env, p)
    requires SameOutside(d, End(d, JobRun(d0, d, job, env).states), PathsOf(job.entry, env).All())
    ensures SameAt(d, End(d, JobRun(d0, d, job, env).states), p)
  {
    hide FileRun, PathsOf, Due;
  }

  /** The hypotheses on a pass: configured IDs, entries apart, no cancellation. */
  ghost predicate PlainPass(jobs: seq<Job>, env: Env, ids: Dirs) {
    && InRange(env.now) && GoodDirs(ids)
    && (forall k | 0 <= k < |jobs| :: GoodJob(jobs[k], ids) && !jobs[k].plan.cancelled)
    && (forall j, k | j in jobs && k in jobs && j != k :: Apart(j, k))
    && (forall j | j in jobs && j.entry.Active() :: multiset(jobs)[j] == 1)
  }

  lemma PlainPermuted(jobs: seq<Job>, others: seq<Job>, env: Env, ids: Dirs)
    requires PlainPass(jobs, env, ids) && multiset(jobs) == multiset(others)
    ensures PlainPass(others, env, ids)
  {
    hide GoodDirs, GoodJob, Apart;
    SameMembers(jobs, others);
    assert forall k | 0 <= k < |others| :: others[k] in others;
    assert forall j | j in jobs :: GoodJob(j, ids) && !j.plan.cancelled;
  }

  lemma PlainTail(jobs: seq<Job>, env: Env, ids: Dirs)
    requires PlainPass(jobs, env, ids) && jobs != []
    ensures PlainPass(jobs[1..], env, ids)
    ensures GoodJob(jobs[0], ids) && !jobs[0].plan.cancelled && GoodDirs(ids)
    ensures forall j | j in jobs[1..] :: Apart(jobs[0], j) && Apart(j, jobs[0])
    ensures forall j | j in jobs :: GoodJob(j, ids)
  {
    hide GoodJob, GoodDirs, BackupId, Base;
    var head, tail := jobs[0], jobs[1..];
    assert jobs == [head] + tail;
    assert multiset(jobs) == multiset{head} + multiset(tail);
    forall j | j in tail
      ensures j in jobs && (j.entry.Active() ==> multiset(tail)[j] == 1)
      ensures Apart(head, j) && Apart(j, head)
    {
      assert multiset(tail)[j] >= 1;
      if j == head { assert !head.entry.Active(); }
    }
  }

  /** One unfolding of the loop, on the final disk. */
  lemma PassStep(d0: Disk, d: Disk, jobs: seq<Job>, env: Env)
    requires InRange(env.now) && jobs != [] && !jobs[0].plan.cancelled
    ensures var r := JobRun(d0, d, jobs[0], env);
            var e := End(d, r.states);
            var whole, rest := PassFrom(d0, d, jobs, env), PassFrom(d0, e, jobs[1..], env);
            && End(d, whole.states) == End(e, rest.states)
            && whole.failed == (if r.ok then [] else [jobs[0].entry.Id()]) + rest.failed
  {
    hide JobRun;
    var r := JobRun(d0, d, jobs[0], env);
    EndOfAppend(d, r.states, PassFrom(d0, End(d, r.states), jobs[1..], env).states);
  }

  /** Nobody's name is left alone. */
  lemma {:induction false} PassOutside(d0: Disk, d: Disk, jobs: seq<Job>, env: Env, ids: Dirs, p: Path)
    requires Tidy(d, ids) && PlainPass(jobs, env, ids)
    requires forall j | j in jobs :: !Owns(d0, j, env, p)
    ensures SameAt(d, End(d, PassFrom(d0, d, jobs, env).states), p)
    ensures Tidy(End(d, PassFrom(d0, d, jobs, env).states), ids)
    decreases |jobs|
  {
    hide Tidy, PlainPass, GoodDirs, GoodJob, JobRun, Owns, PassFrom;
    PlainEnv(jobs, env, ids);
    if jobs == [] {
      EmptyPass(d0, d, env);
    } else {
      PlainTail(jobs, env, ids);
      PassStep(d0, d, jobs, env);
      JobOutside(d0, d, jobs[0], env, ids, p);
      PassOutside(d0, End(d, JobRun(d0, d, jobs[0], env).states), jobs[1..], env, ids, p);
    }
  }

  lemma PlainEnv(jobs: seq<Job>, env: Env, ids: Dirs)
    requires PlainPass(jobs, env, ids)
    ensures InRange(env.now) && GoodDirs(ids)
    ensures forall j | j in jobs :: GoodJob(j, ids) && !j.plan.cancelled
  {
    hide GoodDirs, GoodJob;
  }

  lemma EmptyPass(d0: Disk, d: Disk, env: Env)
    requires InRange(env.now)
    ensures PassFrom(d0, d, [], env) == PassRun([], [], false)
  {
  }

  lemma FailedAreMembers(d0: Disk, d: Disk, jobs: seq<Job>, env: Env, ids: Dirs, id: string)
    requires PlainPass(jobs, env, ids) && id in PassFrom(d0, d, jobs, env).failed
    ensures exists j | j in jobs :: j.entry.Active() && j.entry.Id() == id
    decreases |jobs|
  {
    hide PlainPass, GoodDirs, GoodJob, PassFrom;
    PlainEnv(jobs, env, ids);
    if jobs == [] {
      EmptyPass(d0, d, env);
    } else {
      PlainTail(jobs, env, ids);
      PassStep(d0, d, jobs, env);
      var r := JobRun(d0, d, jobs[0], env);
      if r.ok || id != jobs[0].entry.Id() {
        FailedAreMembers(d0, End(d, r.states), jobs[1..], env, ids, id);
      } else {
        FailsOnlyActive(d0, d, jobs[0], env);
        assert jobs[0] in jobs;
      }
    }
  }

  lemma FailsOnlyActive(d0: Disk, d: Disk, job: Job, env: Env)
    requires InRange(env.now) && !JobRun(d0, d, job, env).ok
    ensures job.entry.Active()
  {
  }

  /** Where an entry writes, and whether it fails, is decided by that entry alone: as if
      it ran first and by itself. */
  lemma {:induction false} PassLocal(d0: Disk, d: Disk, jobs: seq<Job>, env: Env, ids: Dirs, j: Job)
    requires Tidy(d, ids) && PlainPass(jobs, env, ids) && j in jobs && j.entry.Active()
    ensures InRange(env.now)
    ensures var whole, alone := PassFrom(d0, d, jobs, env), JobRun(d0, d, j, env);
            && (j.entry.Id() in whole.failed <==> !alone.ok)
            && forall p | Owns(d0, j, env, p) :: SameAt(End(d, whole.states), End(d, alone.states), p)
    decreases |jobs|
  {
    hide Tidy, PlainPass, GoodDirs, GoodJob, JobRun, Starts, PassFrom, PathsOf, BackupId, Apart;
    PlainEnv(jobs, env, ids);
    PlainTail(jobs, env, ids);
    PassStep(d0, d, jobs, env);
    var k := jobs[0];
    var r := JobRun(d0, d, k, env);
    var e := End(d, r.states);
    var rest := PassFrom(d0, e, jobs[1..], env);
    assert Tidy(e, ids) by { JobOutside(d0, d, k, env, ids, Path("", "")); }
    if k == j {
      if j.entry.Id() in rest.failed {
        FailedAreMembers(d0, e, jobs[1..], env, ids, j.entry.Id());
        var m :| m in jobs[1..] && m.entry.Active() && m.entry.Id() == j.entry.Id();
        ApartIds(j, m);
      }
      forall p | Owns(d0, j, env, p)
        ensures SameAt(End(d, PassFrom(d0, d, jobs, env).states), e, p)
      {
        forall m | m in jobs[1..]
          ensures !Owns(d0, m, env, p)
        {
          OwnersApart(d0, j, m, env, ids, p);
        }
        PassOutside(d0, e, jobs[1..], env, ids, p);
      }
    } else {
      assert j in jobs[1..];
      PassLocal(d0, e, jobs[1..], env, ids, j);
      SameElsewhere(d0, d, k, j, env, ids);
      if Starts(d0, j, env) {
        JobAgree(d0, d, e, j, env, ids);
      } else {
        NoRun(d0, d, e, j, env);
      }
      if !r.ok { FailsOnlyActive(d0, d, k, env); ApartIds(k, j); }
      assert j.entry.Id() in PassFrom(d0, d, jobs, env).failed <==> j.entry.Id() in rest.failed;
    }
  }

  lemma OwnersActive(d0: Disk, j: Job, env: Env, p: Path)
    requires InRange(env.now) && Owns(d0, j, env, p)
    ensures j.entry.Active()
  {
  }

  lemma NoRun(d0: Disk, d: Disk, e: Disk, job: Job, env: Env)
    requires InRange(env.now) && !Starts(d0, job, env)
    ensures JobRun(d0, d, job, env) == JobRun(d0, e, job, env) && JobRun(d0, d, job, env).states == []
  {
    hide Due;
  }

  /** Job k leaves the names of job j as they were. */
  lemma SameElsewhere(d0: Disk, d: Disk, k: Job, j: Job, env: Env, ids: Dirs)
    requires Tidy(d, ids) && GoodDirs(ids) && GoodJob(k, ids) && GoodJob(j, ids) && InRange(env.now)
    requires j.entry.Active() && Apart(j, k)
    ensures Starts(d0, j, env) ==> Agree(d, End(d, JobRun(d0, d, k, env).states), PathsOf(j.entry, env).All())
  {
    hide Tidy, GoodDirs, GoodJob, JobRun, PathsOf, BackupId, Starts, Apart;
    if Starts(d0, j, env) {
      forall p | p in PathsOf(j.entry, env).All()
        ensures SameAt(d, End(d, JobRun(d0, d, k, env).states), p)
      {
        assert Owns(d0, j, env, p);
        OwnersApart(d0, j, k, env, ids, p);
        JobOutside(d0, d, k, env, ids, p);
      }
    }
  }

  lemma PlainOneDir(jobs: seq<Job>, env: Env, ids: Dirs, j: Job)
    requires PlainPass(jobs, env, ids) && env.entries == EntriesOf(jobs) && j in jobs && j.entry.Active()
    ensures j.entry in env.entries && OnlyDir(env, j.entry.dest, j.entry.Id())
  {
    hide GoodDirs, GoodJob, BackupId, Base;
  }

  lemma StartedActive(d: Disk, j: Job, env: Env)
    requires Starts(d, j, env)
    ensures j.entry.Active()
  {
    hide Due;
  }

  /** An entry's own job does not depend on which other entries are configured. */
  lemma SameJob(d: Disk, j: Job, env: Env, env': Env)
    requires InRange(env.now) && env' == env.(entries := env'.entries) && j.entry.Active()
    requires j.entry in env.entries && OnlyDir(env, j.entry.dest, j.entry.Id())
    requires j.entry in env'.entries && OnlyDir(env', j.entry.dest, j.entry.Id())
    ensures Starts(d, j, env) == Starts(d, j, env') && PathsOf(j.entry, env) == PathsOf(j.entry, env')
    ensures JobRun(d, d, j, env) == JobRun(d, d, j, env')
  {
    hide Due, UncompressedRun, CompressedRun, Render, TempName, BackupId, Base;
    DueInOneDir(d, j.entry, env);
    DueInOneDir(d, j.entry, env');
  }

  /** Failure isolation: the outcome of an entry is the same in any two passes from the
      same disk that contain it, whatever the other entries are and however they fail. */
  lemma FailureIsolation(d: Disk, jobs: seq<Job>, others: seq<Job>, env: Env, env': Env, ids: Dirs, j: Job)
    requires Tidy(d, ids) && PlainPass(jobs, env, ids) && PlainPass(others, env', ids)
    requires env' == env.(entries := env'.entries) && env.entries == EntriesOf(jobs)
             && env'.entries == EntriesOf(others)
    requires j in jobs && j in others && j.entry.Active()
    ensures InRange(env.now)
    ensures j.entry.Id() in Pass(d, jobs, env).failed <==> j.entry.Id() in Pass(d, others, env').failed
    ensures forall p | Owns(d, j, env, p) ::
              SameAt(End(d, Pass(d, jobs, env).states), End(d, Pass(d, others, env').states), p)
  {
    hide Tidy, PlainPass, PassFrom, JobRun, PathsOf, Starts, OnlyDir;
    PlainEnv(jobs, env, ids);
    PlainOneDir(jobs, env, ids, j);
    PlainOneDir(others, env', ids, j);
    SameJob(d, j, env, env');
    PassLocal(d, d, jobs, env, ids, j);
    PassLocal(d, d, others, env', ids, j);
    var alone := End(d, JobRun(d, d, j, env).states);
    forall p | Owns(d, j, env, p)
      ensures SameAt(End(d, Pass(d, jobs, env).states), End(d, Pass(d, others, env').states), p)
    {
      assert Owns(d, j, env', p);
      assert SameAt(End(d, Pass(d, jobs, env).states), alone, p);
    }
  }

  /** Order independence: any permutation of the entries leaves the same names with the
      same inodes and contents everywhere, and reports the same failures. */
  lemma OrderIndependence(d: Disk, jobs: seq<Job>, others: seq<Job>, env: Env, ids: Dirs)
    requires Tidy(d, ids) && PlainPass(jobs, env, ids) && multiset(jobs) == multiset(others)
    requires env.entries == EntriesOf(jobs)
    ensures InRange(env.now)
    ensures forall p :: SameAt(End(d, Pass(d, jobs, env).states), End(d, Pass(d, others, env).states), p)
    ensures forall id :: id in Pass(d, jobs, env).failed <==> id in Pass(d, others, env).failed
  {
    hide Tidy, PlainPass, PassFrom, Owns, Starts;
    PlainEnv(jobs, env, ids);
    PlainPermuted(jobs, others, env, ids);
    var a, b := Pass(d, jobs, env), Pass(d, others, env);
    SameMembers(jobs, others);
    forall p
      ensures SameAt(End(d, a.states), End(d, b.states), p)
    {
      if j :| j in jobs && Owns(d, j, env, p) {
        OwnersActive(d, j, env, p);
        FailureIsolation(d, jobs, others, env, env, ids, j);
      } else {
        PassOutside(d, d, jobs, env, ids, p);
        PassOutside(d, d, others, env, ids, p);
      }
    }
    forall id
      ensures id in a.failed <==> id in b.failed
    {
      if id in a.failed {
        FailedAreMembers(d, d, jobs, env, ids, id);
        var j :| j in jobs && j.entry.Active() && j.entry.Id() == id;
        FailureIsolation(d, jobs, others, env, env, ids, j);
      } else if id in b.failed {
        FailedAreMembers(d, d, others, env, ids, id);
        var j :| j in others && j.entry.Active() && j.entry.Id() == id;
        FailureIsolation(d, jobs, others, env, env, ids, j);
      }
    }
  }

  lemma SameMembers<T>(a: seq<T>, b: seq<T>)
    requires multiset(a) == multiset(b)
    ensures forall x :: x in a <==> x in b
  {
    forall x
      ensures x in a <==> x in b
    {
      assert x in a <==> x in multiset(a);
      assert x in b <==> x in multiset(b);
    }
  }

  // ---------- the link after an error-free copy ----------

  lemma UncompressedResult(d: Disk, job: Job, env: Env, ids: Dirs)
    requires Safe(d, ids) && GoodDirs(ids) && GoodJob(job, ids) && InRange(env.now)
    requires Starts(d, job, env) && !job.entry.compression && JobRun(d, d, job, env).ok
    ensures var s, p := End(d, JobRun(d, d, job, env).states), PathsOf(job.entry, env);
            && s.At(p.latest) == s.At(p.final)
            && s.Read(p.final) == Some(Snapshot(job.entry.Id(), Truncate(env.now)))
  {
    hide Safe, GoodDirs, Due, UncompressedRun, CompressedRun, GoodPaths, PathsOf, AllProgress;
    PathsAreGood(job.entry, env, ids);
    UncompressedSafe(d, job.entry, job.plan, PathsOf(job.entry, env), env.now, ids);
  }

  lemma OwnsLink(d: Disk, j: Job, env: Env)
    requires InRange(env.now) && Starts(d, j, env) && !j.entry.compression
    ensures Owns(d, j, env, PathsOf(j.entry, env).latest) && Owns(d, j, env, PathsOf(j.entry, env).final)
  {
    hide Due, Render, TempName;
  }

  lemma NoLaterSnapshot(d: Disk, jobs: seq<Job>, env: Env, ids: Dirs, j: Job, q: Path)
    requires Tidy(d, ids) && PlainPass(jobs, env, ids) && Starts(d, j, env) && KnownEntry(j.entry, ids)
    requires j.entry.frequency >= 0 && j.entry.dest !in env.unreadable && InRange(env.now)
    requires j in jobs && env.entries == EntriesOf(jobs)
    requires Counts(End(d, Pass(d, jobs, env).states), q, j.entry.dest, j.entry.Id())
    ensures TimeOfName(q) <= Truncate(env.now)
  {
    hide Tidy, PlainPass, PassFrom, GoodDirs, GoodJob, Parse, Truncate, PathsOf, BackupId, Accepted, IsLatest;
    hide GoodPaths, Starts;
    PlainEnv(jobs, env, ids);
    var s := End(d, Pass(d, jobs, env).states);
    if k :| k in jobs && Owns(d, k, env, q) {
      StartedIsGood(d, k, env, ids);
      PathsAreGood(k.entry, env, ids);
      var p, f := PathsOf(k.entry, env), Stamped(k.entry, env.now);
      OnlyOwnNames(p, f, ids, q);
      FinalIsAccepted(p, f, ids);
      assert Accepted(q.name, ids(q.dir)) by { CountsIsAccepted(s, q, j.entry.dest, j.entry.Id(), ids); }
    } else {
      PassOutside(d, d, jobs, env, ids, q);
      TidyIsWF(s, ids);
      CountsThenPresent(s, q, j.entry.dest, j.entry.Id(), ids);
      assert SameAt(d, s, q);
      StartedActive(d, j, env);
      PlainOneDir(jobs, env, ids, j);
      StartedCountsOld(d, j, env, q);
    }
  }

  lemma CountsIsAccepted(d: Disk, p: Path, dir: string, id: string, ids: Dirs)
    requires Counts(d, p, dir, id) && id in ids(dir).all
    ensures Accepted(p.name, ids(p.dir))
  {
    hide Parse;
  }

  lemma NotLaterThanNow(p: Path, now: Time, f: Duration)
    requires Parse(p.name).Some? && f >= 0 && Sub(now, Parse(p.name).value.time) >= f
    ensures TimeOfName(p) <= Truncate(now)
  {
    hide Parse;
    ParseThenRender(p.name);
    var t := Parse(p.name).value.time;
    assert t == Truncate(t) && t <= now;
    assert t / SECOND <= now / SECOND;
  }

  /** After a pass in which an uncompressed entry was copied without error, its link is the
      inode of its new snapshot, and no snapshot of the ID in the directory is newer. */
  lemma LinkIsNewestSnapshot(d: Disk, jobs: seq<Job>, env: Env, ids: Dirs, j: Job)
    requires Safe(d, ids) && PlainPass(jobs, env, ids)
    requires j in jobs && Starts(d, j, env) && !j.entry.compression && InRange(env.now)
    requires j.entry.Id() !in Pass(d, jobs, env).failed
    requires j.entry.frequency >= 0 && j.entry.dest !in env.unreadable && env.entries == EntriesOf(jobs)
    ensures var s, p := End(d, Pass(d, jobs, env).states), PathsOf(j.entry, env);
            && s.At(p.latest).Some? && s.At(p.latest) == s.At(p.final)
            && s.Read(p.latest) == Some(Snapshot(j.entry.Id(), Truncate(env.now)))
            && forall q | Counts(s, q, j.entry.dest, j.entry.Id()) :: TimeOfName(q) <= Truncate(env.now)
  {
    hide Safe, Tidy, PlainPass, PassFrom, JobRun, GoodDirs, GoodJob, PathsOf, TimeOfName, Counts, Due, Truncate;
    SafeIsTidy(d, ids);
    PlainEnv(jobs, env, ids);
    PassLocal(d, d, jobs, env, ids, j);
    UncompressedResult(d, j, env, ids);
    var states, p := Pass(d, jobs, env).states, PathsOf(j.entry, env);
    var s, alone := End(d, states), End(d, JobRun(d, d, j, env).states);
    OwnsLink(d, j, env);
    assert SameAt(s, alone, p.latest) && SameAt(s, alone, p.final);
    StartedIsGood(d, j, env, ids);
    forall q | Counts(s, q, j.entry.dest, j.entry.Id())
      ensures TimeOfName(q) <= Truncate(env.now)
    {
      NoLaterSnapshot(d, jobs, env, ids, j, q);
    }
  }

  lemma StartedCountsOld(d: Disk, j: Job, env: Env, q: Path)
    requires Starts(d, j, env) && j.entry.dest !in env.unreadable && j.entry.frequency >= 0
    requires j.entry in env.entries && OnlyDir(env, j.entry.dest, j.entry.Id())
    requires Counts(d, q, j.entry.dest, j.entry.Id())
    ensures TimeOfName(q) <= Truncate(env.now)
  {
    hide Parse, Truncate, Due;
    StartedAfter(d, j, env, q);
    NotLaterThanNow(q, env.now, j.entry.frequency);
  }
}
