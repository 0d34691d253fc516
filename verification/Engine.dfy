/** The snapshot engine step by step: a volume that is changed in place, and the methods
    of `Engine` over it. Each method leaves exactly the trail of disk states that the
    cycle and pass functions describe, so what is proved of those holds of the code. */
module Engine {
  import opened Text
  import opened Calendar
  import opened BackupName
  import opened FileSystem
  import opened Cycle
  import opened Scan
  import opened CrashSafety
  import opened Runs

  /** The mounted file system. `trail` is every state it has gone through. */
  class Volume {
    var disk: Disk
    ghost var trail: seq<Disk>

    constructor (d: Disk)
      ensures disk == d && trail == []
    {
      disk := d;
      trail := [];
    }

    method Create(p: Path)
      modifies this
      ensures disk == Open(old(disk), p) && trail == old(trail) + [disk]
    {
      disk := Open(disk, p);
      trail := trail + [disk];
    }

    method Fill(p: Path, c: Content)
      requires p in disk.names
      modifies this
      ensures disk == Write(old(disk), p, c) && trail == old(trail) + [disk]
    {
      disk := Write(disk, p, c);
      trail := trail + [disk];
    }

    method Unlink(p: Path, works: bool)
      modifies this
      ensures disk == RemoveIf(old(disk), p, works) && trail == old(trail) + [disk]
    {
      if works { disk := Remove(disk, p); }
      trail := trail + [disk];
    }

    method HardLink(src: Path, dst: Path, works: bool) returns (ok: bool)
      modifies this
      ensures ok == (works && Link(old(disk), src, dst).1)
      ensures ok ==> disk == Link(old(disk), src, dst).0 && trail == old(trail) + [disk]
      ensures !ok ==> disk == old(disk) && trail == old(trail)
    {
      ok := works && src in disk.names && dst !in disk.names;
      if ok {
        disk := disk.(names := disk.names[dst := disk.names[src]]);
        trail := trail + [disk];
      }
    }

    method Move(src: Path, dst: Path, works: bool) returns (ok: bool)
      modifies this
      ensures ok == (works && Rename(old(disk), src, dst).1)
      ensures ok ==> disk == Rename(old(disk), src, dst).0 && trail == old(trail) + [disk]
      ensures !ok ==> disk == old(disk) && trail == old(trail)
    {
      ok := works && src in disk.names;
      if ok {
        if !(dst in disk.names && disk.names[dst] == disk.names[src]) {
          var i := disk.names[src];
          disk := Remove(disk, src);
          disk := disk.(names := disk.names[dst := i]);
        }
        trail := trail + [disk];
      }
    }

    method ReadDir(dir: string) returns (listing: seq<DirEntry>)
      ensures Lists(listing, disk, dir)
    {
      listing := [];
      var todo := disk.names.Keys;
      while todo != {}
        invariant todo <= disk.names.Keys
        invariant forall p: Path | p.dir == dir ::
                    (p in disk.names && p !in todo) <==> DirEntry(p.name, false) in listing
      {
        var p :| p in todo;
        if p.dir == dir { listing := listing + [DirEntry(p.name, false)]; }
        todo := todo - {p};
      }
    }
  }

  /** `latest[backupID].time`: the zero time when the map has no entry. */
  function Recorded(latest: map<string, BackupFile>, e: Entry): Time {
    if e.Id() in latest then latest[e.Id()].time else 0
  }

  class SnapshotEngine {
    const vol: Volume

    constructor (v: Volume)
      ensures vol == v
    {
      vol := v;
    }

    /** `Strategy.Copy`, as far as the file system sees it. */
    method Copy(p: Path, c: Content, outcome: CopyOutcome) returns (ok: bool)
      modifies vol
      ensures var r := CopyRun(old(vol.disk), p, c, outcome);
              && ok == r.ok && vol.disk == End(old(vol.disk), r.states) && vol.trail == old(vol.trail) + r.states
    {
      if outcome == Refused { return false; }
      vol.Create(p);
      if outcome == Broken { return false; }
      vol.Fill(p, c);
      return true;
    }

    method CompressFile(src: Path, dst: Path, outcome: ZipOutcome) returns (ok: bool)
      modifies vol
      ensures var r := ZipRun(old(vol.disk), src, dst, outcome);
              && ok == r.ok && vol.disk == End(old(vol.disk), r.states) && vol.trail == old(vol.trail) + r.states
    {
      var source := vol.disk.Read(src);
      if source == None || outcome == NoFile { return false; }
      vol.Create(dst);
      if outcome == ZipBroken { return false; }
      // the deferred closes run last; their errors are logged and forgotten
      vol.Fill(dst, if outcome.closed then Gzip(source.value) else Partial);
      return true;
    }

    method LinkLatest(p: CyclePaths, plan: Plan) returns (ok: bool)
      modifies vol
      ensures var r := LinkRun(old(vol.disk), p, plan);
              && ok == r.ok && vol.disk == End(old(vol.disk), r.states) && vol.trail == old(vol.trail) + r.states
    {
      hide Rename, Link, RemoveIf;
      vol.Unlink(p.latestTmp, plan.rmLatestTmp);
      var linked := vol.HardLink(p.final, p.latestTmp, plan.link);
      if !linked { return false; }
      ok := vol.Move(p.latestTmp, p.latest, plan.relink);
    }

    method Promote(p: CyclePaths, plan: Plan) returns (ok: bool)
      modifies vol
      ensures var r := PromoteRun(old(vol.disk), p, plan);
              && ok == r.ok && vol.disk == End(old(vol.disk), r.states) && vol.trail == old(vol.trail) + r.states
    {
      hide Rename, RemoveIf;
      ok := vol.Move(p.stage, p.final, plan.rename);
      if !ok { vol.Unlink(p.stage, plan.rmStage); }
    }

    method HandleUncompressed(e: Entry, plan: Plan, env: Env) returns (ok: bool)
      requires InRange(env.now) && !e.compression
      modifies vol
      ensures var r := UncompressedRun(old(vol.disk), e, plan, PathsOf(e, env), env.now);
              && ok == r.ok && vol.disk == End(old(vol.disk), r.states) && vol.trail == old(vol.trail) + r.states
    {
      hide PathsOf, CopyRun, PromoteRun, LinkRun, RemoveIf, InRange, Truncate, BackupId, Base;
      var p := PathsOf(e, env);
      ghost var d := vol.disk;
      var copied := Copy(p.stage, Snapshot(e.Id(), Truncate(env.now)), plan.copy);
      ghost var r := CopyRun(d, p.stage, Snapshot(e.Id(), Truncate(env.now)), plan.copy);
      ghost var d1 := vol.disk;
      if !copied {
        vol.Unlink(p.stage, plan.rmStage);
        EndOfAppend(d, r.states, [vol.disk]);
        return false;
      }
      var promoted := Promote(p, plan);
      ghost var r' := PromoteRun(d1, p, plan);
      EndOfAppend(d, r.states, r'.states);
      if !promoted { return false; }
      ok := LinkLatest(p, plan);
      EndOfAppend(d, r.states + r'.states, LinkRun(End(d1, r'.states), p, plan).states);
    }

    method HandleCompressed(e: Entry, plan: Plan, env: Env) returns (ok: bool)
      requires InRange(env.now) && e.compression
      modifies vol
      ensures var r := CompressedRun(old(vol.disk), e, plan, PathsOf(e, env), env.now);
              && ok == r.ok && vol.disk == End(old(vol.disk), r.states) && vol.trail == old(vol.trail) + r.states
    {
      hide PathsOf, CopyRun, ZipRun, PromoteRun, RemoveIf, InRange, Truncate, BackupId, Base;
      var p := PathsOf(e, env);
      ghost var d := vol.disk;
      var copied := Copy(p.temp, Snapshot(e.Id(), Truncate(env.now)), plan.copy);
      ghost var r := CopyRun(d, p.temp, Snapshot(e.Id(), Truncate(env.now)), plan.copy);
      ghost var d1 := vol.disk;
      if !copied {
        vol.Unlink(p.temp, plan.rmTemp);
        EndOfAppend(d, r.states, [vol.disk]);
        return false;
      }
      var zipped := CompressFile(p.temp, p.stage, plan.zip);
      ghost var z := ZipRun(d1, p.temp, p.stage, plan.zip);
      vol.Unlink(p.temp, plan.rmTemp);
      ghost var d3 := vol.disk;
      ghost var soFar := r.states + (z.states + [d3]);
      assert vol.trail == old(vol.trail) + soFar;
      EndOfAppend(d1, z.states, [d3]);
      EndOfAppend(d, r.states, z.states + [d3]);
      if !zipped {
        vol.Unlink(p.stage, plan.rmStage);
        EndOfAppend(d, soFar, [vol.disk]);
        return false;
      }
      ok := Promote(p, plan);
      EndOfAppend(d, soFar, PromoteRun(d3, p, plan).states);
    }

    /** `handle`: one pass over the entries in the order given. `failed` are the IDs whose
        errors are joined; a cancelled context ends the pass. */
    method Handle(jobs: seq<Job>, env: Env) returns (failed: seq<string>, aborted: bool)
      requires InRange(env.now) && env.entries == EntriesOf(jobs)
      modifies vol
      ensures var pass := Pass(old(vol.disk), jobs, env);
              && vol.disk == End(old(vol.disk), pass.states) && vol.trail == old(vol.trail) + pass.states
              && failed == pass.failed && aborted == pass.aborted
    {
      hide PathsOf, JobRun, Due, BackupId, Base, PassFrom, Recorded;
      ghost var d0 := vol.disk;
      var latest := LatestForJobs(jobs, env);
      failed, aborted := [], false;
      ghost var done: seq<Disk> := [];
      for i := 0 to |jobs|
        invariant vol.trail == old(vol.trail) + done && vol.disk == End(d0, done)
        invariant !aborted
        invariant var rest, pass := PassFrom(d0, vol.disk, jobs[i..], env), PassFrom(d0, d0, jobs, env);
                  && pass.states == done + rest.states && pass.failed == failed + rest.failed
                    && pass.aborted == rest.aborted
      {
        assert jobs[i..][0] == jobs[i] && jobs[i..][1..] == jobs[i + 1..];
        ghost var d := vol.disk;
        if jobs[i].plan.cancelled {
          PassCancelled(d0, d, jobs[i..], env);
          aborted := true;
          return;
        }
        PassUnfold(d0, d, jobs[i..], env);
        var ok := HandleEntry(jobs[i], env, Recorded(latest, jobs[i].entry), d0);
        ghost var r := JobRun(d0, d, jobs[i], env);
        EndOfAppend(d0, done, r.states);
        done := done + r.states;
        if !ok { failed := failed + [jobs[i].entry.Id()]; }
      }
      assert jobs[|jobs|..] == [];
      PassEmpty(d0, vol.disk, env);
    }

    /** The scan at the start of the pass, ready for every due check of the loop. */
    method LatestForJobs(jobs: seq<Job>, env: Env) returns (latest: map<string, BackupFile>)
      requires env.entries == EntriesOf(jobs)
      ensures forall k | 0 <= k < |jobs| && jobs[k].entry.Active() ::
                Due(vol.disk, jobs[k].entry, env) <==>
                IsBackupDue(Recorded(latest, jobs[k].entry), jobs[k].entry.frequency, env.now)
    {
      hide Due, BackupId, Base, Newest, Lists, Records;
      var entries := seq(|jobs|, i requires 0 <= i < |jobs| => jobs[i].entry);
      SameEntries(jobs, entries);
      var listings := ReadDirs(entries, env.unreadable);
      latest := LatestBackupFiles(entries, listings);
      forall k | 0 <= k < |jobs| && jobs[k].entry.Active()
        ensures Due(vol.disk, jobs[k].entry, env) <==>
                IsBackupDue(Recorded(latest, jobs[k].entry), jobs[k].entry.frequency, env.now)
      {
        assert entries[k] == jobs[k].entry && entries[k] in entries;
        DueFromMap(vol.disk, jobs[k].entry, env, entries, listings, latest);
      }
    }

    /** One turn of the loop: skip the entry, report a failed check, or copy it. */
    method HandleEntry(job: Job, env: Env, recorded: Time, ghost d0: Disk) returns (ok: bool)
      requires InRange(env.now)
      requires job.entry.Active() ==> (Due(d0, job.entry, env) <==> IsBackupDue(recorded, job.entry.frequency, env.now))
      modifies vol
      ensures var r := JobRun(d0, old(vol.disk), job, env);
              && ok == r.ok && vol.disk == End(old(vol.disk), r.states) && vol.trail == old(vol.trail) + r.states
    {
      hide PathsOf, JobRun, Due, BackupId, Base, FileRun;
      var e := job.entry;
      SkipOrRun(d0, vol.disk, job, env);
      if e.source == "" || e.dest == "" { return true; }
      if !IsBackupDue(recorded, e.frequency, env.now) { return true; }
      if !job.plan.destIsDir || !job.plan.sourceIsFile || !job.plan.connects { return false; }
      ok := HandleFile(job, env);
    }

    method HandleFile(job: Job, env: Env) returns (ok: bool)
      requires InRange(env.now)
      modifies vol
      ensures var r := FileRun(old(vol.disk), job, env);
              && ok == r.ok && vol.disk == End(old(vol.disk), r.states) && vol.trail == old(vol.trail) + r.states
    {
      hide PathsOf, UncompressedRun, CompressedRun;
      if job.entry.compression {
        ok := HandleCompressed(job.entry, job.plan, env);
      } else {
        ok := HandleUncompressed(job.entry, job.plan, env);
      }
    }

    /** The directory reads at the start of a pass. */
    method ReadDirs(entries: seq<Entry>, unreadable: set<string>) returns (listings: map<string, seq<DirEntry>>)
      ensures forall e | e in entries && e.Active() && e.dest !in unreadable :: e.dest in listings
      ensures forall dir | dir in listings :: dir !in unreadable && Lists(listings[dir], vol.disk, dir)
    {
      hide Lists;
      listings := map[];
      for i := 0 to |entries|
        invariant forall e | e in entries[..i] && e.Active() && e.dest !in unreadable :: e.dest in listings
        invariant forall dir | dir in listings :: dir !in unreadable && Lists(listings[dir], vol.disk, dir)
      {
        var e := entries[i];
        if e.Active() && e.dest !in unreadable && e.dest !in listings {
          var listing := vol.ReadDir(e.dest);
          listings := listings[e.dest := listing];
        }
      }
    }
  }

  /** One turn of the loop, by the checks that decide it. */
  lemma SkipOrRun(d0: Disk, d: Disk, job: Job, env: Env)
    requires InRange(env.now)
    ensures var r := JobRun(d0, d, job, env);
            && (!job.entry.Active() || !Due(d0, job.entry, env) ==> r == Run([], true))
            && (job.entry.Active() && Due(d0, job.entry, env) ==>
                  r == if job.plan.destIsDir && job.plan.sourceIsFile && job.plan.connects then FileRun(d, job, env)
                       else Run([], false))
  {
    hide Due, FileRun;
  }

  lemma PassEmpty(d0: Disk, d: Disk, env: Env)
    requires InRange(env.now)
    ensures PassFrom(d0, d, [], env) == PassRun([], [], false)
  {
  }

  lemma PassCancelled(d0: Disk, d: Disk, jobs: seq<Job>, env: Env)
    requires InRange(env.now) && jobs != [] && jobs[0].plan.cancelled
    ensures PassFrom(d0, d, jobs, env) == PassRun([], [], true)
  {
  }

  lemma PassUnfold(d0: Disk, d: Disk, jobs: seq<Job>, env: Env)
    requires InRange(env.now) && jobs != [] && !jobs[0].plan.cancelled
    ensures var r := JobRun(d0, d, jobs[0], env);
            var whole, rest := PassFrom(d0, d, jobs, env), PassFrom(d0, End(d, r.states), jobs[1..], env);
            && whole.states == r.states + rest.states && whole.aborted == rest.aborted
            && whole.failed == (if r.ok then [] else [jobs[0].entry.Id()]) + rest.failed
  {
    hide JobRun;
  }

  lemma SameEntries(jobs: seq<Job>, entries: seq<Entry>)
    requires entries == seq(|jobs|, i requires 0 <= i < |jobs| => jobs[i].entry)
    ensures forall e :: e in entries <==> e in EntriesOf(jobs)
  {
    forall e | e in EntriesOf(jobs)
      ensures e in entries
    {
      var j :| j in jobs && j.entry == e;
      var i :| 0 <= i < |jobs| && jobs[i] == j;
      assert entries[i] == e;
    }
  }

  /** What a directory's scan finds is what the disk holds there. */
  lemma FoundIsHeld(d0: Disk, env: Env, entries: seq<Entry>, listings: map<string, seq<DirEntry>>, dir: string,
                    id: string)
    requires forall x :: x in entries <==> x in env.entries
    requires forall x | x in entries && x.Active() && x.dest !in env.unreadable :: x.dest in listings
    requires forall x | x in listings :: x !in env.unreadable && Lists(listings[x], d0, x)
    ensures Found(entries, listings, dir, id) <==> Holds(d0, env, dir, id)
  {
    hide Newest, BackupId, Base, Counts, Lists;
    if dir in listings { DueByNewest(d0, dir, id, 0, 0, listings[dir]); }
  }

  lemma DueFromMap(d0: Disk, e: Entry, env: Env, entries: seq<Entry>, listings: map<string, seq<DirEntry>>,
                   latest: map<string, BackupFile>)
    requires forall x :: x in entries <==> x in env.entries
    requires forall x | x in entries && x.Active() && x.dest !in env.unreadable :: x.dest in listings
    requires forall x | x in listings :: x !in env.unreadable && Lists(listings[x], d0, x)
    requires Records(entries, listings, listings.Keys, latest)
    ensures Due(d0, e, env) <==> IsBackupDue(Recorded(latest, e), e.frequency, env.now)
  {
    hide Newest, BackupId, Base, Lists, Found, Holds, AllOld, LexLess;
    var id := e.Id();
    forall dir
      ensures Found(entries, listings, dir, id) <==> Holds(d0, env, dir, id)
      ensures Holds(d0, env, dir, id) ==> dir in listings
    {
      FoundIsHeld(d0, env, entries, listings, dir, id);
      FoundIsListed(entries, listings, dir, id);
    }
    if id in latest {
      var dir :| LastFound(entries, listings, listings.Keys, dir, id)
        && Some(latest[id]) == NewestIn(listings, dir, id);
      assert Decides(d0, env, dir, id);
      DueByNewest(d0, dir, id, e.frequency, env.now, listings[dir]);
      forall other | Decides(d0, env, other, id)
        ensures other == dir
      {
        if other != dir { LexAntisymmetric(other, dir); }
      }
    } else {
      assert forall dir :: !Holds(d0, env, dir, id);
    }
  }

  lemma FoundIsListed(entries: seq<Entry>, listings: map<string, seq<DirEntry>>, dir: string, id: string)
    ensures Found(entries, listings, dir, id) ==> dir in listings
  {
  }

  /** The headline of crash safety, for the code as it runs: from a safe disk, every state
      `Handle` goes through is safe, so any of them may be the last before a crash. */
  method SafePass(engine: SnapshotEngine, jobs: seq<Job>, env: Env, ghost ids: Dirs)
    returns (failed: seq<string>, aborted: bool)
    requires InRange(env.now) && env.entries == EntriesOf(jobs)
    requires Safe(engine.vol.disk, ids) && GoodDirs(ids)
    requires forall j | j in jobs :: GoodJob(j, ids) && !(j.entry.compression && Unclosed(j.plan))
    modifies engine.vol
    ensures old(engine.vol.trail) <= engine.vol.trail
    ensures forall k | |old(engine.vol.trail)| <= k < |engine.vol.trail| :: Safe(engine.vol.trail[k], ids)
    ensures Safe(engine.vol.disk, ids)
  {
    hide Safe, GoodDirs, GoodJob, Unclosed, Starts, PassFrom, Grows;
    ghost var d := engine.vol.disk;
    failed, aborted := engine.Handle(jobs, env);
    ghost var states := Pass(d, jobs, env).states;
    forall s | s in states
      ensures Safe(s, ids)
    {
      assert forall j | j in jobs :: !UnclosedJob(d, j, env);
      PassGrows(d, d, jobs, env, ids, s);
    }
    assert forall k | 0 <= k < |states| :: engine.vol.trail[|old(engine.vol.trail)| + k] == states[k];
    assert states != [] ==> engine.vol.disk in states;
  }
}
