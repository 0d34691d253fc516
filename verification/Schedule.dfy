/** What holds over whole runs: safety, the latest link, and the spacing of snapshots. */
module Schedule {
  import opened Text
  import opened Calendar
  import opened BackupName
  import opened NameSpace
  import opened FileSystem
  import opened Cycle
  import opened CrashSafety
  import opened Runs

  /** A pass of which a crash lets the first `cut` steps through, or a file erased by
      somebody else. */
  datatype Event = PassEvent(jobs: seq<Job>, env: Env, cut: nat) | Erase(path: Path)

  /** Configured IDs, a clock the name can hold, and the entries of the pass. */
  ghost predicate GoodEvent(ev: Event, ids: Dirs) {
    match ev
    case Erase(_) => true
    case PassEvent(jobs, env, _) =>
      && InRange(env.now) && env.entries == EntriesOf(jobs)
      && forall j | j in jobs :: GoodJob(j, ids)
  }

  /** Every compressed stream is closed. */
  ghost predicate Closed(ev: Event) {
    ev.PassEvent? ==> forall j | j in ev.jobs :: !(j.entry.compression && Unclosed(j.plan))
  }

  ghost predicate GoodEvents(events: seq<Event>, ids: Dirs) {
    forall ev | ev in events :: GoodEvent(ev, ids)
  }

  ghost function StatesOf(d: Disk, ev: Event, ids: Dirs): seq<Disk>
    requires GoodEvent(ev, ids)
  {
    match ev
    case Erase(p) => [Remove(d, p)]
    case PassEvent(jobs, env, cut) =>
      var states := Pass(d, jobs, env).states;
      if cut < |states| then states[..cut] else states
  }

  /** Every state the disk is ever in. */
  ghost function Visited(d: Disk, events: seq<Event>, ids: Dirs): seq<Disk>
    requires GoodEvents(events, ids)
    decreases |events|
  {
    if events == [] then [d]
    else
      var states := StatesOf(d, events[0], ids);
      [d] + states + Visited(End(d, states), events[1..], ids)
  }

  lemma EventSafe(d: Disk, ev: Event, ids: Dirs)
    requires Safe(d, ids) && GoodDirs(ids) && GoodEvent(ev, ids) && Closed(ev)
    ensures forall s | s in StatesOf(d, ev, ids) :: Safe(s, ids)
    ensures Safe(End(d, StatesOf(d, ev, ids)), ids)
  {
    hide Safe, GoodDirs, GoodJob, Unclosed, Starts, PassFrom, Grows;
    match ev
    case Erase(p) => RemoveStep(d, p, ids);
    case PassEvent(jobs, env, cut) =>
      assert forall j | j in jobs :: !UnclosedJob(d, j, env);
      forall s | s in Pass(d, jobs, env).states
        ensures Safe(s, ids)
      {
        PassGrows(d, d, jobs, env, ids, s);
      }
  }

  /** Crash safety: whatever fails and wherever passes are cut off, every name the scan
      accepts is a complete snapshot and every latest link resolves to one. */
  lemma {:induction false} RunSafe(d: Disk, events: seq<Event>, ids: Dirs)
    requires Safe(d, ids) && GoodDirs(ids) && GoodEvents(events, ids) && forall ev | ev in events :: Closed(ev)
    ensures forall s | s in Visited(d, events, ids) :: Safe(s, ids)
    decreases |events|
  {
    hide Safe, GoodDirs, GoodEvent, StatesOf, Closed;
    if events != [] {
      EventSafe(d, events[0], ids);
      RunSafe(End(d, StatesOf(d, events[0], ids)), events[1..], ids);
    }
  }

  const NOTHING := Disk(map[], map[], map[])

  /** From an empty disk nothing else needs to be known. */
  lemma RunFromNothing(events: seq<Event>, ids: Dirs)
    requires GoodDirs(ids) && GoodEvents(events, ids) && forall ev | ev in events :: Closed(ev)
    ensures forall s | s in Visited(NOTHING, events, ids) :: Safe(s, ids)
  {
    hide GoodDirs, GoodEvents, Closed, Visited;
    RunSafe(NOTHING, events, ids);
  }

  /** The same, read off one file: the name alone tells what is in it. */
  lemma AcceptedFilesAreComplete(d: Disk, events: seq<Event>, ids: Dirs, s: Disk, p: Path)
    requires Safe(d, ids) && GoodDirs(ids) && GoodEvents(events, ids) && forall ev | ev in events :: Closed(ev)
    requires s in Visited(d, events, ids) && p in s.names
    ensures Parse(p.name).Some? && Parse(p.name).value.id in ids(p.dir).all ==>
              s.Read(p) == Some(Complete(Parse(p.name).value))
    ensures HasPrefix(p.name, LATEST) && p.name[|LATEST|..] in ids(p.dir).linked
            && !Contested(p.name[|LATEST|..], ids(p.dir)) ==>
              s.Read(p).Some? && s.Read(p).value.Snapshot? && s.Read(p).value.id == p.name[|LATEST|..]
  {
    hide Parse, GoodDirs, GoodEvents, StagingPrivate, Closed;
    RunSafe(d, events, ids);
    assert Safe(s, ids);
    if Parse(p.name).Some? && Parse(p.name).value.id in ids(p.dir).all { assert Accepted(p.name, ids(p.dir)); }
    if HasPrefix(p.name, LATEST) && p.name[|LATEST|..] in ids(p.dir).linked
      && !Contested(p.name[|LATEST|..], ids(p.dir)) { assert IsLatest(p.name, ids(p.dir)); }
  }

  // ---------- the latest link ----------

  function LinkTime(d: Disk, q: Path): Time {
    match d.Read(q) case Some(Snapshot(_, at)) => at case _ => 0
  }

  /** From s to t the link at q is not lost, and in timed runs its time does not go back. */
  ghost predicate NotBack(s: Disk, t: Disk, q: Path, timed: bool) {
    s.At(q).Some? ==> t.At(q).Some? && (timed ==> LinkTime(s, q) <= LinkTime(t, q))
  }

  ghost predicate Rising(d: Disk, states: seq<Disk>, q: Path, timed: bool) {
    && (forall s | s in states :: NotBack(d, s, q, timed))
    && (forall i, j | 0 <= i <= j < |states| :: NotBack(states[i], states[j], q, timed))
  }

  lemma RisingAppend(d: Disk, a: seq<Disk>, b: seq<Disk>, q: Path, timed: bool)
    requires Rising(d, a, q, timed) && Rising(End(d, a), b, q, timed)
    ensures Rising(d, a + b, q, timed)
  {
    hide LinkTime;
    var e, ab := End(d, a), a + b;
    assert a != [] ==> e in a;
    forall i, j | 0 <= i <= j < |ab|
      ensures NotBack(ab[i], ab[j], q, timed)
    {
      if j < |a| {
        assert NotBack(a[i], a[j], q, timed);
      } else if i >= |a| {
        assert NotBack(b[i - |a|], b[j - |a|], q, timed);
      } else {
        assert NotBack(a[i], a[|a| - 1], q, timed);
        assert b[j - |a|] in b && NotBack(e, b[j - |a|], q, timed);
      }
    }
    forall s | s in ab
      ensures NotBack(d, s, q, timed)
    {
      if s !in a { assert NotBack(e, s, q, timed) && NotBack(d, e, q, timed); }
    }
  }

  lemma RisingPrefix(d: Disk, states: seq<Disk>, cut: nat, q: Path, timed: bool)
    requires Rising(d, states, q, timed) && cut <= |states|
    ensures Rising(d, states[..cut], q, timed)
  {
    hide NotBack;
    assert forall i | 0 <= i < cut :: states[..cut][i] == states[i];
  }

  /** A started job that will refresh q takes a snapshot no older than what q holds. */
  ghost predicate Newer(d0: Disk, d: Disk, q: Path, jobs: seq<Job>, env: Env)
    requires InRange(env.now)
  {
    (d.At(q).Some? && exists j | j in jobs :: Starts(d0, j, env) && q == PathsOf(j.entry, env).latest) ==>
      LinkTime(d, q) <= Truncate(env.now)
  }

  lemma JobRising(d0: Disk, d: Disk, job: Job, env: Env, ids: Dirs, q: Path, timed: bool)
    requires Safe(d, ids) && GoodDirs(ids) && GoodJob(job, ids) && InRange(env.now) && IsLatest(q.name, ids(q.dir))
    requires !UnclosedJob(d0, job, env)
    requires timed ==> Newer(d0, d, q, [job], env)
    ensures var states := JobRun(d0, d, job, env).states;
            Rising(d, states, q, timed)
              && forall s | s in states :: s.At(q) == d.At(q) || LinkTime(s, q) == Truncate(env.now)
  {
    hide Safe, GoodDirs, UnclosedJob, GoodJob, FileRun, Accepted, IsLatest, GoodPaths, PathsOf, Starts;
    hide Truncate, SameOutside;
    JobSafe(d0, d, job, env, ids);
    var r, p, f := JobRun(d0, d, job, env), PathsOf(job.entry, env), Stamped(job.entry, env.now);
    if r.states != [] {
      RunStarts(d0, d, job, env);
      StartedIsGood(d0, job, env, ids);
      PathsAreGood(job.entry, env, ids);
      if q in p.All() {
        OnlyOwnNames(p, f, ids, q);
        assert job in [job];
        forall s | s in r.states
          ensures NotBack(d, s, q, timed) && (s.At(q) == d.At(q) || LinkTime(s, q) == Truncate(env.now))
        {
          assert Progress(d, s, p, f);
        }
      } else {
        forall s | s in r.states
          ensures s.At(q) == d.At(q)
        {
          Outside(d, s, p.All(), q);
        }
        QuietRising(d, r.states, q, timed);
      }
    }
  }

  lemma QuietRising(d: Disk, states: seq<Disk>, q: Path, timed: bool)
    requires forall s | s in states :: s.At(q) == d.At(q)
    ensures Rising(d, states, q, timed)
  {
    forall s, t | (s == d || s in states) && t in states
      ensures NotBack(s, t, q, timed)
    {
      SameLinkTime(s, t, q);
    }
  }

  lemma RunStarts(d0: Disk, d: Disk, job: Job, env: Env)
    requires InRange(env.now) && JobRun(d0, d, job, env).states != []
    ensures Starts(d0, job, env)
  {
  }

  lemma {:induction false} PassRising(d0: Disk, d: Disk, jobs: seq<Job>, env: Env, ids: Dirs, q: Path, timed: bool)
    requires Safe(d, ids) && GoodDirs(ids) && InRange(env.now) && IsLatest(q.name, ids(q.dir))
    requires forall j | j in jobs :: GoodJob(j, ids) && !UnclosedJob(d0, j, env)
    requires timed ==> Newer(d0, d, q, jobs, env)
    ensures Rising(d, PassFrom(d0, d, jobs, env).states, q, timed)
    decreases |jobs|
  {
    hide Safe, GoodDirs, UnclosedJob, GoodJob, JobRun, Rising, IsLatest, LinkTime, PathsOf, Starts, Grows;
    if jobs == [] || jobs[0].plan.cancelled {
      assert Rising(d, [], q, timed) by { EmptyRising(d, q, timed); }
    } else {
      var r := JobRun(d0, d, jobs[0], env);
      var e := End(d, r.states);
      JobRising(d0, d, jobs[0], env, ids, q, timed);
      JobEndGrows(d0, d, jobs[0], env, ids);
      assert e == d || e in r.states;
      assert timed ==> Newer(d0, e, q, jobs[1..], env) by {
        assert e.At(q) == d.At(q) ==> LinkTime(e, q) == LinkTime(d, q) by { SameLinkTime(d, e, q); }
      }
      PassRising(d0, e, jobs[1..], env, ids, q, timed);
      RisingAppend(d, r.states, PassFrom(d0, e, jobs[1..], env).states, q, timed);
    }
  }

  lemma EmptyRising(d: Disk, q: Path, timed: bool)
    ensures Rising(d, [], q, timed)
  {
  }

  lemma SameLinkTime(d: Disk, e: Disk, q: Path)
    ensures d.At(q) == e.At(q) ==> LinkTime(d, q) == LinkTime(e, q)
  {
  }

  /** The snapshot a link holds still has its own name in the directory. */
  ghost predicate Backed(d: Disk, q: Path)
    requires HasPrefix(q.name, LATEST)
  {
    d.At(q).Some? ==>
      exists p: Path :: p.dir == q.dir && d.At(p).Some?
        && Parse(p.name) == Some(BackupFile(q.name[|LATEST|..], LinkTime(d, q), false))
  }

  /** What the monotonicity of the link needs of an event: nothing erased, directories
      listed, one directory for each ID, frequencies of at least a second, and a clock past
      Go's zero time. */
  ghost predicate Timed(ev: Event) {
    && ev.PassEvent? && ev.env.now >= SECOND && OneDirEach(ev.env)
    && forall j | j in ev.jobs :: j.entry.frequency >= SECOND && j.entry.dest !in ev.env.unreadable
  }

  lemma StartedIsNewer(d: Disk, q: Path, jobs: seq<Job>, env: Env, ids: Dirs)
    requires Safe(d, ids) && GoodDirs(ids) && InRange(env.now) && env.now >= SECOND
    requires env.entries == EntriesOf(jobs) && OneDirEach(env)
    requires IsLatest(q.name, ids(q.dir)) && Backed(d, q)
    requires forall j | j in jobs :: j.entry.frequency >= SECOND && j.entry.dest !in env.unreadable && GoodJob(j, ids)
    ensures Newer(d, d, q, jobs, env)
  {
    hide Safe, GoodDirs, Parse, Render, Decimal, TempName, IsLatest, LinkTime, FormatTime, InRange, GoodJob, Due;
    LatestIdIn(q.name, ids(q.dir));
    if d.At(q).Some? {
      forall j | j in jobs && Starts(d, j, env) && q == PathsOf(j.entry, env).latest
        ensures LinkTime(d, q) <= Truncate(env.now)
      {
        var p: Path :| p.dir == q.dir && d.At(p).Some?
          && Parse(p.name) == Some(BackupFile(q.name[|LATEST|..], LinkTime(d, q), false));
        assert q.name[|LATEST|..] == j.entry.Id() by { assert q.name == LATEST + j.entry.Id(); }
        var t := LinkTime(d, q);
        if t > 0 {
          assert Counts(d, p, j.entry.dest, j.entry.Id());
          StartedAfter(d, j, env, p);
        }
      }
    }
  }

  lemma BackedKept(d: Disk, s: Disk, q: Path, jobs: seq<Job>, env: Env, ids: Dirs)
    requires InRange(env.now) && GoodDirs(ids) && IsLatest(q.name, ids(q.dir)) && Backed(d, q)
    requires Grows(d, d, s, jobs, env, ids) && forall j | j in jobs :: GoodJob(j, ids)
    ensures Backed(s, q)
  {
    hide GoodDirs, Parse, Starts, GoodJob, IsLatest, Render, TempName, Decimal;
    LatestIdIn(q.name, ids(q.dir));
    if s.At(q).Some? {
      if s.At(q) == d.At(q) {
        SameLinkTime(d, s, q);
        var p: Path :| p.dir == q.dir && d.At(p).Some?
          && Parse(p.name) == Some(BackupFile(q.name[|LATEST|..], LinkTime(d, q), false));
        LinkedIsKnown(ids, q.dir);
        assert Accepted(p.name, ids(p.dir));
      } else {
        var job :| job in jobs && Starts(d, job, env) && LinkedBy(s, q, job, env);
        StartedIsGood(d, job, env, ids);
        PathsAreGood(job.entry, env, ids);
        FinalIsAccepted(PathsOf(job.entry, env), Stamped(job.entry, env.now), ids);
        assert q.name[|LATEST|..] == job.entry.Id() by { assert q.name == LATEST + job.entry.Id(); }
        assert PathsOf(job.entry, env).final.dir == q.dir;
      }
    }
  }

  lemma LinkedIsKnown(ids: Dirs, dir: string)
    requires GoodDirs(ids)
    ensures ids(dir).linked <= ids(dir).all
  {
    hide GoodId;
    assert GoodIds(ids(dir));
  }

  lemma LatestIdIn(name: string, ids: Ids)
    requires IsLatest(name, ids)
    ensures HasPrefix(name, LATEST) && name[|LATEST|..] in ids.linked
  {
  }

  lemma SingleRising(d: Disk, q: Path, timed: bool)
    ensures Rising(d, [d], q, timed) && End(d, [d]) == d
  {
  }

  lemma EraseRising(d: Disk, p: Path, q: Path)
    requires p != q
    ensures Rising(d, [Remove(d, p)], q, false)
  {
  }

  lemma EventRising(d: Disk, ev: Event, ids: Dirs, q: Path, timed: bool)
    requires Safe(d, ids) && GoodDirs(ids) && GoodEvent(ev, ids) && Closed(ev) && IsLatest(q.name, ids(q.dir))
    requires ev.Erase? ==> ev.path != q
    requires timed ==> Timed(ev) && Backed(d, q)
    ensures Rising(d, StatesOf(d, ev, ids), q, timed)
    ensures timed ==> Backed(End(d, StatesOf(d, ev, ids)), q)
  {
    hide Safe, GoodDirs, Unclosed, Starts, PassFrom, Grows, IsLatest, Newer, Rising;
    LatestIdIn(q.name, ids(q.dir));
    match ev
    case Erase(p) => EraseRising(d, p, q);
    case PassEvent(jobs, env, cut) =>
      assert forall j | j in jobs :: !UnclosedJob(d, j, env);
      if timed { StartedIsNewer(d, q, jobs, env, ids); }
      PassRising(d, d, jobs, env, ids, q, timed);
      var states := Pass(d, jobs, env).states;
      if cut < |states| { RisingPrefix(d, states, cut, q, timed); }
      var e := End(d, StatesOf(d, ev, ids));
      if timed && e != d {
        assert e in states;
        PassGrows(d, d, jobs, env, ids, e);
        BackedKept(d, e, q, jobs, env, ids);
      }
  }

  /** Once a latest link exists it exists in every later state, and resolves (`RunSafe`)
      to a complete uncompressed snapshot; in timed runs its time never goes back. */
  lemma {:induction false} LinkRises(d: Disk, events: seq<Event>, ids: Dirs, q: Path, timed: bool)
    requires Safe(d, ids) && GoodDirs(ids) && GoodEvents(events, ids) && IsLatest(q.name, ids(q.dir))
    requires forall ev | ev in events :: Closed(ev)
    requires forall ev | ev in events && ev.Erase? :: ev.path != q
    requires timed ==> Backed(d, q) && forall ev | ev in events :: Timed(ev)
    ensures Rising(d, Visited(d, events, ids), q, timed)
    decreases |events|
  {
    hide Safe, GoodDirs, GoodEvent, StatesOf, Timed, Closed, Rising, IsLatest, Backed;
    LatestIdIn(q.name, ids(q.dir));
    SingleRising(d, q, timed);
    if events != [] {
      var states := StatesOf(d, events[0], ids);
      var e := End(d, states);
      EventSafe(d, events[0], ids);
      EventRising(d, events[0], ids, q, timed);
      LinkRises(e, events[1..], ids, q, timed);
      RisingAppend(d, [d], states, q, timed);
      EndOfAppend(d, [d], states);
      RisingAppend(d, [d] + states, Visited(e, events[1..], ids), q, timed);
    }
  }
}
