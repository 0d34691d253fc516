/** The schedule has no memory but the times in the file names. They are enough: the
    snapshots of one ID are always at least one frequency apart. */
module Spacing {
  import opened Calendar
  import opened BackupName
  import opened NameSpace
  import opened FileSystem
  import opened Cycle
  import opened CrashSafety
  import opened Runs
  import opened Schedule
  import opened Tidiness

  function TimeOfName(p: Path): Time {
    match Parse(p.name) case Some(f) => f.time case None => 0
  }

  function Distance(a: Time, b: Time): int { if a < b then b - a else a - b }

  ghost predicate Spaced(d: Disk, dir: string, id: string, f: Duration) {
    forall p, q | Counts(d, p, dir, id) && Counts(d, q, dir, id) && p != q ::
      Distance(TimeOfName(p), TimeOfName(q)) >= f
  }

  /** A whole-second frequency for this ID in this directory, one entry per ID, a clock
      past Go's zero time and a directory that can be listed. The clock may jump freely. */
  ghost predicate Scheduled(ev: Event, dir: string, id: string, f: Duration) {
    ev.PassEvent? ==>
      && ev.env.now >= SECOND && dir !in ev.env.unreadable
      && (forall j | j in ev.jobs && j.entry.Id() == id :: j.entry.frequency >= f)
      && (forall j, k | j in ev.jobs && k in ev.jobs && j.entry.Id() == id && k.entry.Id() == id :: j.entry == k.entry)
  }

  ghost predicate WholeSeconds(f: Duration) { 0 < f <= MAX_DURATION && f % SECOND == 0 }

  /** A due check passed for a raw clock reading holds for the printed second too. */
  lemma DueAfterTruncation(now: Time, t: Time, f: Duration, g: Duration)
    requires WholeSeconds(f) && f <= g && t % SECOND == 0 && Sub(now, t) >= g
    ensures Truncate(now) - t >= f
  {
    assert now - t >= f;
    var a, b := t / SECOND, f / SECOND;
    assert t == a * SECOND && f == b * SECOND;
    assert now >= (a + b) * SECOND;
    assert now / SECOND >= a + b;
  }

  lemma NewIsFarFromOld(d: Disk, p: Path, job: Job, env: Env, f: Duration)
    requires InRange(env.now) && WholeSeconds(f) && job.entry.frequency >= f
    requires Starts(d, job, env) && job.entry.dest !in env.unreadable
    requires job.entry in env.entries && OnlyDir(env, job.entry.dest, job.entry.Id())
    requires Counts(d, p, job.entry.dest, job.entry.Id())
    ensures Distance(TimeOfName(p), Truncate(env.now)) >= f
  {
    hide Parse, Truncate, Due;
    StartedAfter(d, job, env, p);
    ParseThenRender(p.name);
    var t := Parse(p.name).value.time;
    assert t % SECOND == 0 by { assert Truncate(t) == t; WholeTime(t); }
    DueAfterTruncation(env.now, t, f, job.entry.frequency);
  }

  lemma WholeTime(t: Time)
    requires Truncate(t) == t
    ensures t % SECOND == 0
  {
  }

  lemma CountsThenPresent(d: Disk, p: Path, dir: string, id: string, ids: Dirs)
    requires d.WF() && Counts(d, p, dir, id) && id in ids(dir).all
    ensures Accepted(p.name, ids(p.dir)) && d.At(p).Some?
  {
    hide Parse;
  }

  lemma PassSpaced(d: Disk, ev: Event, ids: Dirs, s: Disk, dir: string, id: string, f: Duration)
    requires Tidy(d, ids) && GoodDirs(ids) && GoodEvent(ev, ids) && ev.PassEvent?
    requires id in ids(dir).all && WholeSeconds(f) && Scheduled(ev, dir, id, f) && Spaced(d, dir, id, f)
    requires Tidy(s, ids) && Adds(d, d, s, ev.jobs, ev.env, ids)
    ensures Spaced(s, dir, id, f)
  {
    hide Tidy, GoodDirs, GoodEvent, Parse, Accepted, TimeOfName, WholeSeconds, Starts, IsLatest;
    TidyIsWF(d, ids);
    TidyIsWF(s, ids);
    forall p, q | Counts(s, p, dir, id) && Counts(s, q, dir, id) && p != q
      ensures Distance(TimeOfName(p), TimeOfName(q)) >= f
    {
      CountsThenPresent(s, p, dir, id, ids);
      CountsThenPresent(s, q, dir, id, ids);
      var oldP, oldQ := d.At(p).Some?, d.At(q).Some?;
      if oldP && oldQ {
        assert Counts(d, p, dir, id) && Counts(d, q, dir, id);
      } else if oldP {
        assert Counts(d, p, dir, id);
        NewSnapshotFar(d, ev, ids, p, q, dir, id, f);
      } else if oldQ {
        assert Counts(d, q, dir, id);
        NewSnapshotFar(d, ev, ids, q, p, dir, id, f);
      } else {
        OneNewSnapshot(d, ev, ids, p, q, dir, id, f);
      }
    }
  }

  /** What is known of a snapshot that a pass made. */
  lemma MadeBy(d: Disk, ev: Event, ids: Dirs, q: Path, dir: string, id: string) returns (job: Job)
    requires GoodDirs(ids) && GoodEvent(ev, ids) && ev.PassEvent? && q.dir == dir
    requires Parse(q.name).Some? && Parse(q.name).value.id == id
    requires SnapshotMade(d, q, ev.jobs, ev.env)
    ensures job in ev.jobs && Starts(d, job, ev.env) && q == PathsOf(job.entry, ev.env).final
    ensures job.entry.Id() == id && job.entry.dest == dir && TimeOfName(q) == Truncate(ev.env.now)
  {
    hide GoodDirs, Parse, Starts, Truncate, Render, TempName, Unclosed;
    job :| job in ev.jobs && Starts(d, job, ev.env) && q == PathsOf(job.entry, ev.env).final;
    StartedIsGood(d, job, ev.env, ids);
    PathsAreGood(job.entry, ev.env, ids);
    FinalIsAccepted(PathsOf(job.entry, ev.env), Stamped(job.entry, ev.env.now), ids);
  }

  lemma NewSnapshotFar(d: Disk, ev: Event, ids: Dirs, p: Path, q: Path, dir: string, id: string, f: Duration)
    requires GoodDirs(ids) && GoodEvent(ev, ids) && ev.PassEvent?
    requires WholeSeconds(f) && Scheduled(ev, dir, id, f) && q.dir == dir
    requires Counts(d, p, dir, id) && SnapshotMade(d, q, ev.jobs, ev.env)
    requires Parse(q.name).Some? && Parse(q.name).value.id == id
    ensures Distance(TimeOfName(p), TimeOfName(q)) >= f && Distance(TimeOfName(q), TimeOfName(p)) >= f
  {
    hide GoodDirs, Parse, TimeOfName, WholeSeconds, Starts, PathsOf, Counts, Truncate;
    var job := MadeBy(d, ev, ids, q, dir, id);
    NewIsFarFromOld(d, p, job, ev.env, f);
  }

  lemma OneNewSnapshot(d: Disk, ev: Event, ids: Dirs, p: Path, q: Path, dir: string, id: string, f: Duration)
    requires GoodDirs(ids) && GoodEvent(ev, ids) && ev.PassEvent? && Scheduled(ev, dir, id, f)
    requires p.dir == dir && Parse(p.name).Some? && Parse(p.name).value.id == id
    requires q.dir == dir && Parse(q.name).Some? && Parse(q.name).value.id == id
    requires SnapshotMade(d, p, ev.jobs, ev.env) && SnapshotMade(d, q, ev.jobs, ev.env)
    ensures p == q
  {
    hide GoodDirs, Parse, TimeOfName, Starts, PathsOf, Truncate;
    var j := MadeBy(d, ev, ids, p, dir, id);
    var k := MadeBy(d, ev, ids, q, dir, id);
    assert j.entry == k.entry;
  }

  lemma EventSpaced(d: Disk, ev: Event, ids: Dirs, dir: string, id: string, f: Duration)
    requires Tidy(d, ids) && GoodDirs(ids) && GoodEvent(ev, ids)
    requires id in ids(dir).all && WholeSeconds(f) && Scheduled(ev, dir, id, f) && Spaced(d, dir, id, f)
    ensures forall s | s in StatesOf(d, ev, ids) :: Spaced(s, dir, id, f) && Tidy(s, ids)
  {
    hide Tidy, GoodDirs, GoodJob, Spaced, Scheduled, PassFrom, Adds, Starts;
    match ev
    case Erase(p) =>
      EraseSpaced(d, p, dir, id, f);
      RemoveTidy(d, p, ids);
    case PassEvent(jobs, env, cut) =>
      forall s | s in StatesOf(d, ev, ids)
        ensures Spaced(s, dir, id, f) && Tidy(s, ids)
      {
        assert s in Pass(d, jobs, env).states;
        PassAdds(d, d, jobs, env, ids, s);
        PassSpaced(d, ev, ids, s, dir, id, f);
      }
  }

  lemma EraseSpaced(d: Disk, p: Path, dir: string, id: string, f: Duration)
    requires Spaced(d, dir, id, f)
    ensures Spaced(Remove(d, p), dir, id, f)
  {
    hide Parse, TimeOfName;
    assert forall q | Counts(Remove(d, p), q, dir, id) :: Counts(d, q, dir, id);
  }

  /** In every state of every run, even when the clock jumps, passes crash and old files
      are erased, the snapshots of an ID in its directory are at least f apart. */
  lemma {:induction false} RunSpaced(d: Disk, events: seq<Event>, ids: Dirs, dir: string, id: string, f: Duration)
    requires Tidy(d, ids) && GoodDirs(ids) && GoodEvents(events, ids)
    requires id in ids(dir).all && WholeSeconds(f) && Spaced(d, dir, id, f)
    requires forall ev | ev in events :: Scheduled(ev, dir, id, f)
    ensures forall s | s in Visited(d, events, ids) :: Spaced(s, dir, id, f)
    decreases |events|
  {
    hide Tidy, GoodDirs, GoodEvent, StatesOf, Scheduled, Spaced, WholeSeconds;
    if events != [] {
      var states := StatesOf(d, events[0], ids);
      EventSpaced(d, events[0], ids, dir, id, f);
      assert End(d, states) == d || End(d, states) in states;
      RunSpaced(End(d, states), events[1..], ids, dir, id, f);
    }
  }

  /** From an empty disk nothing else needs to be known. */
  lemma SpacedFromNothing(events: seq<Event>, ids: Dirs, dir: string, id: string, f: Duration)
    requires GoodDirs(ids) && GoodEvents(events, ids) && id in ids(dir).all && WholeSeconds(f)
    requires forall ev | ev in events :: Scheduled(ev, dir, id, f)
    ensures forall s | s in Visited(NOTHING, events, ids) :: Spaced(s, dir, id, f)
  {
    hide GoodDirs, GoodEvents, Visited, Scheduled, WholeSeconds;
    RunSpaced(NOTHING, events, ids, dir, id, f);
  }

  // ---------- how many snapshots a window can hold ----------

  lemma Earliest(ps: set<Path>) returns (p: Path)
    requires ps != {}
    ensures p in ps && forall q | q in ps :: TimeOfName(p) <= TimeOfName(q)
  {
    hide TimeOfName;
    p :| p in ps;
    var rest := ps - {p};
    if rest != {} {
      var r := Earliest(rest);
      if TimeOfName(r) < TimeOfName(p) { p := r; }
    }
  }

  lemma Quotient(w: int, f: int)
    requires f > 0 && w >= 0
    ensures w / f >= 0 && (w / f) * f <= w < (w / f) * f + f
  {
  }

  lemma TimesGrows(a: int, b: int, f: int)
    requires f > 0 && a <= b
    ensures a * f <= b * f
  {
  }

  lemma DivStep(w: int, v: int, f: int)
    requires f > 0 && 0 <= v && v + f <= w
    ensures v / f + 1 <= w / f
  {
    Quotient(w, f);
    Quotient(v, f);
    var a, b := v / f, w / f;
    if a + 1 > b { TimesGrows(b, a, f); }
  }

  /** A window of length w holds at most w/f + 1 snapshots of an ID. */
  lemma {:induction false} WindowBound(ps: set<Path>, from: Time, w: int, f: Duration)
    requires f > 0 && w >= 0
    requires forall p | p in ps :: from <= TimeOfName(p) <= from + w
    requires forall p, q | p in ps && q in ps && p != q :: Distance(TimeOfName(p), TimeOfName(q)) >= f
    ensures |ps| <= w / f + 1
    decreases |ps|
  {
    hide TimeOfName;
    Quotient(w, f);
    if ps != {} {
      var p := Earliest(ps);
      var rest := ps - {p};
      var t := TimeOfName(p) + f;
      assert |ps| == |rest| + 1;
      if rest != {} {
        assert forall q | q in rest :: t <= TimeOfName(q);
        var q :| q in rest;
        var v := from + w - t;
        WindowBound(rest, t, v, f);
        DivStep(w, v, f);
      }
    }
  }

  /** The window bound in every state of a run. */
  lemma RetentionBound(d: Disk, events: seq<Event>, ids: Dirs, dir: string, id: string, f: Duration,
                       s: Disk, ps: set<Path>, from: Time, w: int)
    requires Tidy(d, ids) && GoodDirs(ids) && GoodEvents(events, ids)
    requires id in ids(dir).all && WholeSeconds(f) && Spaced(d, dir, id, f)
    requires forall ev | ev in events :: Scheduled(ev, dir, id, f)
    requires s in Visited(d, events, ids) && w >= 0
    requires forall p | p in ps :: Counts(s, p, dir, id) && from <= TimeOfName(p) <= from + w
    ensures |ps| <= w / f + 1
  {
    hide Tidy, GoodDirs, GoodEvents, Counts, TimeOfName, Scheduled;
    RunSpaced(d, events, ids, dir, id, f);
    WindowBound(ps, from, w, f);
  }
}
