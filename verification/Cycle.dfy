/** One snapshot cycle of one entry (`handleFile`, `handleCompressed`,
    `handleUncompressed`, `linkLatest`) and one pass over all entries (`handle`), as the
    list of disk states they go through. A crash leaves the disk in any one of them. */
module Cycle {
  import opened Text
  import opened Calendar
  import opened BackupName
  import opened NameSpace
  import opened FileSystem

  datatype Entry = Entry(lbl: string, source: string, dest: string, frequency: Duration, compression: bool) {
    function Id(): string { BackupId(lbl, Base(source)) }
    /** An entry with an empty path is deactivated. */
    predicate Active() { source != "" && dest != "" }
  }

  // What the operating system and the libraries answer, step by step.

  datatype CopyOutcome = Refused | Broken | Copied
  datatype ZipOutcome = NoFile | ZipBroken | Zipped(closed: bool)

  /** `closed` says whether closing the gzip stream and the file succeeded; the code only
      logs those errors. */
  datatype Plan = Plan(
    cancelled: bool, destIsDir: bool, sourceIsFile: bool, connects: bool,
    copy: CopyOutcome, zip: ZipOutcome, rename: bool, link: bool, relink: bool,
    rmTemp: bool, rmStage: bool, rmLatestTmp: bool)

  datatype Job = Job(entry: Entry, plan: Plan)

  /** What one pass is given: its clock reading, the configured entries, the destination
      directories it cannot list, and the system's temp directory. */
  datatype Env = Env(now: Time, entries: set<Entry>, unreadable: set<string>, tempDir: string)

  function EntriesOf(jobs: seq<Job>): set<Entry> { set j | j in jobs :: j.entry }

  datatype Run = Run(states: seq<Disk>, ok: bool)

  function End(d: Disk, states: seq<Disk>): Disk {
    if states == [] then d else states[|states| - 1]
  }

  function Then(r: Run, s: Run): Run { Run(r.states + s.states, s.ok) }

  lemma EndOfAppend(d: Disk, a: seq<Disk>, b: seq<Disk>)
    ensures End(d, a + b) == End(End(d, a), b)
  {
    if b == [] { assert a + b == a; }
  }

  // ---------- the paths of a cycle ----------

  /** A compressed cycle (`linked` false) leaves the links alone. */
  datatype CyclePaths = CyclePaths(final: Path, stage: Path, temp: Path, latest: Path, latestTmp: Path, linked: bool) {
    function All(): set<Path> { {final, stage, temp} + (if linked then {latest, latestTmp} else {}) }
  }

  function FileOf(e: Entry, now: Time): BackupFile {
    BackupFile(e.Id(), now, e.compression)
  }

  /** The file the printed name denotes: the same, cut to the second. */
  function Stamped(e: Entry, now: Time): BackupFile {
    BackupFile(e.Id(), Truncate(now), e.compression)
  }

  function PathsOf(e: Entry, env: Env): CyclePaths
    requires InRange(env.now)
  {
    var n := NamesOf(FileOf(e, env.now));
    CyclePaths(Path(e.dest, n.final), Path(e.dest, n.stage), Path(env.tempDir, n.temp),
               Path(e.dest, n.latest), Path(e.dest, n.latestTmp), n.linked)
  }

  // ---------- the steps ----------

  function RemoveIf(d: Disk, p: Path, works: bool): Disk { if works then Remove(d, p) else d }

  /** `Strategy.Copy`: refused before the destination is opened, broken off part way, or
      done, which means a complete snapshot. */
  function CopyRun(d: Disk, p: Path, c: Content, o: CopyOutcome): Run {
    match o
    case Refused => Run([], false)
    case Broken => Run([Open(d, p)], false)
    case Copied => Run([Open(d, p), Write(Open(d, p), p, c)], true)
  }

  /** `compressFile`: without a source nothing is created; an unclosed stream is
      incomplete, but the call still succeeds. */
  function ZipRun(d: Disk, src: Path, dst: Path, o: ZipOutcome): Run {
    match d.Read(src)
    case None => Run([], false)
    case Some(c) =>
      match o
      case NoFile => Run([], false)
      case ZipBroken => Run([Open(d, dst)], false)
      case Zipped(closed) =>
        Run([Open(d, dst), Write(Open(d, dst), dst, if closed then Gzip(c) else Partial)], true)
  }

  function PromoteRun(d: Disk, p: CyclePaths, plan: Plan): Run {
    var (e, ok) := if plan.rename then Rename(d, p.stage, p.final) else (d, false);
    if ok then Run([e], true) else Run([RemoveIf(d, p.stage, plan.rmStage)], false)
  }

  function LinkRun(d: Disk, p: CyclePaths, plan: Plan): Run {
    var d1 := RemoveIf(d, p.latestTmp, plan.rmLatestTmp);
    var (d2, linked) := if plan.link then Link(d1, p.final, p.latestTmp) else (d1, false);
    if !linked then Run([d1], false)
    else
      var (d3, renamed) := if plan.relink then Rename(d2, p.latestTmp, p.latest) else (d2, false);
      if renamed then Run([d1, d2, d3], true) else Run([d1, d2], false)
  }

  function UncompressedRun(d: Disk, e: Entry, plan: Plan, p: CyclePaths, now: Time): Run {
    var copy := CopyRun(d, p.stage, Snapshot(e.Id(), Truncate(now)), plan.copy);
    var d1 := End(d, copy.states);
    if !copy.ok then Then(copy, Run([RemoveIf(d1, p.stage, plan.rmStage)], false))
    else
      var promote := PromoteRun(d1, p, plan);
      if !promote.ok then Then(copy, promote)
      else Then(Then(copy, promote), LinkRun(End(d1, promote.states), p, plan))
  }

  function CompressedRun(d: Disk, e: Entry, plan: Plan, p: CyclePaths, now: Time): Run {
    var copy := CopyRun(d, p.temp, Snapshot(e.Id(), Truncate(now)), plan.copy);
    var d1 := End(d, copy.states);
    if !copy.ok then Then(copy, Run([RemoveIf(d1, p.temp, plan.rmTemp)], false))
    else
      var zip := ZipRun(d1, p.temp, p.stage, plan.zip);
      var d2 := End(d1, zip.states);
      var d3 := RemoveIf(d2, p.temp, plan.rmTemp);
      var zipped := Then(copy, Then(zip, Run([d3], zip.ok)));
      if !zip.ok then Then(zipped, Run([RemoveIf(d3, p.stage, plan.rmStage)], false))
      else Then(zipped, PromoteRun(d3, p, plan))
  }

  function FileRun(d: Disk, job: Job, env: Env): Run
    requires InRange(env.now)
  {
    var p := PathsOf(job.entry, env);
    if job.entry.compression then CompressedRun(d, job.entry, job.plan, p, env.now)
    else UncompressedRun(d, job.entry, job.plan, p, env.now)
  }

  // ---------- the due check ----------

  /** A snapshot of this ID that the scan of its directory takes into account: the zero
      time means "none", so only later times count. */
  ghost predicate Counts(d: Disk, p: Path, dir: string, id: string) {
    && p in d.names && p.dir == dir
    && Parse(p.name).Some? && Parse(p.name).value.id == id && Parse(p.name).value.time > 0
  }

  /** Some active entry keeps this ID in the directory, which could be listed and holds a
      snapshot of it. */
  ghost predicate Holds(d: Disk, env: Env, dir: string, id: string) {
    && (exists e | e in env.entries :: e.Active() && e.dest == dir && e.Id() == id)
    && dir !in env.unreadable && exists p :: Counts(d, p, dir, id)
  }

  /** What the scans found is kept by ID alone: of several directories that hold the ID, the
      last one in name order decides. */
  ghost predicate Decides(d: Disk, env: Env, dir: string, id: string) {
    Holds(d, env, dir, id) && forall other | Holds(d, env, other, id) && other != dir :: LexLess(other, dir)
  }

  ghost predicate AllOld(d: Disk, dir: string, id: string, frequency: Duration, now: Time) {
    forall p | Counts(d, p, dir, id) :: Sub(now, Parse(p.name).value.time) >= frequency
  }

  /** Due: every snapshot of the ID in the deciding directory, if there is one, is at least
      one frequency old. */
  ghost predicate Due(d: Disk, e: Entry, env: Env) {
    forall dir | Decides(d, env, dir, e.Id()) :: AllOld(d, dir, e.Id(), e.frequency, env.now)
  }

  /** The ID is kept in this directory only. */
  ghost predicate OnlyDir(env: Env, dir: string, id: string) {
    forall e | e in env.entries && e.Active() && e.Id() == id :: e.dest == dir
  }

  /** Every ID is kept in one directory only. */
  ghost predicate OneDirEach(env: Env) {
    forall e | e in env.entries && e.Active() :: OnlyDir(env, e.dest, e.Id())
  }

  /** Then that directory decides: an entry is due exactly when it cannot be listed or all
      its snapshots of the ID are old. */
  lemma DueInOneDir(d: Disk, e: Entry, env: Env)
    requires e in env.entries && e.Active() && OnlyDir(env, e.dest, e.Id())
    ensures Due(d, e, env) <==> e.dest in env.unreadable || AllOld(d, e.dest, e.Id(), e.frequency, env.now)
  {
    hide Counts, LexLess, BackupId, Base;
    var id := e.Id();
    assert forall dir | Holds(d, env, dir, id) :: dir == e.dest;
    if Holds(d, env, e.dest, id) { assert Decides(d, env, e.dest, id); }
  }

  /** When two directories hold an ID, what the one later in name order holds counts and the
      other is not looked at. */
  lemma LaterDirDecides(d: Disk, e: Entry, env: Env, a: string, b: string)
    requires Holds(d, env, a, e.Id()) && Holds(d, env, b, e.Id()) && LexLess(a, b)
    requires forall dir | Holds(d, env, dir, e.Id()) :: dir == a || dir == b
    ensures Due(d, e, env) <==> AllOld(d, b, e.Id(), e.frequency, env.now)
  {
    hide Counts, Holds, AllOld, LexLess, BackupId, Base;
    LexIrreflexive(a);
    assert Decides(d, env, b, e.Id());
    if Decides(d, env, a, e.Id()) {
      LexTransitive(a, b, a);
    }
  }

  /** What a started job knows of the snapshots of its ID. */
  lemma StartedAfter(d: Disk, job: Job, env: Env, p: Path)
    requires Starts(d, job, env) && job.entry in env.entries && OnlyDir(env, job.entry.dest, job.entry.Id())
    requires job.entry.dest !in env.unreadable && Counts(d, p, job.entry.dest, job.entry.Id())
    ensures Parse(p.name).Some? && Sub(env.now, Parse(p.name).value.time) >= job.entry.frequency
  {
    hide Parse, BackupId, Base;
    DueInOneDir(d, job.entry, env);
  }

  /** The entry gets as far as its copy. `d0` is the disk the pass scanned at its start. */
  ghost predicate Starts(d0: Disk, job: Job, env: Env) {
    job.entry.Active() && Due(d0, job.entry, env)
    && job.plan.destIsDir && job.plan.sourceIsFile && job.plan.connects
  }

  /** One iteration of the loop: skip, fail a check, or run the cycle. */
  ghost function JobRun(d0: Disk, d: Disk, job: Job, env: Env): Run
    requires InRange(env.now)
  {
    if !job.entry.Active() || !Due(d0, job.entry, env) then Run([], true)
    else if !Starts(d0, job, env) then Run([], false)
    else FileRun(d, job, env)
  }

  datatype PassRun = PassRun(states: seq<Disk>, failed: seq<string>, aborted: bool)

  /** The loop of `handle` from some job on: it stops at a cancelled context and carries
      on after a failure. */
  ghost function PassFrom(d0: Disk, d: Disk, jobs: seq<Job>, env: Env): PassRun
    requires InRange(env.now)
    decreases |jobs|
  {
    if jobs == [] then PassRun([], [], false)
    else if jobs[0].plan.cancelled then PassRun([], [], true)
    else
      var r := JobRun(d0, d, jobs[0], env);
      var rest := PassFrom(d0, End(d, r.states), jobs[1..], env);
      PassRun(r.states + rest.states, (if r.ok then [] else [jobs[0].entry.Id()]) + rest.failed, rest.aborted)
  }

  ghost function Pass(d: Disk, jobs: seq<Job>, env: Env): PassRun
    requires InRange(env.now)
  {
    PassFrom(d, d, jobs, env)
  }
}
