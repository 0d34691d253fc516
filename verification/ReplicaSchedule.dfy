/** The replica daemon's schedule: ticks at the smallest frequency, with the modification
    time of each replica file as the only memory. */
module ReplicaSchedule {
  import opened Calendar

  /** What `os.Stat` says of a replica file. */
  datatype Stat = Missing | StatFails | ModTime(t: Time)

  datatype Entry = Entry(path: string, frequency: Duration)

  predicate Active(e: Entry) { e.frequency > 0 }

  predicate IsSyncDue(stat: Stat, frequency: Duration, now: Time) {
    frequency > 0 &&
    match stat
    case Missing => true
    case StatFails => false
    case ModTime(t) => Sub(now, t) >= frequency
  }

  ghost predicate SmallestFrequency(entries: map<string, Entry>, r: Duration) {
    if exists n | n in entries :: Active(entries[n]) then
      && (exists n | n in entries :: Active(entries[n]) && entries[n].frequency == r)
      && (forall n | n in entries && Active(entries[n]) :: r <= entries[n].frequency)
    else r == 0
  }

  /** `interval`. */
  method Interval(entries: map<string, Entry>) returns (min: Duration)
    ensures SmallestFrequency(entries, min)
  {
    min := 0;
    var todo := entries.Keys;
    while todo != {}
      invariant todo <= entries.Keys
      invariant min >= 0
      invariant min == 0 <==> forall n | n in entries.Keys - todo :: !Active(entries[n])
      invariant min > 0 ==> exists n | n in entries.Keys - todo :: Active(entries[n]) && entries[n].frequency == min
      invariant forall n | n in entries.Keys - todo && Active(entries[n]) :: min <= entries[n].frequency
    {
      var n :| n in todo;
      ghost var seen := entries.Keys - todo;
      todo := todo - {n};
      assert entries.Keys - todo == seen + {n};
      if entries[n].frequency <= 0 { continue; }
      if min == 0 || entries[n].frequency < min { min := entries[n].frequency; }
    }
    assert entries.Keys - todo == entries.Keys;
  }

  /** `sync`: the entries of one round that are synced, in name order. */
  function Selected(order: seq<string>, entries: map<string, Entry>, stats: map<string, Stat>,
                    now: Time): (r: seq<string>)
    requires forall n | n in order :: n in entries && n in stats
    ensures forall n :: n in r <==> n in order && IsSyncDue(stats[n], entries[n].frequency, now)
  {
    if order == [] then []
    else
      var rest := Selected(order[1..], entries, stats, now);
      if IsSyncDue(stats[order[0]], entries[order[0]].frequency, now) then [order[0]] + rest else rest
  }

  /** A replica is synced in a round exactly when it has a positive frequency and its file is
      missing or at least that old; one whose time cannot be read waits. */
  lemma SyncedExactly(order: seq<string>, entries: map<string, Entry>, stats: map<string, Stat>, now: Time, n: string)
    requires forall x | x in order :: x in entries && x in stats
    requires n in order && entries[n].frequency <= MAX_DURATION
    ensures n in Selected(order, entries, stats, now) <==>
            && entries[n].frequency > 0
            && (stats[n] == Missing || (stats[n].ModTime? && now - stats[n].t >= entries[n].frequency))
    ensures stats[n] == StatFails ==> n !in Selected(order, entries, stats, now)
  {
  }

  lemma SelectedUnfold(order: seq<string>, entries: map<string, Entry>, stats: map<string, Stat>, now: Time)
    requires order != [] && forall n | n in order :: n in entries && n in stats
    ensures forall n | n in order[1..] :: n in entries && n in stats
    ensures Selected(order, entries, stats, now) ==
            (if IsSyncDue(stats[order[0]], entries[order[0]].frequency, now) then [order[0]] else [])
            + Selected(order[1..], entries, stats, now)
  {
  }

  /** The entries of a round are synced in the order of the round. */
  lemma {:induction false} SelectedInOrder(a: seq<string>, b: seq<string>, entries: map<string, Entry>,
                                           stats: map<string, Stat>, now: Time)
    requires forall n | n in a + b :: n in entries && n in stats
    ensures forall n | n in a || n in b :: n in entries && n in stats
    ensures Selected(a + b, entries, stats, now) == Selected(a, entries, stats, now) + Selected(b, entries, stats, now)
  {
    hide IsSyncDue;
    assert forall n | n in a || n in b :: n in a + b;
    if a == [] {
      assert a + b == b;
    } else {
      hide Selected;
      assert (a + b)[0] == a[0] && (a + b)[1..] == a[1..] + b;
      SelectedUnfold(a + b, entries, stats, now);
      SelectedUnfold(a, entries, stats, now);
      SelectedInOrder(a[1..], b, entries, stats, now);
    }
  }

  method Sync(order: seq<string>, entries: map<string, Entry>, stats: map<string, Stat>,
              now: Time) returns (synced: seq<string>)
    requires forall n | n in order :: n in entries && n in stats
    ensures synced == Selected(order, entries, stats, now)
  {
    synced := [];
    for i := 0 to |order|
      invariant synced + Selected(order[i..], entries, stats, now) == Selected(order, entries, stats, now)
    {
      var n := order[i];
      assert order[i..][0] == n && order[i..][1..] == order[i + 1..];
      if entries[n].frequency <= 0 { continue; }
      if !IsSyncDue(stats[n], entries[n].frequency, now) { continue; }
      synced := synced + [n];
    }
  }

  // ---------- cadence ----------

  /** The rounds of a run: the first at startup, then one at every tick of a ticker that
      was started when the first round had finished. */
  datatype Rounds = Rounds(start: Time, tickerStart: Time, interval: Duration) {
    function At(k: nat): Time { if k == 0 then start else tickerStart + k * interval }
    /** The first round, like every other, takes at most one interval. */
    predicate Valid() { interval > 0 && start <= tickerStart <= start + interval }
  }

  lemma RoundsAdvance(r: Rounds, k: nat)
    requires r.Valid()
    ensures r.At(k) < r.At(k + 1)
    ensures k > 0 ==> r.At(k + 1) == r.At(k) + r.interval
    ensures r.At(1) <= r.start + 2 * r.interval
  {
    assert (k + 1) * r.interval == k * r.interval + r.interval;
  }

  /** A round whose reading is at least one frequency after the file's time selects it. */
  lemma DueByAge(t: Time, f: Duration, now: Time)
    requires 0 < f <= MAX_DURATION
    ensures IsSyncDue(ModTime(t), f, now) <==> now - t >= f
  {
  }

  lemma {:induction false} FirstDue(r: Rounds, m: Time, f: Duration, k: nat) returns (next: nat)
    requires r.Valid() && 0 < f && k > 0
    ensures next >= k && r.At(next) - m >= f
    ensures forall j | k <= j < next :: r.At(j) - m < f
    decreases if r.At(k) - m >= f then 0 else f - (r.At(k) - m)
  {
    if r.At(k) - m >= f {
      next := k;
    } else {
      RoundsAdvance(r, k);
      next := FirstDue(r, m, f, k + 1);
    }
  }

  /** After a sync that set the file's time m during round k, the entry is selected again,
      no earlier than its frequency and no later than frequency plus interval after m, hence
      within twice its frequency. */
  lemma NextSync(r: Rounds, f: Duration, k: nat, m: Time) returns (next: nat)
    requires r.Valid() && r.interval <= f <= MAX_DURATION
    requires r.At(k) <= m <= (if k == 0 then r.tickerStart else r.At(k) + r.interval)
    ensures next > k && IsSyncDue(ModTime(m), f, r.At(next))
    ensures forall j | k < j < next :: !IsSyncDue(ModTime(m), f, r.At(j))
    ensures f <= r.At(next) - m <= f + r.interval <= 2 * f
  {
    RoundsAdvance(r, k);
    next := FirstDue(r, m, f, k + 1);
    forall j | k < j <= next
      ensures IsSyncDue(ModTime(m), f, r.At(j)) <==> r.At(j) - m >= f
    {
      DueByAge(m, f, r.At(j));
    }
    if next > k + 1 {
      RoundsAdvance(r, next - 1);
      assert r.At(next - 1) - m < f;
    }
  }

  // ---------- whole runs of one entry ----------

  /** One entry over all rounds of a run. `stats(k)` is its file when round k begins and
      `synced(k)` whether round k synced it with success. Only a due entry is synced, a
      success sets the file's time during the round, and nothing else changes the file. */
  ghost predicate EntryRun(r: Rounds, f: Duration, stats: nat -> Stat, synced: nat -> bool) {
    forall k: nat :: RoundOk(r, f, stats, synced, k)
  }

  ghost predicate RoundOk(r: Rounds, f: Duration, stats: nat -> Stat, synced: nat -> bool, k: nat) {
    if synced(k) then
      && IsSyncDue(stats(k), f, r.At(k)) && stats(k + 1).ModTime?
      && r.At(k) <= stats(k + 1).t <= (if k == 0 then r.tickerStart else r.At(k) + r.interval)
    else stats(k + 1) == stats(k)
  }

  /** After a success the file's time never goes back, whatever fails in between. */
  lemma {:induction false} TimeStays(r: Rounds, f: Duration, stats: nat -> Stat, synced: nat -> bool, j: nat, k: nat)
    requires r.Valid() && 0 < f <= MAX_DURATION && EntryRun(r, f, stats, synced) && synced(j) && j < k
    ensures stats(j + 1).ModTime? && stats(k).ModTime? && stats(j + 1).t <= stats(k).t
    decreases k
  {
    assert RoundOk(r, f, stats, synced, j);
    if j + 1 < k {
      TimeStays(r, f, stats, synced, j, k - 1);
      assert RoundOk(r, f, stats, synced, k - 1);
    }
  }

  /** Never too often: in every run, with any failures, the times of two successful syncs
      are at least one frequency apart. */
  lemma SyncsApart(r: Rounds, f: Duration, stats: nat -> Stat, synced: nat -> bool, j: nat, k: nat)
    requires r.Valid() && 0 < f <= MAX_DURATION && EntryRun(r, f, stats, synced) && synced(j) && synced(k) && j < k
    ensures stats(j + 1).ModTime? && stats(k + 1).ModTime? && stats(k + 1).t - stats(j + 1).t >= f
  {
    TimeStays(r, f, stats, synced, j, k);
    assert RoundOk(r, f, stats, synced, k);
    DueByAge(stats(k).t, f, r.At(k));
  }

  /** Never too rarely: after a success at round j, the file is left alone until round
      `next`, which begins between f and f + interval after the file's time and finds it
      due. From there it is due in every round up to the first success, and if that is
      round `next` itself, the two times are at most f + 2 * interval apart. */
  lemma NextSuccess(r: Rounds, f: Duration, stats: nat -> Stat, synced: nat -> bool, j: nat) returns (next: nat)
    requires r.Valid() && r.interval <= f <= MAX_DURATION && EntryRun(r, f, stats, synced) && synced(j)
    ensures stats(j + 1).ModTime? && next > j
    ensures f <= r.At(next) - stats(j + 1).t <= f + r.interval
    ensures forall k | j < k < next :: !synced(k) && !IsSyncDue(stats(k), f, r.At(k))
    ensures forall k | k >= next && (forall i | next <= i < k :: !synced(i)) :: IsSyncDue(stats(k), f, r.At(k))
    ensures synced(next) ==> stats(next + 1).ModTime? && stats(next + 1).t - stats(j + 1).t <= f + 2 * r.interval
  {
    assert RoundOk(r, f, stats, synced, j);
    var m := stats(j + 1).t;
    next := NextSync(r, f, j, m);
    forall k | j < k <= next
      ensures stats(k) == ModTime(m)
    {
      Untouched(r, f, stats, synced, j + 1, k, next, m);
    }
    forall k | j < k < next
      ensures !synced(k)
    {
      assert RoundOk(r, f, stats, synced, k);
    }
    forall k | k >= next && (forall i | next <= i < k :: !synced(i))
      ensures IsSyncDue(stats(k), f, r.At(k))
    {
      Waiting(r, f, stats, synced, next, k, m);
    }
    assert RoundOk(r, f, stats, synced, next);
  }

  lemma {:induction false} Untouched(r: Rounds, f: Duration, stats: nat -> Stat, synced: nat -> bool,
                                     from: nat, k: nat, next: nat, m: Time)
    requires EntryRun(r, f, stats, synced) && from <= k <= next && stats(from) == ModTime(m)
    requires forall i | from <= i < next :: !IsSyncDue(ModTime(m), f, r.At(i))
    ensures stats(k) == ModTime(m)
    decreases k
  {
    if from < k {
      Untouched(r, f, stats, synced, from, k - 1, next, m);
      assert RoundOk(r, f, stats, synced, k - 1);
    }
  }

  lemma {:induction false} Waiting(r: Rounds, f: Duration, stats: nat -> Stat, synced: nat -> bool, next: nat,
                                   k: nat, m: Time)
    requires r.Valid() && 0 < f <= MAX_DURATION && EntryRun(r, f, stats, synced) && next <= k
    requires stats(next) == ModTime(m) && IsSyncDue(ModTime(m), f, r.At(next))
    requires forall i | next <= i < k :: !synced(i)
    ensures stats(k) == ModTime(m) && IsSyncDue(stats(k), f, r.At(k)) && r.At(k) >= r.At(next)
    decreases k
  {
    DueByAge(m, f, r.At(k));
    DueByAge(m, f, r.At(next));
    if next < k {
      Waiting(r, f, stats, synced, next, k - 1, m);
      assert RoundOk(r, f, stats, synced, k - 1);
      RoundsAdvance(r, k - 1);
    }
  }

  /** The bound of two intervals is met: with a tick of 10 and a frequency of 10, a sync at
      10 that ends at 11 is followed by one at 30 that may end at 40, 29 later. */
  lemma TwoIntervalsNeeded()
    ensures var r := Rounds(0, 0, 10);
            && r.Valid() && r.At(1) <= 11 <= r.At(1) + 10
            && !IsSyncDue(ModTime(11), 10, r.At(2)) && IsSyncDue(ModTime(11), 10, r.At(3))
            && r.At(3) <= 40 <= r.At(3) + 10 && 40 - 11 > 10 + 10
  {
  }

  function FileOf(stats: nat -> map<string, Stat>, n: string): nat -> Stat {
    (k: nat) => if n in stats(k) then stats(k)[n] else Missing
  }

  /** The same for the rounds as they select entries by name. A disabled entry is never
      selected. An active one is selected in every round that syncs it and in every round
      that finds its file missing; after a success at round j it is left alone, and selected
      again in a round that begins between f and f + interval after the file's time. */
  lemma RoundsOfOneEntry(order: seq<string>, entries: map<string, Entry>, stats: nat -> map<string, Stat>, r: Rounds,
                         n: string, synced: nat -> bool, j: nat) returns (next: nat)
    requires r.Valid() && n in order && forall x | x in order :: x in entries
    requires forall k: nat, x | x in order :: x in stats(k)
    requires Active(entries[n]) ==>
               && r.interval <= entries[n].frequency <= MAX_DURATION && synced(j)
               && EntryRun(r, entries[n].frequency, FileOf(stats, n), synced)
    ensures !Active(entries[n]) ==> forall k: nat :: n !in Selected(order, entries, stats(k), r.At(k))
    ensures Active(entries[n]) ==>
              && (forall k: nat | synced(k) || stats(k)[n].Missing? :: n in Selected(order, entries, stats(k), r.At(k)))
              && next > j && n in Selected(order, entries, stats(next), r.At(next))
              && (forall k: nat | j < k < next :: n !in Selected(order, entries, stats(k), r.At(k)))
              && stats(j + 1)[n].ModTime?
              && entries[n].frequency <= r.At(next) - stats(j + 1)[n].t <= entries[n].frequency + r.interval
  {
    hide Selected;
    next := j;
    if Active(entries[n]) {
      var f, file := entries[n].frequency, FileOf(stats, n);
      next := NextSuccess(r, f, file, synced, j);
      forall k: nat | synced(k)
        ensures n in Selected(order, entries, stats(k), r.At(k))
      {
        assert RoundOk(r, f, file, synced, k);
      }
    }
  }

  ghost predicate Stats(order: seq<string>, stats: map<string, Stat>) {
    forall n | n in order :: n in stats
  }

  /** The daemon idles exactly when no round could ever sync anything. */
  lemma IdleExactly(order: seq<string>, entries: map<string, Entry>, interval: Duration)
    requires (forall n :: n in order <==> n in entries) && SmallestFrequency(entries, interval)
    ensures interval <= 0 <==>
            forall stats, now: Time | Stats(order, stats) :: Selected(order, entries, stats, now) == []
  {
    hide Selected;
    if n :| n in entries && Active(entries[n]) {
      var stats: map<string, Stat> := map m | m in entries :: Missing;
      var now: Time := 0;
      assert Stats(order, stats) && IsSyncDue(stats[n], entries[n].frequency, now);
      assert n in Selected(order, entries, stats, now) && Selected(order, entries, stats, now) != [];
    } else {
      forall stats, now: Time | Stats(order, stats)
        ensures Selected(order, entries, stats, now) == []
      {
        NoMembers(Selected(order, entries, stats, now));
      }
    }
  }

  lemma NoMembers(s: seq<string>)
    ensures (forall n :: n !in s) ==> s == []
  {
    assert s == [] || s[0] in s;
  }
}
