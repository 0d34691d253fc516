/** The online backup copy: its step loop and its progress log. */
module OnlineCopy {
  import opened Text

  /** `moduloLogger`. `lines` counts the progress lines it has written. */
  class ModuloLogger {
    const totalPages: int
    const logPageInterval: int
    var nextLogTarget: int
    ghost var lines: nat

    ghost predicate Valid()
      reads this
    {
      && totalPages > 0
      && logPageInterval == (if totalPages / 10 == 0 then 1 else totalPages / 10)
      && nextLogTarget == logPageInterval * (lines + 1)
      && logPageInterval * lines <= totalPages
    }

    constructor (total: int)
      requires total > 0
      ensures Valid() && totalPages == total && lines == 0
    {
      totalPages := total;
      logPageInterval := if total / 10 == 0 then 1 else total / 10;
      nextLogTarget := if total / 10 == 0 then 1 else total / 10;
      lines := 0;
    }

    /** `log`: one line when the next target is reached, and the target moves on by one
        interval however far the copy has jumped. */
    method Log(remaining: nat) returns (logged: bool)
      requires Valid()
      modifies this
      ensures Valid()
      ensures logged == (totalPages - remaining >= old(nextLogTarget))
      ensures lines == old(lines) + (if logged then 1 else 0)
    {
      var copied := totalPages - remaining;
      logged := copied >= nextLogTarget;
      if logged {
        lines := lines + 1;
        nextLogTarget := nextLogTarget + logPageInterval;
        NextTarget(logPageInterval, lines);
      }
    }
  }

  lemma NextTarget(interval: int, lines: nat)
    requires lines > 0
    ensures interval * lines + interval == interval * (lines + 1)
    ensures interval * (lines - 1 + 1) == interval * lines
  {
  }

  /** Ten log points by division give at most nineteen lines. */
  lemma AtMostNineteen(total: int, interval: int, lines: nat)
    requires total > 0 && interval == (if total / 10 == 0 then 1 else total / 10)
    requires interval * lines <= total
    ensures lines <= 19
  {
    if lines >= 20 { TwentyTimes(interval, lines); }
  }

  lemma TwentyTimes(interval: int, lines: nat)
    requires interval > 0 && lines >= 20
    ensures interval * lines >= 20 * interval
  {
  }

  /** What one step of the driver answers. `More(remaining)` is any number the driver may
      report, after a restart of the source even a larger one than before. */
  datatype StepOutcome = More(remaining: nat) | Last | Fails

  datatype CopyResult = Copied | Cancelled | Failed | Empty | Copying

  /** How the loop ends: at a cancellation, a failing step or the last page. */
  function Ending(outcomes: seq<StepOutcome>, cancelledAt: Option<nat>, i: nat): CopyResult
    decreases |outcomes| - i
  {
    if cancelledAt == Some(i) then Cancelled
    else if i >= |outcomes| then Copying
    else match outcomes[i]
      case Last => Copied
      case Fails => Failed
      case More(_) => Ending(outcomes, cancelledAt, i + 1)
  }

  /** The driver copies one page a step and never restarts. */
  ghost predicate PageByPage(total: nat, outcomes: seq<StepOutcome>) {
    && total > 0 && |outcomes| == total && outcomes[total - 1] == Last
    && forall i | 0 <= i < total - 1 :: outcomes[i] == More(total - 1 - i)
  }

  function LogInterval(total: nat): (interval: nat)
    ensures interval > 0
  {
    if total < 10 then 1 else total / 10
  }

  lemma NextMultiple(i: nat, interval: nat)
    requires interval > 0
    ensures (i + 1) / interval == i / interval + (if i + 1 >= interval * (i / interval + 1) then 1 else 0)
  {
    var q, r := i / interval, i % interval;
    assert i == q * interval + r;
    if r + 1 < interval {
      DivisionIs(i + 1, interval, q, r + 1);
    } else {
      DivisionIs(i + 1, interval, q + 1, 0);
    }
  }

  lemma DivisionIs(n: nat, d: nat, q: nat, r: nat)
    requires n == q * d + r && r < d
    ensures n / d == q
  {
    if n / d < q { assert n / d + 1 <= q; MoreTimes(d, n / d + 1, q); }
    if n / d > q { MoreTimes(d, q + 1, n / d); }
  }

  lemma MoreTimes(d: nat, a: nat, b: nat)
    requires a <= b
    ensures a * d <= b * d
  {
  }

  /** Page by page, that is a line every tenth of the pages, or every page below ten. */
  lemma LinesOfPages(total: nat)
    requires total > 0
    ensures total >= 10 ==> 9 <= (total - 1) / LogInterval(total) <= 18
    ensures total < 10 ==> (total - 1) / LogInterval(total) == total - 1
  {
    if total >= 10 {
      var d := total / 10;
      var q := (total - 1) / d;
      if q < 9 { MoreTimes(d, q + 1, 9); }
      if q > 18 { MoreTimes(d, 19, q); }
    }
  }

  /** The loop against any driver, restarts of the source included: at most nineteen progress
      lines in every case, a line for every tenth of the pages when they come one by one,
      and the final line exactly when the copy completed. */
  method LogRun(total: nat, outcomes: seq<StepOutcome>, cancelledAt: Option<nat>)
    returns (r: CopyResult, progress: nat, final: nat)
    ensures r == if total == 0 then Empty else Ending(outcomes, cancelledAt, 0)
    ensures progress <= 19 && progress <= |outcomes|
    ensures final == if r == Copied then 1 else 0
    ensures PageByPage(total, outcomes) && cancelledAt.None? ==>
              r == Copied && if total < 10 then progress == total - 1 else 9 <= progress <= 18
  {
    ghost var single := PageByPage(total, outcomes) && cancelledAt.None?;
    if total == 0 { return Empty, 0, 0; }
    var m := new ModuloLogger(total);
    progress := 0;
    for i := 0 to |outcomes|
      invariant m.Valid() && m.totalPages == total && progress == m.lines && progress <= i
      invariant Ending(outcomes, cancelledAt, 0) == Ending(outcomes, cancelledAt, i)
      invariant single ==> i < total && progress == i / LogInterval(total)
    {
      AtMostNineteen(total, m.logPageInterval, m.lines);
      if cancelledAt == Some(i) { return Cancelled, progress, 0; }
      match outcomes[i] {
        case Last =>
          LinesOfPages(total);
          return Copied, progress, 1;
        case Fails => return Failed, progress, 0;
        case More(remaining) =>
          var logged := m.Log(remaining);
          NextMultiple(i, LogInterval(total));
          if logged { progress := progress + 1; }
      }
    }
    AtMostNineteen(total, m.logPageInterval, m.lines);
    return Ending(outcomes, cancelledAt, |outcomes|), progress, 0;
  }

  /** A run completes exactly when a last page comes before any failure and cancellation. */
  lemma {:induction false} CompletesExactly(outcomes: seq<StepOutcome>, cancelledAt: Option<nat>, i: nat)
    requires i <= |outcomes|
    ensures Ending(outcomes, cancelledAt, i) == Copied <==>
            exists k :: i <= k < |outcomes| && outcomes[k] == Last
              && (forall j | i <= j < k :: outcomes[j].More?) && (forall j | i <= j <= k :: cancelledAt != Some(j))
    decreases |outcomes| - i
  {
    if i < |outcomes| { CompletesExactly(outcomes, cancelledAt, i + 1); }
  }

  /** The driver's backup object on a source that does not restart: pages are numbered,
      and `copied` lists those written to the destination so far. */
  class Backup {
    const pageCount: nat
    var remaining: nat
    ghost var copied: seq<nat>

    ghost predicate Valid()
      reads this
    {
      remaining <= pageCount && copied == Pages(pageCount - remaining)
    }

    constructor (pages: nat)
      ensures Valid() && pageCount == pages && remaining == pages && fresh(this)
    {
      pageCount, remaining, copied := pages, pages, [];
      new;
      assert copied == Pages(pageCount - remaining);
    }

    /** `Step(n)`: up to n pages; more is false once the last page is written. */
    method Step(n: nat) returns (more: bool)
      requires Valid()
      modifies this
      ensures Valid()
      ensures remaining == if n >= old(remaining) then 0 else old(remaining) - n
      ensures more <==> remaining > 0
    {
      var m := if n >= remaining then remaining else n;
      ghost var done: nat := pageCount - remaining;
      PagesAppend(done, m);
      copied := copied + Numbered(done, m);
      remaining := remaining - m;
      more := remaining > 0;
    }
  }

  function Pages(n: nat): (r: seq<nat>)
    ensures |r| == n && forall i | 0 <= i < n :: r[i] == i
  {
    seq(n, i => i)
  }

  function Numbered(from: nat, m: nat): (r: seq<nat>)
    ensures |r| == m && forall i | 0 <= i < m :: r[i] == from + i
  {
    seq(m, i => from + i)
  }

  lemma PagesAppend(n: nat, m: nat)
    ensures Pages(n) + Numbered(n, m) == Pages(n + m)
  {
  }

  /** What the driver answers on a source that does not restart, from step i on with that
      many pages remaining: step `failsAt` fails, the step that writes the last page ends. */
  function Undisturbed(remaining: nat, pagesPerStep: nat, failsAt: Option<nat>, i: nat): seq<StepOutcome>
    requires pagesPerStep > 0
    decreases remaining
  {
    if failsAt == Some(i) then [Fails]
    else if pagesPerStep >= remaining then [Last]
    else [More(remaining - pagesPerStep)] + Undisturbed(remaining - pagesPerStep, pagesPerStep, failsAt, i + 1)
  }

  /** How the loop ends from step i on. */
  function CopyEnding(remaining: nat, pagesPerStep: nat, failsAt: Option<nat>, cancelledAt: Option<nat>,
                      i: nat): CopyResult
    requires pagesPerStep > 0
    decreases remaining
  {
    if cancelledAt == Some(i) then Cancelled
    else if failsAt == Some(i) then Failed
    else if pagesPerStep >= remaining then Copied
    else CopyEnding(remaining - pagesPerStep, pagesPerStep, failsAt, cancelledAt, i + 1)
  }

  /** It is the ending of the loop against that driver. */
  lemma {:induction false} CopyEndingIsEnding(remaining: nat, pagesPerStep: nat, failsAt: Option<nat>,
                                              cancelledAt: Option<nat>, before: seq<StepOutcome>)
    requires pagesPerStep > 0
    ensures Ending(before + Undisturbed(remaining, pagesPerStep, failsAt, |before|), cancelledAt, |before|) ==
            CopyEnding(remaining, pagesPerStep, failsAt, cancelledAt, |before|)
    decreases remaining
  {
    var i := |before|;
    var outcomes := before + Undisturbed(remaining, pagesPerStep, failsAt, i);
    assert outcomes[i] == Undisturbed(remaining, pagesPerStep, failsAt, i)[0];
    if cancelledAt != Some(i) && failsAt != Some(i) && pagesPerStep < remaining {
      var rest := remaining - pagesPerStep;
      CopyEndingIsEnding(rest, pagesPerStep, failsAt, cancelledAt, before + [More(rest)]);
      assert before + [More(rest)] + Undisturbed(rest, pagesPerStep, failsAt, i + 1) == outcomes;
    }
  }

  /** The ending by the first thing that happens: the step that writes the last page is step
      `last`, and before it comes a cancellation or a failing step, or neither. */
  lemma {:induction false} EndsAtTheFirst(remaining: nat, pagesPerStep: nat, failsAt: Option<nat>,
                                          cancelledAt: Option<nat>,
                                          i: nat) returns (last: nat)
    requires pagesPerStep > 0
    ensures last >= i && remaining <= (last - i + 1) * pagesPerStep
    ensures last > i ==> (last - i) * pagesPerStep < remaining
    ensures var cancelled := cancelledAt.Some? && i <= cancelledAt.value <= last;
            var fails := failsAt.Some? && i <= failsAt.value <= last;
            CopyEnding(remaining, pagesPerStep, failsAt, cancelledAt, i) ==
              if cancelled && (!fails || cancelledAt.value <= failsAt.value) then Cancelled
              else if fails then Failed else Copied
    decreases remaining
  {
    last := i;
    if pagesPerStep < remaining {
      last := EndsAtTheFirst(remaining - pagesPerStep, pagesPerStep, failsAt, cancelledAt, i + 1);
      var n := last - i;
      assert (n - 1) * pagesPerStep + pagesPerStep == n * pagesPerStep;
      assert (n - 1 + 1) * pagesPerStep + pagesPerStep == (n + 1) * pagesPerStep;
    } else {
      assert (last - i) * pagesPerStep == 0 && (last - i + 1) * pagesPerStep == pagesPerStep;
    }
  }

  /** `Copy`: with a positive step size and an undisturbed source it ends after writing
      every page exactly once, in order. `opens` says whether the backup could be started;
      `failsAt` and `cancelledAt` are the numbers of steps after which a step fails or the
      context is found cancelled. */
  method Copy(b: Backup, pagesPerStep: nat, opens: bool, failsAt: Option<nat>, cancelledAt: Option<nat>)
    returns (r: CopyResult, progress: nat, final: nat)
    requires b.Valid() && b.remaining == b.pageCount && pagesPerStep > 0
    modifies b
    ensures b.Valid() && progress <= 19
    ensures r == if !opens then Failed else if b.pageCount == 0 then Empty
                 else Ending(Undisturbed(b.pageCount, pagesPerStep, failsAt, 0), cancelledAt, 0)
    ensures r != Copying && (r == Empty <==> opens && b.pageCount == 0)
    ensures cancelledAt.None? ==> r != Cancelled
    ensures opens && failsAt.None? ==> r != Failed
    ensures r == Copied ==> b.remaining == 0 && b.copied == Pages(b.pageCount)
    ensures opens && b.pageCount > 0 && cancelledAt.None? && failsAt.None? ==> r == Copied
    ensures final == if r == Copied then 1 else 0
  {
    progress := 0;
    if !opens { return Failed, 0, 0; }
    var _ := b.Step(0);
    if b.pageCount == 0 { return Empty, 0, 0; }
    var m := new ModuloLogger(b.pageCount);
    var steps := 0;
    CopyEndingIsEnding(b.pageCount, pagesPerStep, failsAt, cancelledAt, []);
    assert [] + Undisturbed(b.pageCount, pagesPerStep, failsAt, 0) ==
      Undisturbed(b.pageCount, pagesPerStep, failsAt, 0);
    ghost var last := EndsAtTheFirst(b.pageCount, pagesPerStep, failsAt, cancelledAt, 0);
    while true
      invariant b.Valid() && b.remaining > 0 && m.Valid() && fresh(m)
      invariant m.totalPages == b.pageCount && progress == m.lines
      invariant CopyEnding(b.remaining, pagesPerStep, failsAt, cancelledAt, steps) ==
                CopyEnding(b.pageCount, pagesPerStep, failsAt, cancelledAt, 0)
      decreases b.remaining
    {
      AtMostNineteen(m.totalPages, m.logPageInterval, m.lines);
      if cancelledAt == Some(steps) { return Cancelled, progress, 0; }
      if failsAt == Some(steps) { return Failed, progress, 0; }
      var more := b.Step(pagesPerStep);
      steps := steps + 1;
      if !more { return Copied, progress, 1; }
      var logged := m.Log(b.remaining);
      if logged { progress := progress + 1; }
    }
  }
}
