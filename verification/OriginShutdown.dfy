/** The origin daemon's accept loop, its unbounded group of connection handlers, and the
    order in which they end. */
module OriginShutdown {

  /** Where the daemon goroutine is: in the loop, in `group.Wait`, and then in its two
      deferred calls, last registered first. */
  datatype Phase = Looping | Joining | ClosingListener | Signalling | Finished

  /** `serving`: inside `handleConn`. `unwinding`: its deferred close has run, by return
      or by panic, and the group function is about to end. `gone`: the goroutine ended. */
  datatype State = State(
    phase: Phase, cancelled: bool, listening: bool,
    serving: set<nat>, unwinding: set<nat>, gone: set<nat>,
    open: set<nat>, panicked: set<nat>, signals: nat)

  const START := State(Looping, false, true, {}, {}, {}, {}, {}, 0)

  datatype Step =
    | Accept(id: nat)              // a new connection; its handler starts
    | AcceptFails                  // a transient error: the loop goes on
    | Cancel                       // Stop
    | StopCloses                   // the goroutine behind Ctx.Done closes the listener
    | LoopEnds                     // Accept reports net.ErrClosed
    | Returns(id: nat)             // handleConn returns: the connection is closed
    | Panics(id: nat)              // handleConn panics: its deferred close still runs
    | Leaves(id: nat)              // the recovering group function returns
    | WaitReturns
    | DeferCloses
    | Signal                       // close(ShutdownDone)

  predicate Enabled(s: State, step: Step) {
    match step
    case Accept(id) => s.phase.Looping? && s.listening && id !in s.serving + s.unwinding + s.gone
    case AcceptFails => s.phase.Looping? && s.listening
    case Cancel => !s.cancelled
    case StopCloses => s.cancelled && s.listening
    case LoopEnds => s.phase.Looping? && !s.listening
    case Returns(id) => id in s.serving
    case Panics(id) => id in s.serving
    case Leaves(id) => id in s.unwinding
    case WaitReturns => s.phase.Joining? && s.serving == {} && s.unwinding == {}
    case DeferCloses => s.phase.ClosingListener?
    case Signal => s.phase.Signalling?
  }

  function Next(s: State, step: Step): State
    requires Enabled(s, step)
  {
    match step
    case Accept(id) => s.(serving := s.serving + {id}, open := s.open + {id})
    case AcceptFails => s
    case Cancel => s.(cancelled := true)
    case StopCloses => s.(listening := false)
    case LoopEnds => s.(phase := Joining)
    case Returns(id) => s.(serving := s.serving - {id}, unwinding := s.unwinding + {id}, open := s.open - {id})
    case Panics(id) => s.(serving := s.serving - {id}, unwinding := s.unwinding + {id}, open := s.open - {id},
      panicked := s.panicked + {id})
    case Leaves(id) => s.(unwinding := s.unwinding - {id}, gone := s.gone + {id})
    case WaitReturns => s.(phase := ClosingListener)
    case DeferCloses => s.(phase := Signalling, listening := false)
    case Signal => s.(phase := Finished, signals := s.signals + 1)
  }

  /** Every connection ever accepted. */
  function Accepted(s: State): set<nat> { s.serving + s.unwinding + s.gone }

  ghost predicate Inv(s: State) {
    && s.open == s.serving
    && s.serving !! s.unwinding !! s.gone
    && (!s.listening ==> s.cancelled)
    && (!s.phase.Looping? ==> !s.listening)
    && (!s.phase.Looping? && !s.phase.Joining? ==> s.serving == {} && s.unwinding == {})
    && s.signals == (if s.phase.Finished? then 1 else 0)
  }

  ghost predicate Runs(s: State, steps: seq<Step>)
    decreases |steps|
  {
    steps == [] || (Enabled(s, steps[0]) && Runs(Next(s, steps[0]), steps[1..]))
  }

  ghost function After(s: State, steps: seq<Step>): State
    requires Runs(s, steps)
    decreases |steps|
  {
    if steps == [] then s else After(Next(s, steps[0]), steps[1..])
  }

  lemma {:induction false} RunInv(s: State, steps: seq<Step>)
    requires Inv(s) && Runs(s, steps)
    ensures Inv(After(s, steps))
    ensures Accepted(s) <= Accepted(After(s, steps)) && s.signals <= After(s, steps).signals
    ensures !s.listening ==> Accepted(After(s, steps)) == Accepted(s)
    decreases |steps|
  {
    if steps != [] { RunInv(Next(s, steps[0]), steps[1..]); }
  }

  /** `ShutdownDone` closes at most once, and only after Stop, after the listener and the
      loop are finished, and after the handler of every accepted connection has ended with
      its connection closed, whether it returned or panicked. */
  lemma SignalComesLast(steps: seq<Step>)
    requires Runs(START, steps)
    ensures var s := After(START, steps);
            && s.signals <= 1
            && (s.signals == 1 ==>
              s.cancelled && !s.listening && s.phase.Finished? && s.gone == Accepted(s) && s.open == {})
            && s.panicked <= Accepted(s) - s.open
  {
    RunInv(START, steps);
    PanicsClose(START, steps);
  }

  lemma {:induction false} PanicsClose(s: State, steps: seq<Step>)
    requires Inv(s) && s.panicked <= Accepted(s) - s.open && Runs(s, steps)
    ensures After(s, steps).panicked <= Accepted(After(s, steps)) - After(s, steps).open
    decreases |steps|
  {
    if steps != [] {
      RunInv(s, [steps[0]]);
      PanicsClose(Next(s, steps[0]), steps[1..]);
    }
  }

  /** Nothing is accepted, and nothing signalled again, after the signal. */
  lemma SignalIsFinal(steps: seq<Step>, more: seq<Step>)
    requires Runs(START, steps) && After(START, steps).signals == 1 && Runs(After(START, steps), more)
    ensures var s, t := After(START, steps), After(After(START, steps), more);
            t.signals == 1 && Accepted(t) == Accepted(s)
  {
    RunInv(START, steps);
    RunInv(After(START, steps), more);
  }

  // ---------- shutdown ends ----------

  function PhaseRank(p: Phase): nat {
    match p case Looping => 4 case Joining => 3 case ClosingListener => 2 case Signalling => 1 case Finished => 0
  }

  function Measure(s: State): nat { 2 * |s.serving| + |s.unwinding| + PhaseRank(s.phase) }

  /** With the listener closed every step is progress. */
  lemma ShutdownStepDecreases(s: State, step: Step)
    requires Inv(s) && !s.listening && Enabled(s, step)
    ensures !Next(s, step).listening && Measure(Next(s, step)) < Measure(s)
  {
    match step
    case Returns(id) =>
      assert |s.serving - {id}| == |s.serving| - 1;
      assert |s.unwinding + {id}| == |s.unwinding| + 1;
    case Panics(id) =>
      assert |s.serving - {id}| == |s.serving| - 1;
      assert |s.unwinding + {id}| == |s.unwinding| + 1;
    case Leaves(id) => assert |s.unwinding - {id}| == |s.unwinding| - 1;
    case _ =>
  }

  /** Once Stop has been called, until the signal there is always a step towards it, given
      that handlers end. */
  lemma ShutdownNeverStuck(steps: seq<Step>)
    requires Runs(START, steps) && After(START, steps).cancelled
    ensures var s := After(START, steps);
            s.phase.Finished? || exists step :: Enabled(s, step) && (s.listening ==> step == StopCloses)
  {
    RunInv(START, steps);
    var s := After(START, steps);
    if s.listening {
      assert Enabled(s, StopCloses);
    } else if s.serving != {} {
      var id :| id in s.serving;
      assert Enabled(s, Returns(id));
    } else if s.unwinding != {} {
      var id :| id in s.unwinding;
      assert Enabled(s, Leaves(id));
    } else {
      var step := match s.phase case Looping => LoopEnds case Joining => WaitReturns
        case ClosingListener => DeferCloses case _ => Signal;
      assert s.phase.Finished? || Enabled(s, step);
    }
  }

  lemma {:induction false} ShutdownIsBounded(s: State, steps: seq<Step>)
    requires Inv(s) && !s.listening && Runs(s, steps)
    ensures |steps| <= Measure(s)
    decreases |steps|
  {
    if steps != [] {
      ShutdownStepDecreases(s, steps[0]);
      RunInv(s, [steps[0]]);
      ShutdownIsBounded(Next(s, steps[0]), steps[1..]);
    }
  }
}
