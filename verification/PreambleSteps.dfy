/** The two sides of the handshake as they are coded, over one stream each. Each call is
    shown to be a run of the protocol, broken connections included. */
module PreambleSteps {
  import opened Text
  import opened Label
  import opened Preamble

  // ---------- runs ----------

  lemma {:induction false} RunAppend(s: State, a: seq<Step>, b: seq<Step>)
    requires Runs(s, a) && Runs(After(s, a), b)
    ensures Runs(s, a + b) && After(s, a + b) == After(After(s, a), b)
    decreases |a|
  {
    hide Enabled, Next;
    if a == [] {
      assert a + b == b;
    } else {
      assert (a + b)[0] == a[0] && (a + b)[1..] == a[1..] + b;
      RunAppend(Next(s, a[0]), a[1..], b);
    }
  }

  lemma RunOne(s: State, step: Step)
    requires Enabled(s, step)
    ensures Runs(s, [step]) && After(s, [step]) == Next(s, step)
  {
    hide Enabled, Next;
    OneStep(s, step, []);
    assert [step] + [] == [step];
  }

  /** Whole messages and what is left of the stream. */
  lemma MessageShape(b: Bytes)
    requires ParseMessage(b).Message?
    ensures var m := ParseMessage(b);
            var n := |b| - |m.rest|;
            && n == 5 + |m.text| && ParseMessage(b[..n]) == Message(m.first, m.text, []) && b[n..] == m.rest
            && b[..n] == Encode(m.first, m.text)
            && (m.text != [] ==> ParseMessage(b[..5]) == NeedMore && Wanted(b[..5]) == |m.text|)
  {
    hide Encode, FromBigEndian;
    var m := ParseMessage(b);
    var e := Encode(m.first, m.text);
    ParsedIsEncoded(b);
    EncodeShape(m.first, m.text, m.rest);
    RoundTrip(m.first, m.text, []);
    assert e + [] == e;
    assert b[..|e|] == e;
    assert b[..5][1..5] == b[1..5];
  }

  lemma ShortReads(b: Bytes)
    requires ParseMessage(b).NeedMore? && b != []
    ensures |b| >= 5 ==> ParseMessage(b[..5]).NeedMore? && |b| - 5 < Wanted(b[..5])
    ensures |b| < 5 ==> Wanted([]) > |b|
  {
    hide FromBigEndian;
    if |b| >= 5 { assert b[..5][1..5] == b[1..5]; }
  }

  lemma LongReads(b: Bytes)
    requires ParseMessage(b).TooLong?
    ensures |b| >= 5 && ParseMessage(b[..5]).TooLong?
  {
    hide FromBigEndian;
    assert b[..5][1..5] == b[1..5];
  }

  // ---------- what a side does with its input ----------

  /** How many bytes reading a message takes off a stream that ends after `b`. */
  function Taken(b: Bytes): (n: nat)
    ensures n <= |b|
  {
    match ParseMessage(b)
    case Message(_, text, rest) => |b| - |rest|
    case TooLong => 5
    case NeedMore => |b|
  }

  ghost predicate OriginRead(s: State, t: State, n: nat)
    requires InBounds(s) && n <= |UnreadByOrigin(s)|
  {
    var o := Resolve(UnreadByOrigin(s)[..n], s.cfg);
    t == s.(oTaken := s.oTaken + n, origin := o, agreed := if o.Echoing? then Some((o.lbl, o.source)) else s.agreed)
  }

  /** One read step from a point where part of the message has been read. */
  lemma OriginReadsOn(s: State, t: State, n: nat, k: nat)
    requires InBounds(s) && s.origin == ReadingLabel([]) && n + k <= |UnreadByOrigin(s)| && k > 0
    requires OriginRead(s, t, n) && t.agreed == s.agreed && t.origin == ReadingLabel(UnreadByOrigin(s)[..n])
    requires ParseMessage(UnreadByOrigin(s)[..n]).NeedMore? && k <= Wanted(UnreadByOrigin(s)[..n])
    ensures Enabled(t, OriginReads(k)) && OriginRead(s, Next(t, OriginReads(k)), n + k)
  {
    hide ParseMessage, Wanted, Resolve;
    var u := UnreadByOrigin(s);
    assert UnreadByOrigin(t) == u[n..];
    assert u[..n] + u[n..][..k] == u[..n + k];
  }

  /** Reading the label off what arrives, some beginning `u` of what was sent, is a run of
      the protocol. */
  lemma OriginReadRun(s: State, u: Bytes) returns (steps: seq<Step>)
    requires InBounds(s) && s.origin == ReadingLabel([]) && u <= UnreadByOrigin(s)
    ensures Runs(s, steps) && OriginRead(s, After(s, steps), Taken(u))
  {
    hide Resolve, Wanted, ParseMessage;
    assert forall n | 0 <= n <= |u| :: UnreadByOrigin(s)[..n] == u[..n];
    EmptyNeedsMore();
    NothingRead(s);
    steps := [];
    if u != [] {
      if ParseMessage(u).NeedMore? { ShortReads(u); }
      if ParseMessage(u).TooLong? { LongReads(u); }
      if ParseMessage(u).Message? { MessageShape(u); }
      var k := if |u| < 5 then |u| else 5;
      FirstWanted();
      OriginReadsOn(s, s, 0, k);
      RunOne(s, OriginReads(k));
      steps := [OriginReads(k)];
      var more := Taken(u) - k;
      if more > 0 {
        var t := Next(s, OriginReads(k));
        StillReading(u[..k], s.cfg);
        OriginReadsOn(s, t, k, more);
        RunOne(t, OriginReads(more));
        RunAppend(s, steps, [OriginReads(more)]);
        steps := steps + [OriginReads(more)];
      }
      assert u[..|u|] == u;
    }
  }

  lemma FirstWanted()
    ensures Wanted([]) == 5
  {
  }

  lemma StillReading(got: Bytes, cfg: Config)
    requires ParseMessage(got).NeedMore?
    ensures Resolve(got, cfg) == ReadingLabel(got) && Judge(got) == Reading(got)
  {
  }

  lemma NothingRead(s: State)
    requires InBounds(s) && s.origin == ReadingLabel([])
    ensures OriginRead(s, s, 0)
  {
    hide Served;
    assert UnreadByOrigin(s)[..0] == [];
  }

  /** Writing an answer, whole or broken off. */
  lemma OriginSendRun(s: State, k: nat) returns (steps: seq<Step>)
    requires InBounds(s) && (s.origin.NoFiles? || s.origin.Rejecting? || s.origin.Echoing?)
    requires s.origin.rest != [] && k <= |s.origin.rest|
    ensures Runs(s, steps)
    ensures var t := After(s, steps);
            && t == s.(origin := t.origin, oOut := s.oOut + s.origin.rest[..k], faulted := t.faulted)
            && (k == |s.origin.rest| ==>
                  t.origin == (if s.origin.Echoing? then Serving(s.origin.lbl, s.origin.source) else Closed)
                    && t.faulted == s.faulted)
            && (k < |s.origin.rest| ==> t.origin.Closed? && t.faulted)
  {
    var rest := s.origin.rest;
    assert s.oOut + rest[..0] == s.oOut;
    if k == 0 {
      RunOne(s, OriginGivesUp);
      steps := [OriginGivesUp];
    } else {
      RunOne(s, OriginSends(k));
      steps := [OriginSends(k)];
      if k < |rest| {
        var t := Next(s, OriginSends(k));
        RunOne(t, OriginGivesUp);
        RunAppend(s, steps, [OriginGivesUp]);
        steps := steps + [OriginGivesUp];
      }
    }
  }

  ghost predicate ReplicaRead(s: State, t: State, n: nat)
    requires InBounds(s) && n <= |UnreadByReplica(s)|
  {
    t == s.(rTaken := s.rTaken + n, replica := Judge(UnreadByReplica(s)[..n]))
  }

  lemma ReplicaReadsOn(s: State, t: State, n: nat, k: nat)
    requires InBounds(s) && s.replica == Reading([]) && n + k <= |UnreadByReplica(s)| && k > 0
    requires ReplicaRead(s, t, n) && t.replica == Reading(UnreadByReplica(s)[..n])
    requires ParseMessage(UnreadByReplica(s)[..n]).NeedMore? && k <= Wanted(UnreadByReplica(s)[..n])
    ensures Enabled(t, ReplicaReads(k)) && ReplicaRead(s, Next(t, ReplicaReads(k)), n + k)
  {
    hide ParseMessage, Wanted, Judge;
    var u := UnreadByReplica(s);
    assert UnreadByReplica(t) == u[n..];
    assert u[..n] + u[n..][..k] == u[..n + k];
  }

  /** Reading the answer off what arrives is a run of the protocol. */
  lemma ReplicaReadRun(s: State, u: Bytes) returns (steps: seq<Step>)
    requires InBounds(s) && s.replica == Reading([]) && u <= UnreadByReplica(s)
    ensures Runs(s, steps) && ReplicaRead(s, After(s, steps), Taken(u))
  {
    hide Judge, Wanted, ParseMessage;
    assert forall n | 0 <= n <= |u| :: UnreadByReplica(s)[..n] == u[..n];
    EmptyNeedsMore();
    StillReading([], s.cfg);
    assert u[..0] == [];
    steps := [];
    if u != [] {
      if ParseMessage(u).NeedMore? { ShortReads(u); }
      if ParseMessage(u).TooLong? { LongReads(u); }
      if ParseMessage(u).Message? { MessageShape(u); }
      var k := if |u| < 5 then |u| else 5;
      FirstWanted();
      ReplicaReadsOn(s, s, 0, k);
      RunOne(s, ReplicaReads(k));
      steps := [ReplicaReads(k)];
      var more := Taken(u) - k;
      if more > 0 {
        var t := Next(s, ReplicaReads(k));
        StillReading(u[..k], s.cfg);
        ReplicaReadsOn(s, t, k, more);
        RunOne(t, ReplicaReads(more));
        RunAppend(s, steps, [ReplicaReads(more)]);
        steps := steps + [ReplicaReads(more)];
      }
      assert u[..|u|] == u;
    }
  }

  lemma ReplicaSendRun(s: State, k: nat) returns (steps: seq<Step>)
    requires InBounds(s) && s.replica.Sending? && s.replica.rest != [] && k <= |s.replica.rest|
    ensures Runs(s, steps) && forall i | 0 <= i < |steps| :: OriginIdle(steps[i])
    ensures var t := After(s, steps);
            && t == s.(replica := t.replica, rOut := s.rOut + s.replica.rest[..k], faulted := t.faulted)
            && t.replica == (if k == |s.replica.rest| then Reading([]) else Failed)
            && t.faulted == (s.faulted || k < |s.replica.rest|)
  {
    var rest := s.replica.rest;
    assert s.rOut + rest[..0] == s.rOut;
    if k == 0 {
      RunOne(s, ReplicaCancels);
      steps := [ReplicaCancels];
    } else {
      RunOne(s, ReplicaSends(k));
      steps := [ReplicaSends(k)];
      if k < |rest| {
        var t := Next(s, ReplicaSends(k));
        RunOne(t, ReplicaCancels);
        RunAppend(s, steps, [ReplicaCancels]);
        steps := steps + [ReplicaCancels];
      }
    }
  }

  // ---------- the code ----------

  /** `entries`: the configured entries without the deactivated ones. */
  method Entries(cfg: Config) returns (filtered: Config)
    ensures filtered == Served(cfg)
    ensures forall l :: l in filtered <==> l in cfg && cfg[l] != ""
    ensures forall l | l in filtered :: filtered[l] == cfg[l]
  {
    filtered := map[];
    var todo := cfg.Keys;
    while todo != {}
      invariant todo <= cfg.Keys
      invariant filtered == map l | l in cfg && l !in todo && cfg[l] != "" :: cfg[l]
    {
      var l :| l in todo;
      todo := todo - {l};
      if cfg[l] == "" { continue; }
      filtered := filtered[l := cfg[l]];
    }
  }

  /** The origin of `s` has just accepted a connection. */
  ghost predicate JustAccepted(s: State, cfg: Config) {
    InBounds(s) && s.origin.Accepted? && s.cfg == cfg && s.oOut == [] && s.agreed.None?
  }

  /** Steps of everybody else: the replica, and whoever reloads the configuration. */
  predicate OriginIdle(step: Step) {
    && !step.OriginStarts? && !step.OriginSends? && !step.OriginReads? && !step.OriginSeesEnd?
    && !step.OriginSyncs? && !step.OriginTakes? && !step.OriginGivesUp?
  }

  /** What happens between the start of the origin's handler and its lookup, in any order:
      the configuration becomes `atLookup`, and `input` has been sent. A deadline or a broken
      connection may keep more from arriving than that. */
  ghost predicate Meanwhile(s: State, env: seq<Step>, atLookup: Config, input: Bytes) {
    Runs(s, env) && (forall i | 0 <= i < |env| :: OriginIdle(env[i])) &&
    var t := After(s, env);
    InBounds(t) && t.cfg == atLookup && input <= UnreadByOrigin(t)
  }

  lemma {:induction false} IdleFrame(s: State, env: seq<Step>)
    requires Runs(s, env) && forall i | 0 <= i < |env| :: OriginIdle(env[i])
    ensures var t := After(s, env);
            t.origin == s.origin && t.oTaken == s.oTaken && t.oOut == s.oOut && t.agreed == s.agreed
    decreases |env|
  {
    hide Judge, Resolve, Served, ParseMessage, Wanted;
    if env != [] {
      assert Enabled(s, env[0]);
      IdleFrame(Next(s, env[0]), env[1..]);
    }
  }

  /** The state in which the origin takes its next steps. */
  ghost function BeforeLookup(s: State, cfg: Config, env: seq<Step>): State
    requires JustAccepted(s, cfg) && (|Served(cfg)| != 0 ==> Runs(Next(s, OriginStarts), env))
  {
    if |Served(cfg)| == 0 then Next(s, OriginStarts) else After(Next(s, OriginStarts), env)
  }

  /** A run of the protocol from `s`, going on from `b`, in which the origin does what the
      call did. */
  ghost predicate OriginDid(s: State, b: State, steps: seq<Step>, agreed: Option<(Bytes, Source)>, output: Bytes,
                            taken: nat) {
    Runs(s, steps) &&
    var t := After(s, steps);
    && InBounds(t)
    && t == b.(origin := t.origin, oTaken := b.oTaken + taken, oOut := output, agreed := t.agreed, faulted := t.faulted)
    && (match agreed
        case Some(a) => t.origin == Serving(a.0, a.1) && t.agreed == agreed
        case None => t.origin.Closed? && (t.agreed.Some? ==> |output| < |Request(t.agreed.value.0)|))
  }

  lemma NoFilesRun(s: State, cfg: Config, k: nat) returns (steps: seq<Step>)
    requires JustAccepted(s, cfg) && |Served(cfg)| == 0 && k <= |NO_FILES_MSG|
    ensures OriginDid(s, Next(s, OriginStarts), steps, None, NO_FILES_MSG[..k], 0)
  {
    hide Encode, Ascii, Served;
    Constants();
    RunOne(s, OriginStarts);
    var t := Next(s, OriginStarts);
    var more := OriginSendRun(t, k);
    RunAppend(s, [OriginStarts], more);
    steps := [OriginStarts] + more;
    assert [] + NO_FILES_MSG[..k] == NO_FILES_MSG[..k];
  }

  /** Started, everything else that happened until the lookup, and the label read. */
  lemma LabelRun(s: State, atStart: Config, atLookup: Config, env: seq<Step>, input: Bytes) returns (steps: seq<Step>)
    requires JustAccepted(s, atStart) && |Served(atStart)| != 0
    requires Meanwhile(Next(s, OriginStarts), env, atLookup, input)
    ensures Runs(s, steps)
    ensures var t, b := After(s, steps), After(Next(s, OriginStarts), env);
            var o := Resolve(input[..Taken(input)], atLookup);
            && InBounds(t)
            && t == b.(origin := o, oTaken := b.oTaken + Taken(input),
                       agreed := if o.Echoing? then Some((o.lbl, o.source)) else None)
            && t.oOut == []
  {
    hide Resolve, Served, Taken;
    var s1 := Next(s, OriginStarts);
    RunOne(s, OriginStarts);
    RunAppend(s, [OriginStarts], env);
    IdleFrame(s1, env);
    var b := After(s1, env);
    var more := OriginReadRun(b, input);
    RunAppend(s, [OriginStarts] + env, more);
    steps := [OriginStarts] + env + more;
    assert UnreadByOrigin(b)[..Taken(input)] == input[..Taken(input)];
  }

  /** What the label decides. */
  lemma Decided(input: Bytes, cfg: Config)
    ensures var o := Resolve(input[..Taken(input)], cfg);
            match ParseMessage(input)
            case Message(first, text, _) =>
              o == (if first != LABEL_BYTE then Closed
                    else if text in Served(cfg) then Echoing(Request(text), text, Served(cfg)[text])
                    else Rejecting(UNKNOWN_MSG))
            case TooLong => o == Closed
            case NeedMore => o == ReadingLabel(input)
  {
    hide FromBigEndian, Encode, Served, Ascii;
    if ParseMessage(input).Message? { MessageShape(input); }
    if ParseMessage(input).TooLong? { LongReads(input); }
    assert input[..|input|] == input;
  }

  lemma GiveUpRun(s: State, atStart: Config, atLookup: Config, env: seq<Step>, input: Bytes) returns (steps: seq<Step>)
    requires JustAccepted(s, atStart) && |Served(atStart)| != 0
    requires Meanwhile(Next(s, OriginStarts), env, atLookup, input)
    requires match ParseMessage(input) case Message(first, _, _) => first != LABEL_BYTE case _ => true
    ensures OriginDid(s, After(Next(s, OriginStarts), env), steps, None, [], Taken(input))
  {
    hide Served, ParseMessage, Taken, Resolve, Ascii, Encode;
    steps := LabelRun(s, atStart, atLookup, env, input);
    Decided(input, atLookup);
    var t := After(s, steps);
    if !t.origin.Closed? {
      var last := if ReplicaGone(t) && UnreadByOrigin(t) == [] then OriginSeesEnd else OriginGivesUp;
      RunOne(t, last);
      RunAppend(s, steps, [last]);
      steps := steps + [last];
    }
  }

  lemma AnswerRun(s: State, atStart: Config, atLookup: Config, env: seq<Step>, input: Bytes, k: nat)
    returns (steps: seq<Step>)
    requires JustAccepted(s, atStart) && |Served(atStart)| != 0
    requires Meanwhile(Next(s, OriginStarts), env, atLookup, input)
    requires ParseMessage(input).Message? && ParseMessage(input).first == LABEL_BYTE
    requires k <= |if ParseMessage(input).text in Served(atLookup) then Request(ParseMessage(input).text)
                   else UNKNOWN_MSG|
    ensures var text := ParseMessage(input).text;
            var found := text in Served(atLookup);
            var answer := if found then Request(text) else UNKNOWN_MSG;
            OriginDid(s, After(Next(s, OriginStarts), env), steps,
                      if found && k == |answer| then Some((text, Served(atLookup)[text])) else None,
                      answer[..k], Taken(input))
  {
    hide Served, ParseMessage, Taken, Resolve, Ascii, Encode;
    Constants();
    steps := LabelRun(s, atStart, atLookup, env, input);
    Decided(input, atLookup);
    var t := After(s, steps);
    NonEmptyRequest(ParseMessage(input).text);
    var more := OriginSendRun(t, k);
    RunAppend(s, steps, more);
    steps := steps + more;
  }

  /** `handleConn` up to the sync. What arrives before a deadline, a close or a broken
      connection is `r.rest`; `failHeader` and `failText` break off the one write. The
      configuration is read twice, and `env` is whatever happens in between. */
  method HandleConn(r: Reader, w: Writer, atStart: Config, atLookup: Config, failHeader: Option<nat>,
                    failText: Option<nat>, ghost s: State, ghost env: seq<Step>)
    returns (agreed: Option<(Bytes, Source)>, ghost steps: seq<Step>)
    requires w.out == [] && JustAccepted(s, atStart)
    requires |Served(atStart)| != 0 ==> Meanwhile(Next(s, OriginStarts), env, atLookup, r.rest)
    modifies r, w
    ensures |r.rest| <= |old(r.rest)|
    ensures OriginDid(s, BeforeLookup(s, atStart, env), steps, agreed, w.out, |old(r.rest)| - |r.rest|)
    ensures ServesNothing(atStart) ==> agreed.None? && r.rest == old(r.rest)
    ensures agreed.Some? ==> Serves(atLookup, agreed.value.0) && agreed.value.1 == atLookup[agreed.value.0]
    ensures failHeader.None? && failText.None? && ServesNothing(atStart) ==> w.out == NO_FILES_MSG
    ensures failHeader.None? && failText.None? && !ServesNothing(atStart) ==>
              match ParseMessage(old(r.rest))
              case Message(first, text, more) =>
                && r.rest == more
                && (first != LABEL_BYTE ==> agreed.None? && w.out == [])
                && (first == LABEL_BYTE && Serves(atLookup, text) ==>
                      agreed == Some((text, atLookup[text])) && w.out == Request(text))
                && (first == LABEL_BYTE && !Serves(atLookup, text) ==> agreed.None? && w.out == UNKNOWN_MSG)
              case _ => agreed.None? && w.out == []
  {
    hide Encode, Ascii, ParseMessage, Served, OriginDid, Runs, After, Next, ServesNothing;
    Constants();
    ServedAre(atStart);
    ServedAre(atLookup);
    ghost var all := r.rest;
    var entries := Entries(atStart);
    if |entries| == 0 {
      var sent := Write(w, ERROR_BYTE, NO_FILES, failHeader, failText);
      WrittenPart(NO_FILES_MSG, w.out, sent);
      steps := NoFilesRun(s, atStart, |w.out|);
      return None, steps;
    }
    var m := Read(r);
    RestIs(all, r.rest);
    if m.None? {
      steps := GiveUpRun(s, atStart, atLookup, env, all);
      return None, steps;
    }
    if m.value.0 != LABEL_BYTE {
      steps := GiveUpRun(s, atStart, atLookup, env, all);
      return None, steps;
    }
    var lbl := m.value.1;
    entries := Entries(atLookup);
    if lbl !in entries {
      var sent := Write(w, ERROR_BYTE, UNKNOWN, failHeader, failText);
      WrittenPart(UNKNOWN_MSG, w.out, sent);
      steps := AnswerRun(s, atStart, atLookup, env, all, |w.out|);
      return None, steps;
    }
    ParsedIsEncoded(all);
    var sent := Write(w, LABEL_BYTE, lbl, failHeader, failText);
    WrittenPart(Request(lbl), w.out, sent);
    steps := AnswerRun(s, atStart, atLookup, env, all, |w.out|);
    if sent != Written { return None, steps; }
    return Some((lbl, entries[lbl])), steps;
  }

  /** What `Write` leaves on a fresh connection is a beginning of the message, and all of it
      exactly on success. */
  lemma WrittenPart(message: Bytes, out: Bytes, result: WriteResult)
    requires result.Written? ==> out == [] + message
    requires result.Broken? ==> out < [] + message
    requires !result.RefusedTooLong?
    ensures |out| <= |message| && out == message[..|out|] && (result.Written? <==> |out| == |message|)
  {
    assert [] + message == message;
    assert message[..|message|] == message;
  }

  /** What `Read` leaves unread. */
  lemma RestIs(all: Bytes, rest: Bytes)
    requires match ParseMessage(all)
             case Message(_, _, more) => rest == more
             case TooLong => |all| >= 5 ==> rest == all[5..]
             case NeedMore => rest == []
    ensures rest == all[Taken(all)..]
  {
    hide FromBigEndian;
  }

  /** A run in which the replica does what the call did, in two legs: sending the label, and
      reading whatever answer had arrived by then. */
  ghost predicate ReplicaSent(s: State, steps: seq<Step>, output: Bytes, ok: bool) {
    Runs(s, steps) && (forall i | 0 <= i < |steps| :: OriginIdle(steps[i])) &&
    var t := After(s, steps);
    t == s.(replica := if ok then Reading([]) else Failed, rOut := s.rOut + output, faulted := t.faulted)
  }

  ghost predicate ReplicaHeard(s: State, steps: seq<Step>, verdict: Replica, taken: nat) {
    Runs(s, steps) &&
    var t := After(s, steps);
    InBounds(t) && t == s.(replica := verdict, rTaken := s.rTaken + taken, faulted := t.faulted)
  }

  lemma SendLabelRun(s: State, lbl: Bytes, k: nat) returns (steps: seq<Step>)
    requires InBounds(s) && s.replica == Sending(Request(lbl)) && k <= |Request(lbl)|
    ensures ReplicaSent(s, steps, Request(lbl)[..k], k == |Request(lbl)|)
  {
    hide Encode;
    NonEmptyRequest(lbl);
    steps := ReplicaSendRun(s, k);
  }

  lemma HearRun(s: State, input: Bytes) returns (steps: seq<Step>)
    requires InBounds(s) && s.replica == Reading([]) && input <= UnreadByReplica(s)
    ensures ReplicaHeard(s, steps, Verdict(input), Taken(input))
  {
    hide ParseMessage, Taken;
    steps := ReplicaReadRun(s, input);
    var t := After(s, steps);
    assert UnreadByReplica(s)[..Taken(input)] == input[..Taken(input)];
    if ParseMessage(input).Message? { MessageShape(input); TakenMessage(input); }
    if ParseMessage(input).TooLong? { LongReads(input); TakenFive(input); }
    if ParseMessage(input).NeedMore? {
      TakenAll(input);
      assert input[..|input|] == input;
      var last := if t.origin.Closed? && UnreadByReplica(t) == [] then ReplicaSeesEnd else ReplicaCancels;
      StillReading(input, s.cfg);
      RunOne(t, last);
      RunAppend(s, steps, [last]);
      steps := steps + [last];
    }
  }

  lemma TakenAll(input: Bytes)
    requires ParseMessage(input).NeedMore?
    ensures Taken(input) == |input|
  {
    hide ParseMessage;
  }

  lemma TakenMessage(b: Bytes)
    requires ParseMessage(b).Message?
    ensures Taken(b) == |b| - |ParseMessage(b).rest|
  {
    hide ParseMessage;
  }

  lemma TakenFive(b: Bytes)
    requires ParseMessage(b).TooLong?
    ensures Taken(b) == 5
  {
    hide ParseMessage;
  }

  /** What the replica concludes from everything that arrives. */
  function Verdict(input: Bytes): Replica {
    match ParseMessage(input)
    case Message(first, text, _) => if first == LABEL_BYTE then Syncing else Rejected(text)
    case _ => Failed
  }

  /** The first leg of `runSync`: the label goes out, whole or broken off. */
  method SendLabel(w: Writer, lbl: Bytes, failHeader: Option<nat>, failText: Option<nat>, ghost s: State)
    returns (ok: bool, ghost sends: seq<Step>)
    requires w.out == [] && InBounds(s) && (|lbl| <= MAX_LEN ==> s.replica == Sending(Request(lbl)))
    modifies w
    ensures |lbl| > MAX_LEN ==> !ok && w.out == []
    ensures |lbl| <= MAX_LEN ==>
              w.out <= Request(lbl) && ok == (w.out == Request(lbl)) && ReplicaSent(s, sends, w.out, ok)
    ensures |lbl| <= MAX_LEN && failHeader.None? && failText.None? ==> ok
  {
    hide Encode, ReplicaSent;
    sends := [];
    var sent := Write(w, LABEL_BYTE, lbl, failHeader, failText);
    if sent.RefusedTooLong? { return false, sends; }
    WrittenPart(Request(lbl), w.out, sent);
    sends := SendLabelRun(s, lbl, |w.out|);
    return sent == Written, sends;
  }

  /** The second leg: the first byte of the answer decides, its text is only reported. */
  method HearAnswer(r: Reader, ghost s: State) returns (verdict: Replica, ghost hears: seq<Step>)
    requires InBounds(s) && s.replica == Reading([]) && r.rest <= UnreadByReplica(s)
    modifies r
    ensures |r.rest| <= |old(r.rest)|
    ensures verdict == Verdict(old(r.rest)) && ReplicaHeard(s, hears, verdict, |old(r.rest)| - |r.rest|)
    ensures ParseMessage(old(r.rest)).Message? ==> r.rest == ParseMessage(old(r.rest)).rest
  {
    hide Encode, ParseMessage, ReplicaHeard, Taken;
    ghost var all := r.rest;
    var m := Read(r);
    RestIs(all, r.rest);
    hears := HearRun(s, all);
    if m.None? { return Failed, hears; }
    if m.value.0 != LABEL_BYTE { return Rejected(m.value.1), hears; }
    return Syncing, hears;
  }

  /** `runSync` up to the sync. `s` is the protocol state at the start, `later` any later one
      in which what arrives of the answer, `r.rest`, has been sent. */
  method RunSync(r: Reader, w: Writer, lbl: Bytes, failHeader: Option<nat>, failText: Option<nat>, ghost s: State,
                 ghost later: State)
    returns (verdict: Replica, ghost sends: seq<Step>, ghost hears: seq<Step>)
    requires w.out == [] && InBounds(s) && (|lbl| <= MAX_LEN ==> s.replica == Sending(Request(lbl)))
    requires InBounds(later) && later.replica == Reading([]) && r.rest <= UnreadByReplica(later)
    modifies r, w
    ensures |r.rest| <= |old(r.rest)|
    ensures |lbl| > MAX_LEN ==> verdict == Failed && w.out == [] && r.rest == old(r.rest)
    ensures |lbl| <= MAX_LEN ==>
              && w.out <= Request(lbl) && ReplicaSent(s, sends, w.out, w.out == Request(lbl))
              && (w.out != Request(lbl) ==> verdict == Failed && r.rest == old(r.rest))
              && (w.out == Request(lbl) ==>
                    && verdict == Verdict(old(r.rest))
                    && ReplicaHeard(later, hears, verdict, |old(r.rest)| - |r.rest|))
    ensures |lbl| <= MAX_LEN && failHeader.None? && failText.None? ==> w.out == Request(lbl)
    ensures w.out == Request(lbl) && |lbl| <= MAX_LEN && ParseMessage(old(r.rest)).Message? ==>
            r.rest == ParseMessage(old(r.rest)).rest
  {
    hide Encode, ParseMessage, ReplicaSent, ReplicaHeard;
    hears := [];
    var sent;
    sent, sends := SendLabel(w, lbl, failHeader, failText, s);
    if !sent { return Failed, sends, hears; }
    verdict, hears := HearAnswer(r, later);
  }
}
