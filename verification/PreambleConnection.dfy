/** Both coded sides on one connection: what their calls return belongs to one run of the
    protocol, so its safety is theirs. */
module PreambleConnection {
  import opened Text
  import opened Label
  import opened Preamble
  import opened PreambleSteps

  /** How each of the four writes breaks off, and how much of each direction arrives before
      a deadline, a cancellation or a broken connection. */
  datatype Faults = Faults(sendHeader: Option<nat>, sendText: Option<nat>, answerHeader: Option<nat>,
                           answerText: Option<nat>,
                           cutIn: nat, cutOut: nat)

  /** Nothing breaks, and enough arrives. */
  predicate Unbroken(f: Faults, lbl: Bytes) {
    && f.sendHeader.None? && f.sendText.None? && f.answerHeader.None? && f.answerText.None?
    && f.cutIn >= |Request(lbl)| && f.cutOut >= 5 + MAX_LEN
  }

  predicate Servable(lbl: Bytes, atStart: Config, atLookup: Config) {
    |lbl| <= MAX_LEN && !ServesNothing(atStart) && Serves(atLookup, lbl)
  }

  function Cut(b: Bytes, n: nat): (r: Bytes)
    ensures r <= b
  {
    if n < |b| then b[..n] else b
  }

  /** The origin's handler starts before the label is sent, or after. An origin that serves
      nothing answers at its start, so there the order makes no difference to it. */
  ghost function Early(early: bool, atStart: Config): bool { early && |Served(atStart)| != 0 }

  ghost function BeforeSending(lbl: Bytes, cfg: Config, atStart: Config, early: bool): State {
    var s := Next(Start(lbl, cfg), Reload(atStart));
    if Early(early, atStart) then Next(s, OriginStarts) else s
  }

  ghost function AtAccept(lbl: Bytes, cfg: Config, atStart: Config, early: bool, sends: seq<Step>): State
    requires Runs(BeforeSending(lbl, cfg, atStart, early), sends)
  {
    if Early(early, atStart) then Next(Start(lbl, cfg), Reload(atStart))
    else After(BeforeSending(lbl, cfg, atStart, early), sends)
  }

  ghost function InBetween(atStart: Config, atLookup: Config, early: bool, sends: seq<Step>): seq<Step> {
    if Early(early, atStart) then sends + [Reload(atLookup)] else [Reload(atLookup)]
  }

  /** No sync byte has been written or taken. */
  predicate Fresh(s: State) { s.oSync == [] && s.rGot == 0 && s.oGot == 0 }

  /** The replica's part so far: its label went out as `out`. */
  ghost predicate LabelOut(s: State, t: State, ok: bool, out: Bytes) {
    t == s.(replica := if ok then Reading([]) else Failed, rOut := out, faulted := t.faulted)
  }

  lemma ReloadStep(s: State, cfg: Config)
    requires InBounds(s)
    ensures Enabled(s, Reload(cfg)) && Next(s, Reload(cfg)) == s.(cfg := cfg, seen := s.seen + [cfg])
  {
  }

  lemma StartStep(s: State)
    requires InBounds(s) && s.origin.Accepted?
    ensures Enabled(s, OriginStarts)
    ensures Next(s, OriginStarts) ==
            s.(origin := if |Served(s.cfg)| == 0 then NoFiles(NO_FILES_MSG) else ReadingLabel([]))
  {
    hide Served, Encode, Ascii;
  }

  /** Up to the origin's lookup the calls are a run of the protocol. */
  lemma Prologue(lbl: Bytes, cfg: Config, atStart: Config, atLookup: Config, early: bool, sends: seq<Step>, ok: bool,
                 out: Bytes)
    returns (pre: seq<Step>)
    requires Runs(BeforeSending(lbl, cfg, atStart, early), sends) && forall i | 0 <= i < |sends| :: OriginIdle(sends[i])
    requires var s := BeforeSending(lbl, cfg, atStart, early); LabelOut(s, After(s, sends), ok, out)
    ensures var s, env := AtAccept(lbl, cfg, atStart, early, sends), InBetween(atStart, atLookup, early, sends);
            && Runs(Start(lbl, cfg), pre) && After(Start(lbl, cfg), pre) == s && JustAccepted(s, atStart)
            && (|Served(atStart)| != 0 ==>
                  && Runs(Next(s, OriginStarts), env)
                  && (forall input | input <= out :: Meanwhile(Next(s, OriginStarts), env, atLookup, input)))
            && var b := BeforeLookup(s, atStart, env);
               && b.replica == (if ok then Reading([]) else Failed) && b.rOut == out
               && b.rTaken == 0 && b.oTaken == 0 && b.oOut == [] && Fresh(b)
  {
    hide Served, ParseMessage, Next, Enabled, Encode, Ascii, Runs, After;
    var start := Start(lbl, cfg);
    ReloadStep(start, atStart);
    var r := Next(start, Reload(atStart));
    RunOne(start, Reload(atStart));
    StartStep(r);
    var s := BeforeSending(lbl, cfg, atStart, early);
    var t := After(s, sends);
    if Early(early, atStart) {
      pre := [Reload(atStart)];
      ReloadStep(t, atLookup);
      RunOne(t, Reload(atLookup));
      RunAppend(s, sends, [Reload(atLookup)]);
    } else {
      RunAppend(start, [Reload(atStart)], sends);
      pre := [Reload(atStart)] + sends;
      StartStep(t);
      ReloadStep(Next(t, OriginStarts), atLookup);
      RunOne(Next(t, OriginStarts), Reload(atLookup));
    }
  }

  /** What the two calls on one connection come to. */
  ghost predicate Agreement(lbl: Bytes, atLookup: Config, oSync: Bytes, verdict: Replica,
                            agreed: Option<(Bytes, Source)>,
                            originUnread: Bytes, replicaUnread: Bytes) {
    && (agreed.Some? ==> Serves(atLookup, lbl) && agreed == Some((lbl, atLookup[lbl])) && originUnread == [])
    && (verdict.Syncing? ==> agreed.Some? && replicaUnread <= oSync)
    && (verdict.Rejected? ==> agreed.None? && (verdict.reason == NO_FILES || verdict.reason == UNKNOWN))
  }

  /** Safety of the protocol, read off the end of a run. */
  lemma EndOfRun(lbl: Bytes, cfg: Config, steps: seq<Step>)
    requires |lbl| <= MAX_LEN && Runs(Start(lbl, cfg), steps)
    ensures var t := After(Start(lbl, cfg), steps);
            && (t.replica.Syncing? ==>
              t.agreed.Some? && t.rTaken == |Request(lbl)| + t.rGot && |t.oOut| >= |Request(lbl)|
                                       && t.oOut == Request(lbl) + t.oSync)
            && (t.replica.Rejected? ==> t.agreed.None? && (t.replica.reason == NO_FILES || t.replica.reason == UNKNOWN))
            && (t.agreed.Some? ==> t.agreed.value.0 == lbl)
            && (t.origin.Serving? ==> t.oTaken == |Request(lbl)| + t.oGot && t.agreed == Some((lbl, t.origin.source)))
  {
    hide ParseMessage, Encode, Enabled, Next, Served, FaultFreeInv;
    StartInv(lbl, cfg);
    RunInv(Start(lbl, cfg), steps, lbl);
  }

  /** The origin's end of the connection, on what arrives of the label message `out`. */
  method Serve(lbl: Bytes, cfg: Config, atStart: Config, atLookup: Config, ghost early: bool, f: Faults, oSync: Bytes,
               out: Bytes, ghost sent: bool, ghost sends: seq<Step>)
    returns (agreed: Option<(Bytes, Source)>, output: Bytes, unread: Bytes, ghost input: Bytes, ghost steps: seq<Step>)
    requires Runs(BeforeSending(lbl, cfg, atStart, early), sends) && forall i | 0 <= i < |sends| :: OriginIdle(sends[i])
    requires var s := BeforeSending(lbl, cfg, atStart, early); LabelOut(s, After(s, sends), sent, out)
    ensures Runs(Start(lbl, cfg), steps) && |input| <= |out|
    ensures var t := After(Start(lbl, cfg), steps);
            && OriginEnd(t, atLookup, oSync, agreed, input, unread)
            && t.replica == (if sent then Reading([]) else Failed) && t.rTaken == 0
            && t.oOut == output + (if agreed.Some? then oSync else [])
    ensures Unbroken(f, lbl) && Servable(lbl, atStart, atLookup) && out == Request(lbl) ==>
            agreed.Some? && output == Request(lbl)
    ensures Unbroken(f, lbl) && out == Request(lbl) && |lbl| <= MAX_LEN && !Servable(lbl, atStart, atLookup) ==>
              agreed.None? && output == (if ServesNothing(atStart) then NO_FILES_MSG else UNKNOWN_MSG)
  {
    hide Encode, Ascii, ParseMessage, Served, Runs, After, Next, OriginDid, LabelOut, ServesNothing;
    hide BeforeSending, AtAccept, InBetween, Meanwhile, JustAccepted, Enabled;
    ghost var pre := Prologue(lbl, cfg, atStart, atLookup, early, sends, sent, out);
    ghost var accepted, env := AtAccept(lbl, cfg, atStart, early, sends), InBetween(atStart, atLookup, early, sends);
    if |lbl| <= MAX_LEN { RequestParses(lbl, []); }
    var w := new Writer();
    var r := new Reader(Cut(out, f.cutIn));
    input := r.rest;
    ghost var answers;
    agreed, answers := HandleConn(r, w, atStart, atLookup, f.answerHeader, f.answerText, accepted, env);
    output, unread := w.out, r.rest;
    steps := AfterAnswer(lbl, cfg, pre, accepted, BeforeLookup(accepted, atStart, env), answers, agreed, output,
      |input| - |unread|,
                         if agreed.Some? then oSync else []);
  }

  /** `runSync` and `handleConn` on the two ends of one connection, up to the sync. After an
      agreement the origin goes on with the sync bytes `oSync`. */
  method Connect(lbl: Bytes, cfg: Config, atStart: Config, atLookup: Config, ghost early: bool, f: Faults, oSync: Bytes)
    returns (verdict: Replica, agreed: Option<(Bytes, Source)>, originUnread: Bytes, replicaUnread: Bytes,
      ghost steps: seq<Step>)
    ensures Runs(Start(lbl, cfg), steps) && After(Start(lbl, cfg), steps).replica == verdict
    ensures Agreement(lbl, atLookup, oSync, verdict, agreed, originUnread, replicaUnread)
    ensures |lbl| > MAX_LEN ==> verdict.Failed? && agreed.None?
    ensures Unbroken(f, lbl) && Servable(lbl, atStart, atLookup) ==> verdict.Syncing? && agreed.Some?
    ensures Unbroken(f, lbl) && |lbl| <= MAX_LEN && !Servable(lbl, atStart, atLookup) ==>
              verdict == Rejected(if ServesNothing(atStart) then NO_FILES else UNKNOWN)
  {
    hide Encode, Ascii, ParseMessage, Served, Runs, After, Next, ReplicaSent, Agreement, LabelOut, OriginEnd;
    hide BeforeSending, Enabled, Verdict;
    ghost var s := BeforeSending(lbl, cfg, atStart, early);
    SendingStarts(lbl, cfg, atStart, early);
    var w := new Writer();
    var sent;
    ghost var sends;
    sent, sends := SendLabel(w, lbl, f.sendHeader, f.sendText, s);
    sends := if |lbl| <= MAX_LEN then sends else [];
    SentIsOut(lbl, cfg, atStart, early, sends, sent, w.out);
    var output;
    ghost var input;
    agreed, output, originUnread, input, steps :=
      Serve(lbl, cfg, atStart, atLookup, early, f, oSync, w.out, sent, sends);
    ghost var t := After(Start(lbl, cfg), steps);
    if !sent {
      verdict, replicaUnread := Failed, [];
      NotHeard(lbl, cfg, atLookup, oSync, steps, agreed, input, originUnread);
      return;
    }
    var r := new Reader(Cut(output + (if agreed.Some? then oSync else []), f.cutOut));
    ghost var arrived, hears := r.rest, [];
    if |lbl| <= MAX_LEN && Unbroken(f, lbl) {
      NonEmptyRequest(lbl);
      CutParses(lbl, oSync, f.cutOut);
      RejectionParses(f.cutOut);
    }
    EndBounds(t, atLookup, oSync, agreed, input, originUnread);
    verdict, hears := HearAnswer(r, t);
    replicaUnread := r.rest;
    steps := AfterHearing(lbl, cfg, steps, hears, verdict, |arrived| - |replicaUnread|);
    SameOriginEnd(t, After(Start(lbl, cfg), steps), atLookup, oSync, agreed, input, originUnread);
    Concluded(lbl, cfg, atLookup, oSync, steps, verdict, agreed, input, originUnread, arrived, replicaUnread);
  }

  lemma RequestParses(lbl: Bytes, more: Bytes)
    requires |lbl| <= MAX_LEN
    ensures ParseMessage(Request(lbl) + more) == Message(LABEL_BYTE, lbl, more) && Request(lbl) + [] == Request(lbl)
    ensures Verdict(Request(lbl) + more) == Syncing
  {
    hide ParseMessage, Encode;
    RoundTrip(LABEL_BYTE, lbl, more);
  }

  lemma RejectionParses(n: nat)
    requires n >= 5 + MAX_LEN
    ensures Verdict(Cut(NO_FILES_MSG + [], n)) == Rejected(NO_FILES)
            && Verdict(Cut(UNKNOWN_MSG + [], n)) == Rejected(UNKNOWN)
  {
    hide ParseMessage, Encode, Ascii;
    Constants();
    RoundTrip(ERROR_BYTE, NO_FILES, []);
    RoundTrip(ERROR_BYTE, UNKNOWN, []);
  }

  lemma CutParses(lbl: Bytes, oSync: Bytes, n: nat)
    requires |lbl| <= MAX_LEN && n >= |Request(lbl)|
    ensures Verdict(Cut(Request(lbl) + oSync, n)) == Syncing
  {
    hide ParseMessage, Encode, Verdict;
    var r := Request(lbl);
    RequestParses(lbl, if n < |r + oSync| then oSync[..n - |r|] else oSync);
    if n < |r + oSync| { assert (r + oSync)[..n] == r + oSync[..n - |r|]; }
  }

  lemma EndBounds(t: State, atLookup: Config, oSync: Bytes, agreed: Option<(Bytes, Source)>, input: Bytes,
                  unread: Bytes)
    requires OriginEnd(t, atLookup, oSync, agreed, input, unread)
    ensures InBounds(t)
    ensures t.rTaken == 0 ==> UnreadByReplica(t) == t.oOut
  {
    hide Served, Encode;
  }

  lemma SameOriginEnd(t: State, u: State, atLookup: Config, oSync: Bytes, agreed: Option<(Bytes, Source)>,
                      input: Bytes, unread: Bytes)
    requires OriginEnd(t, atLookup, oSync, agreed, input, unread)
    requires InBounds(u) && u == t.(replica := u.replica, rTaken := u.rTaken, faulted := u.faulted)
    ensures OriginEnd(u, atLookup, oSync, agreed, input, unread)
  {
    hide Served, Encode;
  }

  lemma SendingStarts(lbl: Bytes, cfg: Config, atStart: Config, early: bool)
    ensures var s := BeforeSending(lbl, cfg, atStart, early);
            InBounds(s) && s.replica == Start(lbl, cfg).replica && s.rOut == []
  {
    hide Served;
  }

  lemma SentIsOut(lbl: Bytes, cfg: Config, atStart: Config, early: bool, sends: seq<Step>, sent: bool, out: Bytes)
    requires |lbl| > MAX_LEN ==> !sent && out == [] && sends == []
    requires |lbl| <= MAX_LEN ==> ReplicaSent(BeforeSending(lbl, cfg, atStart, early), sends, out, sent)
    ensures var s := BeforeSending(lbl, cfg, atStart, early);
            && Runs(s, sends) && (forall i | 0 <= i < |sends| :: OriginIdle(sends[i]))
              && LabelOut(s, After(s, sends), sent, out)
  {
    hide Served, Encode;
    SendingStarts(lbl, cfg, atStart, early);
    assert [] + out == out;
  }

  /** The origin has answered from `b` on, and after an agreement written its first sync bytes. */
  ghost predicate Answered(b: State, t: State, agreed: Option<(Bytes, Source)>, output: Bytes, taken: nat,
                           sync: Bytes) {
    && InBounds(t) && t.replica == b.replica && t.rOut == b.rOut && t.rTaken == b.rTaken
    && t.oTaken == b.oTaken + taken && t.oOut == output + sync
    && t.oSync == b.oSync + sync && t.rGot == b.rGot && t.oGot == b.oGot
    && match agreed
       case Some(a) => t.origin == Serving(a.0, a.1) && t.agreed == agreed
       case None => t.origin.Closed? && (t.agreed.Some? ==> |t.oOut| < |Request(t.agreed.value.0)|)
  }

  /** The replica has heard the answer. */
  ghost predicate Heard(s: State, t: State, verdict: Replica, taken: nat) {
    InBounds(t) && t == s.(replica := verdict, rTaken := s.rTaken + taken, faulted := t.faulted)
  }

  lemma AfterAnswer(lbl: Bytes, cfg: Config, pre: seq<Step>, s: State, b: State, answers: seq<Step>,
                    agreed: Option<(Bytes, Source)>, output: Bytes, taken: nat, sync: Bytes) returns (steps: seq<Step>)
    requires Runs(Start(lbl, cfg), pre) && After(Start(lbl, cfg), pre) == s
    requires OriginDid(s, b, answers, agreed, output, taken) && (agreed.None? ==> sync == [])
    ensures Runs(Start(lbl, cfg), steps) && Answered(b, After(Start(lbl, cfg), steps), agreed, output, taken, sync)
  {
    hide Served, Encode, Judge, Resolve;
    RunAppend(Start(lbl, cfg), pre, answers);
    steps := pre + answers;
    assert output + [] == output && After(s, answers).oSync + [] == After(s, answers).oSync;
    if agreed.Some? {
      var t := After(s, answers);
      RunOne(t, OriginSyncs(sync));
      RunAppend(Start(lbl, cfg), steps, [OriginSyncs(sync)]);
      steps := steps + [OriginSyncs(sync)];
    }
  }

  lemma AfterHearing(lbl: Bytes, cfg: Config, before: seq<Step>, hears: seq<Step>, verdict: Replica, taken: nat)
    returns (steps: seq<Step>)
    requires Runs(Start(lbl, cfg), before) && ReplicaHeard(After(Start(lbl, cfg), before), hears, verdict, taken)
    ensures Runs(Start(lbl, cfg), steps)
    ensures Heard(After(Start(lbl, cfg), before), After(Start(lbl, cfg), steps), verdict, taken)
  {
    RunAppend(Start(lbl, cfg), before, hears);
    steps := before + hears;
  }

  /** What is known at the end of the origin's call. */
  ghost predicate OriginEnd(t: State, atLookup: Config, oSync: Bytes, agreed: Option<(Bytes, Source)>, input: Bytes,
                            unread: Bytes) {
    && InBounds(t) && t.rGot == 0 && t.oGot == 0 && t.oSync == (if agreed.Some? then oSync else [])
    && |unread| <= |input| <= |t.rOut| && t.oTaken == |input| - |unread|
    && match agreed
       case Some(a) =>
         t.origin == Serving(a.0, a.1) && t.agreed == agreed && Serves(atLookup, a.0) && a.1 == atLookup[a.0]
       case None => t.origin.Closed? && (t.agreed.Some? ==> |t.oOut| < |Request(t.agreed.value.0)|)
  }

  lemma AgreedIsOwn(lbl: Bytes, cfg: Config, atLookup: Config, oSync: Bytes, steps: seq<Step>,
                    agreed: Option<(Bytes, Source)>,
                    input: Bytes, originUnread: Bytes)
    requires |lbl| <= MAX_LEN && Runs(Start(lbl, cfg), steps) && |input| <= |Request(lbl)|
    requires OriginEnd(After(Start(lbl, cfg), steps), atLookup, oSync, agreed, input, originUnread)
    ensures agreed.Some? ==> Serves(atLookup, lbl) && agreed == Some((lbl, atLookup[lbl]))
    ensures agreed.Some? ==> originUnread == []
  {
    hide Served, Encode, Runs, After;
    EndOfRun(lbl, cfg, steps);
  }

  lemma NotHeard(lbl: Bytes, cfg: Config, atLookup: Config, oSync: Bytes, steps: seq<Step>,
                 agreed: Option<(Bytes, Source)>,
                 input: Bytes, originUnread: Bytes)
    requires Runs(Start(lbl, cfg), steps) && (|lbl| <= MAX_LEN ==> |input| <= |Request(lbl)|)
    requires OriginEnd(After(Start(lbl, cfg), steps), atLookup, oSync, agreed, input, originUnread)
    ensures Agreement(lbl, atLookup, oSync, Failed, agreed, originUnread, [])
    ensures |lbl| > MAX_LEN ==> agreed.None?
  {
    hide Served, Encode, Runs, After;
    if |lbl| > MAX_LEN {
      LongLabelNeverSent(lbl, cfg, steps);
    } else {
      AgreedIsOwn(lbl, cfg, atLookup, oSync, steps, agreed, input, originUnread);
    }
  }

  lemma Concluded(lbl: Bytes, cfg: Config, atLookup: Config, oSync: Bytes, steps: seq<Step>, verdict: Replica,
                  agreed: Option<(Bytes, Source)>, input: Bytes, originUnread: Bytes, arrived: Bytes,
                  replicaUnread: Bytes)
    requires |lbl| <= MAX_LEN && Runs(Start(lbl, cfg), steps) && |input| <= |Request(lbl)|
    requires OriginEnd(After(Start(lbl, cfg), steps), atLookup, oSync, agreed, input, originUnread)
    requires var t := After(Start(lbl, cfg), steps);
             && t.replica == verdict == Verdict(arrived) && arrived <= t.oOut
             && |replicaUnread| <= |arrived| && t.rTaken == |arrived| - |replicaUnread|
    requires ParseMessage(arrived).Message? ==> replicaUnread == ParseMessage(arrived).rest
    ensures Agreement(lbl, atLookup, oSync, verdict, agreed, originUnread, replicaUnread)
  {
    hide Served, Encode, Runs, After, ParseMessage;
    EndOfRun(lbl, cfg, steps);
    AgreedIsOwn(lbl, cfg, atLookup, oSync, steps, agreed, input, originUnread);
    if verdict.Syncing? {
      MessageShape(arrived);
      var r := Request(lbl);
      assert arrived[|r|..] == replicaUnread;
      assert (r + oSync)[|r|..] == oSync;
    }
  }
}
