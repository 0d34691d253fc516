/** The handshake between a replica and the origin over one connection: every
    interleaving, every chunking, closes on either side, and configuration reloads. */
module Preamble {
  import opened Text
  import opened Label

  type Source = string
  /** The configured entries; an empty source path deactivates an entry. */
  type Config = map<Bytes, Source>

  /** `entries`. */
  function Served(cfg: Config): Config { map l | l in cfg && cfg[l] != "" :: cfg[l] }

  /** Every entry is deactivated. */
  predicate ServesNothing(cfg: Config) { forall l | l in cfg :: cfg[l] == "" }

  /** The label has an entry with a source path. */
  predicate Serves(cfg: Config, l: Bytes) { l in cfg && cfg[l] != "" }

  /** What is served is every entry with a source path, under its own label. */
  lemma ServedAre(cfg: Config)
    ensures forall l :: l in Served(cfg) <==> Serves(cfg, l)
    ensures forall l | l in Served(cfg) :: Served(cfg)[l] == cfg[l]
    ensures |Served(cfg)| == 0 <==> ServesNothing(cfg)
  {
    if l :| l in cfg && cfg[l] != "" {
      assert l in Served(cfg);
    } else {
      assert Served(cfg) == map[];
    }
  }

  const NO_FILES: Bytes := Ascii("no files to serve")
  const UNKNOWN: Bytes := Ascii("unknown database")

  function Ascii(s: string): (r: Bytes)
    ensures |r| == |s|
  {
    seq(|s|, i requires 0 <= i < |s| => (s[i] as int) % 256)
  }

  /** Plain characters are sent as their codes. */
  lemma AsciiBytes(s: string, i: nat)
    requires i < |s| && s[i] < 128 as char
    ensures Ascii(s)[i] == s[i] as int
  {
  }

  const NO_FILES_MSG: Bytes := Encode(ERROR_BYTE, NO_FILES)
  const UNKNOWN_MSG: Bytes := Encode(ERROR_BYTE, UNKNOWN)

  datatype Replica =
    | Sending(rest: Bytes)          // writing the label message
    | Reading(got: Bytes)           // reading the origin's answer
    | Syncing                       // in the sync protocol
    | Rejected(reason: Bytes)
    | Failed                        // any other error; the connection is closed

  datatype Origin =
    | Accepted                      // handleConn has started
    | NoFiles(rest: Bytes)          // writing the no-files rejection, without reading
    | ReadingLabel(got: Bytes)
    | Rejecting(rest: Bytes)        // writing the unknown-database rejection
    | Echoing(rest: Bytes, lbl: Bytes, source: Source)
    | Serving(lbl: Bytes, source: Source)
    | Closed

  /** `rOut` and `oOut` are all bytes written by each side so far, `oTaken` and `rTaken`
      how many of them the other side has read; the bytes in between are in flight. */
  datatype State = State(
    replica: Replica, origin: Origin,
    rOut: Bytes, oTaken: nat, oOut: Bytes, rTaken: nat,
    rSync: Bytes, oGot: nat, oSync: Bytes, rGot: nat,
    cfg: Config, seen: seq<Config>,
    agreed: Option<(Bytes, Source)>,   // what the origin accepted
    faulted: bool)

  function Request(lbl: Bytes): Bytes { Encode(LABEL_BYTE, lbl) }

  /** A label that `Write` refuses fails the replica before it sends anything. */
  function Start(lbl: Bytes, cfg: Config): State {
    State(if |lbl| > MAX_LEN then Failed else Sending(Request(lbl)), Accepted,
          [], 0, [], 0, [], 0, [], 0, cfg, [cfg], None, false)
  }

  datatype Step =
    | ReplicaSends(k: nat) | ReplicaReads(k: nat) | ReplicaSeesEnd
    | OriginStarts | OriginSends(k: nat) | OriginReads(k: nat) | OriginSeesEnd
    | Reload(cfg: Config)
    | ReplicaSyncs(data: Bytes) | OriginSyncs(data: Bytes) | ReplicaTakes(k: nat) | OriginTakes(k: nat)
    | Reset                         // the closed origin had unread data: the answer is lost
    | ReplicaCancels                // context or connection error on the replica
    | OriginGivesUp                 // deadline, shutdown or connection error on the origin

  function UnreadByReplica(s: State): Bytes
    requires s.rTaken <= |s.oOut|
  { s.oOut[s.rTaken..] }

  function UnreadByOrigin(s: State): Bytes
    requires s.oTaken <= |s.rOut|
  { s.rOut[s.oTaken..] }

  predicate ReplicaGone(s: State) { s.replica.Rejected? || s.replica.Failed? }

  predicate InBounds(s: State) { s.oTaken <= |s.rOut| && s.rTaken <= |s.oOut| }

  predicate Enabled(s: State, step: Step) {
    InBounds(s) &&
    match step
    case ReplicaSends(k) => s.replica.Sending? && 0 < k <= |s.replica.rest|
    case ReplicaReads(k) =>
      s.replica.Reading? && ParseMessage(s.replica.got).NeedMore? && 0 < k <= Wanted(s.replica.got)
        && k <= |UnreadByReplica(s)|
    case ReplicaSeesEnd => s.replica.Reading? && s.origin.Closed? && UnreadByReplica(s) == []
    case OriginStarts => s.origin.Accepted?
    case OriginSends(k) =>
      (s.origin.NoFiles? || s.origin.Rejecting? || s.origin.Echoing?) && 0 < k <= |s.origin.rest|
    case OriginReads(k) =>
      s.origin.ReadingLabel? && ParseMessage(s.origin.got).NeedMore? && 0 < k <= Wanted(s.origin.got)
        && k <= |UnreadByOrigin(s)|
    case OriginSeesEnd => s.origin.ReadingLabel? && ReplicaGone(s) && UnreadByOrigin(s) == []
    case Reload(_) => true
    case ReplicaSyncs(_) => s.replica.Syncing?
    case OriginSyncs(_) => s.origin.Serving?
    case ReplicaTakes(k) => s.replica.Syncing? && 0 < k <= |UnreadByReplica(s)|
    case OriginTakes(k) => s.origin.Serving? && 0 < k <= |UnreadByOrigin(s)|
    case Reset => s.origin.Closed? && (s.replica.Sending? || (s.replica.Reading? && UnreadByOrigin(s) != []))
    case ReplicaCancels => !ReplicaGone(s)
    case OriginGivesUp => !s.origin.Closed?
  }

  /** The replica's verdict on a complete answer: it looks at the first byte only. */
  function Judge(got: Bytes): Replica {
    match ParseMessage(got)
    case NeedMore => Reading(got)
    case TooLong => Failed
    case Message(first, text, _) => if first == LABEL_BYTE then Syncing else Rejected(text)
  }

  /** The origin's verdict on a request, against the configuration of this moment. */
  function Resolve(got: Bytes, cfg: Config): Origin {
    match ParseMessage(got)
    case NeedMore => ReadingLabel(got)
    case TooLong => Closed
    case Message(first, text, _) =>
      if first != LABEL_BYTE then Closed
      else if text in Served(cfg) then Echoing(Request(text), text, Served(cfg)[text])
      else Rejecting(UNKNOWN_MSG)
  }

  function Next(s: State, step: Step): State
    requires Enabled(s, step)
  {
    match step
    case ReplicaSends(k) =>
      var rest := s.replica.rest;
      s.(rOut := s.rOut + rest[..k], replica := if k == |rest| then Reading([]) else Sending(rest[k..]))
    case ReplicaReads(k) =>
      s.(rTaken := s.rTaken + k, replica := Judge(s.replica.got + UnreadByReplica(s)[..k]))
    case ReplicaSeesEnd => s.(replica := Failed)
    case OriginStarts => s.(origin := if |Served(s.cfg)| == 0 then NoFiles(NO_FILES_MSG) else ReadingLabel([]))
    case OriginSends(k) =>
      var rest := s.origin.rest;
      var t := s.(oOut := s.oOut + rest[..k]);
      if k < |rest| then t.(origin := s.origin.(rest := rest[k..]))
      else if s.origin.Echoing? then t.(origin := Serving(s.origin.lbl, s.origin.source))
      else t.(origin := Closed)
    case OriginReads(k) =>
      var o := Resolve(s.origin.got + UnreadByOrigin(s)[..k], s.cfg);
      s.(oTaken := s.oTaken + k, origin := o, agreed := if o.Echoing? then Some((o.lbl, o.source)) else s.agreed)
    case OriginSeesEnd => s.(origin := Closed)
    case Reload(cfg) => s.(cfg := cfg, seen := s.seen + [cfg])
    case ReplicaSyncs(data) => s.(rOut := s.rOut + data, rSync := s.rSync + data)
    case OriginSyncs(data) => s.(oOut := s.oOut + data, oSync := s.oSync + data)
    case ReplicaTakes(k) => s.(rTaken := s.rTaken + k, rGot := s.rGot + k)
    case OriginTakes(k) => s.(oTaken := s.oTaken + k, oGot := s.oGot + k)
    case Reset => s.(replica := Failed)
    case ReplicaCancels => s.(replica := Failed, faulted := true)
    case OriginGivesUp => s.(origin := Closed, faulted := true)
  }

  // ---------- invariant ----------

  ghost predicate ReplicaInv(s: State, lbl: Bytes) {
    match s.replica
    case Sending(rest) => s.rOut + rest == Request(lbl) && rest != [] && s.rTaken == s.rGot == 0
    case Reading(got) => s.rOut == Request(lbl) && s.rGot == 0 && s.rTaken <= |s.oOut|
      && got == s.oOut[..s.rTaken] && ParseMessage(got).NeedMore?
    case Syncing => s.rOut == Request(lbl) + s.rSync && s.agreed.Some? && s.rTaken == |Request(lbl)| + s.rGot
      && |s.oOut| >= |Request(lbl)|
    case Rejected(reason) =>
      && s.rOut == Request(lbl) && s.agreed.None? && s.origin.Closed?
      && ((s.oOut == NO_FILES_MSG && reason == NO_FILES) || (s.oOut == UNKNOWN_MSG && reason == UNKNOWN))
    case Failed => true
  }

  ghost predicate OriginInv(s: State, lbl: Bytes) {
    match s.origin
    case Accepted => s.oTaken == 0 && s.oOut == [] && s.agreed.None?
    case NoFiles(rest) => s.oTaken == 0 && s.oOut + rest == NO_FILES_MSG && rest != [] && s.agreed.None?
    case ReadingLabel(got) =>
      s.oOut == [] && s.agreed.None? && s.oTaken <= |s.rOut| && got == s.rOut[..s.oTaken] && ParseMessage(got).NeedMore?
    case Rejecting(rest) => s.oTaken == |Request(lbl)| && s.oOut + rest == UNKNOWN_MSG && rest != [] && s.agreed.None?
    case Echoing(rest, l, source) =>
      s.oTaken == |Request(lbl)| && s.oOut + rest == Request(lbl) && rest != [] && s.agreed == Some((lbl, source))
        && l == lbl
    case Serving(l, source) =>
      s.oTaken == |Request(lbl)| + s.oGot && s.agreed == Some((lbl, source)) && l == lbl && |s.oOut| >= |Request(lbl)|
    case Closed => true
  }

  /** What the origin can have written: a beginning of one rejection, or of the echo, or
      the echo and then sync bytes. */
  ghost predicate OutInv(s: State, lbl: Bytes) {
    if s.agreed.Some? then
      && s.agreed.value.0 == lbl && (exists c | c in s.seen :: lbl in Served(c) && Served(c)[lbl] == s.agreed.value.1)
      && (if |s.oOut| < |Request(lbl)| then s.oOut <= Request(lbl) && s.oSync == []
          else s.oOut == Request(lbl) + s.oSync)
    else
      (s.oOut <= NO_FILES_MSG || s.oOut <= UNKNOWN_MSG) && s.oSync == []
  }

  /** What the replica can have written: a beginning of the request, or the request and
      then sync bytes. */
  ghost predicate InInv(s: State, lbl: Bytes) {
    if |s.rOut| < |Request(lbl)| then s.rOut <= Request(lbl) && s.rSync == [] else s.rOut == Request(lbl) + s.rSync
  }

  /** Without faults the origin closes only after a whole rejection, and the replica fails
      only when it was rejected before its request had been read. */
  ghost predicate FaultFreeInv(s: State, lbl: Bytes) {
    !s.faulted ==>
      && (s.origin.Closed? ==>
        s.agreed.None? && ((s.oOut == NO_FILES_MSG && s.oTaken == 0)
          || (s.oOut == UNKNOWN_MSG && s.oTaken == |Request(lbl)|)))
      && (s.replica.Failed? ==> s.origin.Closed? && s.oOut == NO_FILES_MSG)
  }

  ghost predicate Inv(s: State, lbl: Bytes) {
    && |lbl| <= MAX_LEN && s.oTaken <= |s.rOut| && s.rTaken <= |s.oOut|
    && s.seen != [] && s.cfg == s.seen[|s.seen| - 1]
    && (s.origin.Serving? || s.origin.Closed? || s.oGot == 0)
    && ReplicaInv(s, lbl) && OriginInv(s, lbl) && OutInv(s, lbl) && InInv(s, lbl) && FaultFreeInv(s, lbl)
  }

  lemma StartInv(lbl: Bytes, cfg: Config)
    requires |lbl| <= MAX_LEN
    ensures Inv(Start(lbl, cfg), lbl)
  {
    hide Encode;
    EncodeShape(LABEL_BYTE, lbl, []);
    assert [] + Request(lbl) == Request(lbl);
    EmptyNeedsMore();
  }

  lemma EmptyNeedsMore()
    ensures ParseMessage([]) == NeedMore
  {
  }

  lemma Constants()
    ensures |NO_FILES| == 17 && |UNKNOWN| == 16
    ensures |NO_FILES_MSG| == 22 && |UNKNOWN_MSG| == 21
    ensures !(UNKNOWN_MSG <= NO_FILES_MSG)
  {
    hide Ascii;
    assert NO_FILES_MSG[4] == 17 && UNKNOWN_MSG[4] == 16;
  }

  // ---------- the two reads ----------

  /** A complete message that begins a stream starting with `b` is `b`. */
  lemma MessageIsWhole(first: Byte, text: Bytes, more: Bytes, got: Bytes)
    requires |text| <= MAX_LEN && !ParseMessage(got).NeedMore?
    requires got <= Encode(first, text) + more
    requires ParseMessage(got).Message? ==> ParseMessage(got).rest == []
    ensures got == Encode(first, text) && ParseMessage(got) == Message(first, text, [])
  {
    hide ParseMessage, Encode;
    var b := Encode(first, text);
    RoundTrip(first, text, []);
    assert b + [] == b;
    if |got| < |b| {
      ProperPrefixNeedsMore(first, text, |got|);
      assert got == b[..|got|] by { assert (b + more)[..|got|] == b[..|got|]; }
    } else {
      var tail := got[|b|..];
      assert got == b + tail by { assert (b + more)[..|b|] == b; }
      RoundTrip(first, text, tail);
      assert tail == [];
    }
  }

  /** What the origin makes of the request: it is the replica's label, and nothing beyond
      it has been taken. */
  lemma RequestIsWhole(s: State, lbl: Bytes, k: nat)
    requires Inv(s, lbl) && Enabled(s, OriginReads(k))
    ensures var got := s.origin.got + UnreadByOrigin(s)[..k];
            && got == s.rOut[..s.oTaken + k]
            && (!ParseMessage(got).NeedMore? ==>
              got == Request(lbl) && ParseMessage(got) == Message(LABEL_BYTE, lbl, []))
  {
    hide ParseMessage, Encode, Wanted, ReplicaInv, OutInv, FaultFreeInv;
    var more := UnreadByOrigin(s)[..k];
    var got := s.origin.got + more;
    assert got == s.rOut[..s.oTaken + k];
    NeverReadsPast(s.origin.got, more);
    if !ParseMessage(got).NeedMore? {
      var tail := if |s.rOut| < |Request(lbl)| then [] else s.rSync;
      assert Request(lbl) + [] == Request(lbl);
      assert s.rOut <= Request(lbl) + tail;
      MessageIsWhole(LABEL_BYTE, lbl, tail, got);
    }
  }

  /** What the replica makes of the answer: the echo of its own label exactly when the
      origin has agreed, and one of the two rejections otherwise. */
  lemma AnswerIsWhole(s: State, lbl: Bytes, k: nat)
    requires Inv(s, lbl) && Enabled(s, ReplicaReads(k))
    ensures var got := s.replica.got + UnreadByReplica(s)[..k];
            && got == s.oOut[..s.rTaken + k]
            && (!ParseMessage(got).NeedMore? && s.agreed.Some? ==>
              got == Request(lbl) && ParseMessage(got) == Message(LABEL_BYTE, lbl, []))
            && (!ParseMessage(got).NeedMore? && s.agreed.None? ==>
                  || (got == NO_FILES_MSG == s.oOut && ParseMessage(got) == Message(ERROR_BYTE, NO_FILES, []))
                  || (got == UNKNOWN_MSG == s.oOut && ParseMessage(got) == Message(ERROR_BYTE, UNKNOWN, [])))
  {
    hide ParseMessage, Encode, Wanted, OriginInv, InInv, FaultFreeInv, Ascii;
    var more := UnreadByReplica(s)[..k];
    var got := s.replica.got + more;
    assert got == s.oOut[..s.rTaken + k];
    NeverReadsPast(s.replica.got, more);
    if !ParseMessage(got).NeedMore? {
      Constants();
      if s.agreed.Some? {
        var tail := if |s.oOut| < |Request(lbl)| then [] else s.oSync;
        assert Request(lbl) + [] == Request(lbl);
        MessageIsWhole(LABEL_BYTE, lbl, tail, got);
      } else if s.oOut <= NO_FILES_MSG {
        assert NO_FILES_MSG + [] == NO_FILES_MSG;
        MessageIsWhole(ERROR_BYTE, NO_FILES, [], got);
      } else {
        assert UNKNOWN_MSG + [] == UNKNOWN_MSG;
        MessageIsWhole(ERROR_BYTE, UNKNOWN, [], got);
      }
    }
  }

  // ---------- every step keeps the invariant ----------

  lemma SplitAt<T>(a: seq<T>, b: seq<T>, k: nat)
    requires k <= |b|
    ensures (a + b[..k]) + b[k..] == a + b
  {
    assert b == b[..k] + b[k..];
  }

  lemma ReplicaSendsInv(s: State, lbl: Bytes, k: nat)
    requires Inv(s, lbl) && Enabled(s, ReplicaSends(k))
    ensures Inv(Next(s, ReplicaSends(k)), lbl)
  {
    hide ParseMessage, Encode, Ascii, Served;
    var rest := s.replica.rest;
    SplitAt(s.rOut, rest, k);
    EmptyNeedsMore();
    var t := Next(s, ReplicaSends(k));
    assert rest[..k] + rest[k..] == rest;
    assert t.rOut + rest[k..] == Request(lbl);
    assert s.oTaken <= |s.rOut| && t.rOut[..s.oTaken] == s.rOut[..s.oTaken];
    assert |t.rOut| == |Request(lbl)| ==> t.rOut == Request(lbl) + [];
  }

  lemma PrefixOfWhole<T>(a: seq<T>, b: seq<T>, c: seq<T>)
    requires a + b == c
    ensures a <= c && (b != [] ==> |a| < |c|)
  {
  }

  /** Writing a piece of `rest`: what was written stays, and the whole is unchanged. */
  lemma PieceWritten(out: Bytes, rest: Bytes, k: nat, whole: Bytes)
    requires out + rest == whole && 0 < k <= |rest|
    ensures (out + rest[..k]) + rest[k..] == whole && out + rest[..k] <= whole && |out| < |whole|
    ensures k < |rest| ==> |out + rest[..k]| < |whole| && rest[k..] != []
    ensures k == |rest| ==> out + rest[..k] == whole
  {
    SplitAt(out, rest, k);
    PrefixOfWhole(out, rest, whole);
    PrefixOfWhole(out + rest[..k], rest[k..], whole);
  }

  lemma ReplicaUnmoved(s: State, t: State, lbl: Bytes)
    requires ReplicaInv(s, lbl) && InInv(s, lbl) && s.rTaken <= |s.oOut| && s.oOut <= t.oOut && !s.replica.Rejected?
    requires t == s.(oOut := t.oOut, origin := t.origin)
    ensures ReplicaInv(t, lbl) && InInv(t, lbl)
  {
    hide ParseMessage, Encode, Ascii;
    assert t.oOut[..s.rTaken] == s.oOut[..s.rTaken];
  }

  lemma RejectionSendsInv(s: State, lbl: Bytes, k: nat)
    requires Inv(s, lbl) && Enabled(s, OriginSends(k)) && !s.origin.Echoing?
    ensures Inv(Next(s, OriginSends(k)), lbl)
  {
    hide ParseMessage, Encode, Ascii, Served, ReplicaInv, InInv;
    PieceWritten(s.oOut, s.origin.rest, k, if s.origin.NoFiles? then NO_FILES_MSG else UNKNOWN_MSG);
    assert !s.replica.Rejected? by { RejectedIsClosed(s, lbl); }
    ReplicaUnmoved(s, Next(s, OriginSends(k)), lbl);
  }

  lemma RejectedIsClosed(s: State, lbl: Bytes)
    requires ReplicaInv(s, lbl)
    ensures s.replica.Rejected? ==> s.origin.Closed?
  {
    hide ParseMessage, Encode, Ascii;
  }

  lemma EchoSendsInv(s: State, lbl: Bytes, k: nat)
    requires Inv(s, lbl) && Enabled(s, OriginSends(k)) && s.origin.Echoing?
    ensures Inv(Next(s, OriginSends(k)), lbl)
  {
    hide ParseMessage, Encode, Ascii, Served, ReplicaInv, InInv;
    PieceWritten(s.oOut, s.origin.rest, k, Request(lbl));
    assert Request(lbl) + [] == Request(lbl);
    assert !s.replica.Rejected? by { RejectedIsClosed(s, lbl); }
    ReplicaUnmoved(s, Next(s, OriginSends(k)), lbl);
  }

  lemma OriginSendsInv(s: State, lbl: Bytes, k: nat)
    requires Inv(s, lbl) && Enabled(s, OriginSends(k))
    ensures Inv(Next(s, OriginSends(k)), lbl)
  {
    hide Inv, Next, Enabled;
    if s.origin.Echoing? { EchoSendsInv(s, lbl, k); } else { RejectionSendsInv(s, lbl, k); }
  }

  lemma OriginReadsInv(s: State, lbl: Bytes, k: nat)
    requires Inv(s, lbl) && Enabled(s, OriginReads(k))
    ensures Inv(Next(s, OriginReads(k)), lbl)
  {
    hide ParseMessage, Encode, Ascii, Wanted, InInv;
    RequestIsWhole(s, lbl, k);
    Constants();
    NonEmptyRequest(lbl);
    var t := Next(s, OriginReads(k));
    var got := s.origin.got + UnreadByOrigin(s)[..k];
    assert |got| == s.oTaken + k;
    assert s.cfg in s.seen;
    assert [] + UNKNOWN_MSG == UNKNOWN_MSG && [] + Request(lbl) == Request(lbl);
    assert InInv(t, lbl) by { SameIn(s, t, lbl); }
  }

  lemma SameIn(s: State, t: State, lbl: Bytes)
    requires InInv(s, lbl) && t.rOut == s.rOut && t.rSync == s.rSync
    ensures InInv(t, lbl)
  {
    hide Encode;
  }

  lemma NonEmptyRequest(lbl: Bytes)
    ensures |Request(lbl)| == 5 + |lbl|
  {
    hide BigEndian;
  }

  lemma ReplicaReadsInv(s: State, lbl: Bytes, k: nat)
    requires Inv(s, lbl) && Enabled(s, ReplicaReads(k))
    ensures Inv(Next(s, ReplicaReads(k)), lbl)
  {
    hide ParseMessage, Encode, Ascii, Wanted, Served, OriginInv, OutInv, InInv;
    AnswerIsWhole(s, lbl, k);
    var t := Next(s, ReplicaReads(k));
    var got := s.replica.got + UnreadByReplica(s)[..k];
    assert |got| == s.rTaken + k;
    assert Request(lbl) + [] == Request(lbl);
    if t.replica.Syncing? { SyncStarts(s, lbl, got); }
    if t.replica.Rejected? { RejectedAt(s, lbl); }
    SameRest(s, t, lbl);
  }

  lemma SameRest(s: State, t: State, lbl: Bytes)
    requires OriginInv(s, lbl) && OutInv(s, lbl) && InInv(s, lbl)
    requires t == s.(replica := t.replica, rTaken := t.rTaken)
    ensures OriginInv(t, lbl) && OutInv(t, lbl) && InInv(t, lbl)
  {
    hide Encode, Served, ParseMessage;
  }

  /** Entering the sync phase: nothing of the origin's sync bytes has been taken. */
  lemma SyncStarts(s: State, lbl: Bytes, got: Bytes)
    requires Inv(s, lbl) && s.replica.Reading?
    requires got <= s.oOut && got == Request(lbl)
    ensures s.rSync == [] && |s.oOut| >= |Request(lbl)| && s.rGot == 0
  {
    hide ParseMessage, Encode;
    assert |s.rOut| == |Request(lbl)| + |s.rSync|;
  }

  /** A whole rejection was written, so the origin has closed. */
  lemma RejectedAt(s: State, lbl: Bytes)
    requires Inv(s, lbl) && s.agreed.None?
    requires s.oOut == NO_FILES_MSG || s.oOut == UNKNOWN_MSG
    ensures s.origin.Closed?
  {
    hide ParseMessage, Encode, Ascii;
    Constants();
  }

  lemma OriginStartsInv(s: State, lbl: Bytes)
    requires Inv(s, lbl) && Enabled(s, OriginStarts)
    ensures Inv(Next(s, OriginStarts), lbl)
  {
    hide ParseMessage, Encode, Ascii, Served, InInv;
    EmptyNeedsMore();
    Constants();
    assert [] + NO_FILES_MSG == NO_FILES_MSG;
    SameIn(s, Next(s, OriginStarts), lbl);
  }

  lemma ReloadKeepsOut(s: State, cfg: Config, lbl: Bytes)
    requires OutInv(s, lbl)
    ensures OutInv(s.(cfg := cfg, seen := s.seen + [cfg]), lbl)
  {
    hide Encode, Served;
    var t := s.(cfg := cfg, seen := s.seen + [cfg]);
    if s.agreed.Some? {
      var c :| c in s.seen && lbl in Served(c) && Served(c)[lbl] == s.agreed.value.1;
      assert c in t.seen;
    }
  }

  lemma ReloadKeepsRest(s: State, t: State, lbl: Bytes)
    requires ReplicaInv(s, lbl) && OriginInv(s, lbl) && InInv(s, lbl) && FaultFreeInv(s, lbl)
    requires t == s.(cfg := t.cfg, seen := t.seen)
    ensures ReplicaInv(t, lbl) && OriginInv(t, lbl) && InInv(t, lbl) && FaultFreeInv(t, lbl)
  {
    hide Encode, Served, ParseMessage, Ascii;
  }

  lemma ReloadInv(s: State, cfg: Config, lbl: Bytes)
    requires Inv(s, lbl)
    ensures Inv(s.(cfg := cfg, seen := s.seen + [cfg]), lbl)
  {
    hide ReplicaInv, OriginInv, InInv, FaultFreeInv, OutInv;
    ReloadKeepsOut(s, cfg, lbl);
    ReloadKeepsRest(s, s.(cfg := cfg, seen := s.seen + [cfg]), lbl);
  }

  lemma ReplicaSyncsInv(s: State, data: Bytes, lbl: Bytes)
    requires Inv(s, lbl) && s.replica.Syncing?
    ensures Inv(Next(s, ReplicaSyncs(data)), lbl)
  {
    hide ParseMessage, Encode, Ascii, Served, FaultFreeInv, OutInv;
    var t := Next(s, ReplicaSyncs(data));
    assert Request(lbl) + s.rSync + data == Request(lbl) + (s.rSync + data);
    assert t.rOut[..s.oTaken] == s.rOut[..s.oTaken];
    SameOut(s, t, lbl);
  }

  lemma SameOut(s: State, t: State, lbl: Bytes)
    requires OutInv(s, lbl) && FaultFreeInv(s, lbl)
    requires t == s.(rOut := t.rOut, rSync := t.rSync)
    ensures OutInv(t, lbl) && FaultFreeInv(t, lbl)
  {
    hide Encode, Served;
  }

  lemma OriginSyncsInv(s: State, data: Bytes, lbl: Bytes)
    requires Inv(s, lbl) && s.origin.Serving?
    ensures Inv(Next(s, OriginSyncs(data)), lbl)
  {
    hide ParseMessage, Encode, Ascii, Served, InInv;
    var t := Next(s, OriginSyncs(data));
    assert Request(lbl) + s.oSync + data == Request(lbl) + (s.oSync + data);
    assert t.oOut[..s.rTaken] == s.oOut[..s.rTaken];
    SameIn(s, t, lbl);
  }

  lemma TakesInv(s: State, step: Step, lbl: Bytes)
    requires Inv(s, lbl) && Enabled(s, step) && (step.ReplicaTakes? || step.OriginTakes?)
    ensures Inv(Next(s, step), lbl)
  {
    hide ParseMessage, Encode, Ascii, Served;
  }

  lemma EndsInv(s: State, step: Step, lbl: Bytes)
    requires Inv(s, lbl) && Enabled(s, step)
    requires step.ReplicaSeesEnd? || step.OriginSeesEnd? || step.Reset? || step.ReplicaCancels? || step.OriginGivesUp?
    ensures Inv(Next(s, step), lbl)
  {
    hide ParseMessage, Encode, Ascii, Served;
    if step.ReplicaSeesEnd? { ClosedEarly(s, lbl); }
    if step.Reset? { ResetOnlyUnread(s, lbl); }
    if step.OriginSeesEnd? { GoneEarly(s, lbl); }
  }

  /** Without faults the replica never sees the connection end inside an answer. */
  lemma ClosedEarly(s: State, lbl: Bytes)
    requires Inv(s, lbl) && s.replica.Reading? && s.origin.Closed? && UnreadByReplica(s) == []
    ensures s.faulted
  {
    hide ParseMessage, Encode, Ascii;
    assert s.oOut[..s.rTaken] == s.oOut;
    Constants();
    RoundTrip(ERROR_BYTE, NO_FILES, []);
    RoundTrip(ERROR_BYTE, UNKNOWN, []);
    assert NO_FILES_MSG + [] == NO_FILES_MSG && UNKNOWN_MSG + [] == UNKNOWN_MSG;
  }

  /** Without faults a reset happens only behind the no-files rejection. */
  lemma ResetOnlyUnread(s: State, lbl: Bytes)
    requires Inv(s, lbl) && Enabled(s, Reset)
    ensures !s.faulted ==> s.oOut == NO_FILES_MSG
  {
    hide ParseMessage, Encode, Ascii;
    assert s.replica.Sending? ==> |s.rOut| < |Request(lbl)|;
  }

  /** Without faults the replica is not gone while the origin still reads the label. */
  lemma GoneEarly(s: State, lbl: Bytes)
    requires Inv(s, lbl) && s.origin.ReadingLabel? && ReplicaGone(s)
    ensures s.faulted
  {
    hide ParseMessage, Encode, Ascii;
  }

  lemma StepInv(s: State, step: Step, lbl: Bytes)
    requires Inv(s, lbl) && Enabled(s, step)
    ensures Inv(Next(s, step), lbl)
  {
    hide Inv, ParseMessage, Encode, Wanted, Judge, Resolve, Served;
    match step
    case ReplicaSends(k) => ReplicaSendsInv(s, lbl, k);
    case ReplicaReads(k) => ReplicaReadsInv(s, lbl, k);
    case OriginSends(k) => OriginSendsInv(s, lbl, k);
    case OriginReads(k) => OriginReadsInv(s, lbl, k);
    case OriginStarts => OriginStartsInv(s, lbl);
    case Reload(cfg) => ReloadInv(s, cfg, lbl);
    case ReplicaSyncs(data) => ReplicaSyncsInv(s, data, lbl);
    case OriginSyncs(data) => OriginSyncsInv(s, data, lbl);
    case ReplicaTakes(_) => TakesInv(s, step, lbl);
    case OriginTakes(_) => TakesInv(s, step, lbl);
    case _ => EndsInv(s, step, lbl);
  }

  // ---------- runs ----------

  ghost predicate Runs(s: State, steps: seq<Step>)
    decreases |steps|
  {
    steps == [] || (Enabled(s, steps[0]) && Runs(Next(s, steps[0]), steps[1..]))
  }

  ghost function After(s: State, steps: seq<Step>): State
    requires Runs(s, steps)
    decreases |steps|
  {
    if steps == [] then s else After(Next(s, steps[0]), steps[1..])
  }

  lemma {:induction false} RunInv(s: State, steps: seq<Step>, lbl: Bytes)
    requires Inv(s, lbl) && Runs(s, steps)
    ensures Inv(After(s, steps), lbl)
    decreases |steps|
  {
    hide Inv, Enabled, Next;
    if steps != [] {
      StepInv(s, steps[0], lbl);
      RunInv(Next(s, steps[0]), steps[1..], lbl);
    }
  }

  /** Safety. A replica in the sync phase talks to an origin that accepted the very same
      label and resolved it in a configuration it had; and in both directions the unread
      bytes are exactly what the sync protocols wrote and have not yet read. */
  lemma SyncMeansAgreement(lbl: Bytes, cfg: Config, steps: seq<Step>)
    requires |lbl| <= MAX_LEN && Runs(Start(lbl, cfg), steps)
    ensures var s := After(Start(lbl, cfg), steps);
            && (s.replica.Syncing? ==>
                  && (exists c | c in s.seen :: Serves(c, lbl) && s.agreed == Some((lbl, c[lbl])))
                  && s.rGot <= |s.oSync| && InBounds(s) && UnreadByReplica(s) == s.oSync[s.rGot..])
            && (s.origin.Serving? ==>
                  && s.agreed == Some((lbl, s.origin.source)) && s.origin.lbl == lbl
                  && s.oGot <= |s.rSync| && InBounds(s) && UnreadByOrigin(s) == s.rSync[s.oGot..])
  {
    hide ParseMessage, Encode, Enabled, Next, Served, FaultFreeInv;
    StartInv(lbl, cfg);
    RunInv(Start(lbl, cfg), steps, lbl);
    forall c { ServedAre(c); }
  }

  /** A label that is too long never reaches the origin and never syncs. */
  lemma LongLabelNeverSent(lbl: Bytes, cfg: Config, steps: seq<Step>)
    requires |lbl| > MAX_LEN && Runs(Start(lbl, cfg), steps)
    ensures var s := After(Start(lbl, cfg), steps);
            s.replica.Failed? && s.rOut == [] && s.agreed.None? && !s.origin.Serving?
  {
    EmptyNeedsMore();
    SilentStays(Start(lbl, cfg), steps);
  }

  /** The replica failed before it sent anything, so the origin has nothing to agree to. */
  ghost predicate Silent(s: State) {
    && s.replica.Failed? && s.rOut == [] && s.agreed.None?
    && !s.origin.Serving? && !s.origin.Echoing? && !s.origin.Rejecting?
  }

  lemma {:induction false} SilentStays(s: State, steps: seq<Step>)
    requires Silent(s) && Runs(s, steps)
    ensures Silent(After(s, steps))
    decreases |steps|
  {
    hide Judge, Resolve, Served, ParseMessage, Wanted;
    if steps != [] {
      assert Enabled(s, steps[0]);
      SilentStays(Next(s, steps[0]), steps[1..]);
    }
  }

  // ---------- progress ----------

  predicate Stopped(s: State) {
    (s.replica.Syncing? || ReplicaGone(s)) && (s.origin.Serving? || s.origin.Closed?)
  }

  /** A handshake step some side can take. */
  function SomeStep(s: State): Step
    requires InBounds(s)
  {
    match s.replica
    case Sending(rest) => ReplicaSends(|rest|)
    case Reading(_) =>
      if UnreadByReplica(s) != [] then ReplicaReads(1)
      else if s.origin.Closed? then ReplicaSeesEnd
      else OriginStep(s)
    case _ => OriginStep(s)
  }

  function OriginStep(s: State): Step
    requires InBounds(s)
  {
    match s.origin
    case Accepted => OriginStarts
    case NoFiles(rest) => OriginSends(|rest|)
    case Rejecting(rest) => OriginSends(|rest|)
    case Echoing(rest, _, _) => OriginSends(|rest|)
    case ReadingLabel(_) => if UnreadByOrigin(s) != [] then OriginReads(1) else OriginSeesEnd
    case _ => OriginGivesUp
  }

  /** Never both waiting: until both sides are through, one of them can move. */
  lemma NeverBothWaiting(lbl: Bytes, cfg: Config, steps: seq<Step>)
    requires |lbl| <= MAX_LEN && Runs(Start(lbl, cfg), steps)
    ensures var s := After(Start(lbl, cfg), steps);
            InBounds(s) && (Stopped(s) || (Enabled(s, SomeStep(s)) && !SomeStep(s).OriginGivesUp?))
  {
    StartInv(lbl, cfg);
    RunInv(Start(lbl, cfg), steps, lbl);
    InvMoves(After(Start(lbl, cfg), steps), lbl);
  }

  lemma InvMoves(s: State, lbl: Bytes)
    requires Inv(s, lbl)
    ensures InBounds(s) && (Stopped(s) || (Enabled(s, SomeStep(s)) && !SomeStep(s).OriginGivesUp?))
  {
    hide Encode, Served, FaultFreeInv, Ascii, ParseMessage, Wanted, OutInv, InInv, OriginInv, Request, OriginStep;
    if s.replica.Reading? {
      NeedMoreIsShort(s.replica.got);
      if s.origin.Serving? { EchoUnread(s, lbl); }
    }
    if !s.origin.Serving? && !s.origin.Closed? && !s.replica.Sending? { OriginMoves(s, lbl); }
  }

  lemma OriginMoves(s: State, lbl: Bytes)
    requires Inv(s, lbl) && !s.origin.Serving? && !s.origin.Closed? && !s.replica.Sending?
    ensures Enabled(s, OriginStep(s)) && !OriginStep(s).OriginGivesUp?
  {
    hide Encode, Served, FaultFreeInv, Ascii, ParseMessage, Wanted, OutInv, InInv, Request;
    if s.origin.ReadingLabel? {
      NeedMoreIsShort(s.origin.got);
      if s.replica.Reading? { LabelUnread(s, lbl); }
    }
  }

  /** While the origin still wants label bytes and the replica has sent them, some are unread. */
  lemma LabelUnread(s: State, lbl: Bytes)
    requires Inv(s, lbl) && s.origin.ReadingLabel? && |s.rOut| >= |Request(lbl)|
    ensures UnreadByOrigin(s) != []
  {
    hide Encode, Served, FaultFreeInv, Ascii, ParseMessage, ReplicaInv, OutInv;
    RoundTrip(LABEL_BYTE, lbl, s.rSync);
    assert s.rOut[..|s.rOut|] == s.rOut;
  }

  lemma EchoUnread(s: State, lbl: Bytes)
    requires Inv(s, lbl) && s.replica.Reading? && s.origin.Serving?
    ensures UnreadByReplica(s) != []
  {
    hide Encode, Served, FaultFreeInv, Ascii, ParseMessage, InInv;
    RoundTrip(LABEL_BYTE, lbl, s.oSync);
    assert s.oOut[..|s.oOut|] == s.oOut;
  }

  predicate Handshake(step: Step) {
    !step.Reload? && !step.ReplicaSyncs? && !step.OriginSyncs? && !step.ReplicaTakes? && !step.OriginTakes?
  }

  function ReplicaRank(r: Replica): int {
    match r
    case Sending(rest) => 1000 + |rest| case Reading(got) => 500 - |got|
    case Syncing => 1 case Rejected(_) => 0 case Failed => 0
  }

  function OriginRank(o: Origin): int {
    match o
    case Accepted => 3000 case ReadingLabel(got) => 2000 - |got|
    case NoFiles(rest) => 1000 + |rest| case Rejecting(rest) => 1000 + |rest| case Echoing(rest, _, _) => 1000 + |rest|
    case Serving(_, _) => 1 case Closed => 0
  }

  function Measure(s: State): int { ReplicaRank(s.replica) + OriginRank(s.origin) }

  lemma RanksBounded(s: State, lbl: Bytes)
    requires Inv(s, lbl)
    ensures ReplicaRank(s.replica) >= 0 && (s.replica.Reading? ==> ReplicaRank(s.replica) > 400)
    ensures OriginRank(s.origin) >= 0 && (s.origin.ReadingLabel? ==> OriginRank(s.origin) > 1900)
  {
    hide Encode, Served, Ascii, ParseMessage, OutInv, InInv, FaultFreeInv;
    if s.replica.Reading? { NeedMoreIsShort(s.replica.got); }
    if s.origin.ReadingLabel? { NeedMoreIsShort(s.origin.got); }
  }

  lemma HandshakeDecreases(s: State, step: Step, lbl: Bytes)
    requires Inv(s, lbl) && Enabled(s, step)
    ensures if Handshake(step) then Measure(Next(s, step)) < Measure(s) else Measure(Next(s, step)) == Measure(s)
  {
    hide Encode, Served, Ascii, ParseMessage, OutInv, InInv, FaultFreeInv, Wanted, ReplicaInv, OriginInv, Inv;
    InvLength(s, lbl);
    Lengths(lbl);
    RanksBounded(s, lbl);
    if step.ReplicaReads? {
      NeedMoreIsShort(s.replica.got);
    } else if step.OriginReads? {
      NeedMoreIsShort(s.origin.got);
      RequestIsWhole(s, lbl, step.k);
    }
  }

  lemma InvLength(s: State, lbl: Bytes)
    requires Inv(s, lbl)
    ensures |lbl| <= MAX_LEN
  {
    hide ReplicaInv, OriginInv, OutInv, InInv, FaultFreeInv;
  }

  lemma Lengths(lbl: Bytes)
    requires |lbl| <= MAX_LEN
    ensures |NO_FILES_MSG| <= 5 + MAX_LEN && |UNKNOWN_MSG| <= 5 + MAX_LEN && |Request(lbl)| <= 5 + MAX_LEN
  {
    Constants();
  }

  function HandshakeSteps(steps: seq<Step>): nat {
    if steps == [] then 0 else (if Handshake(steps[0]) then 1 else 0) + HandshakeSteps(steps[1..])
  }

  /** Every run makes only so many handshake steps, reloads and sync traffic apart; by
      `NeverBothWaiting` a run that can make no more has both sides through. */
  lemma {:induction false} HandshakeIsBounded(s: State, steps: seq<Step>, lbl: Bytes)
    requires Inv(s, lbl) && Runs(s, steps)
    ensures HandshakeSteps(steps) <= Measure(s)
    decreases |steps|
  {
    hide Inv, Enabled, Next, Measure;
    assert Measure(s) >= 0 by { MeasureBounded(s, lbl); }
    if steps != [] {
      StepInv(s, steps[0], lbl);
      HandshakeDecreases(s, steps[0], lbl);
      HandshakeIsBounded(Next(s, steps[0]), steps[1..], lbl);
    }
  }

  lemma MeasureBounded(s: State, lbl: Bytes)
    requires Inv(s, lbl)
    ensures Measure(s) >= 0
  {
    RanksBounded(s, lbl);
  }

  /** How a fault-free handshake ends: both sides syncing, or the replica refused and the
      origin closed. The reason reaches the replica unless the origin wrote it without
      reading the request; then a reset may take it away. */
  lemma Outcome(lbl: Bytes, cfg: Config, steps: seq<Step>)
    requires |lbl| <= MAX_LEN && Runs(Start(lbl, cfg), steps)
    ensures var s := After(Start(lbl, cfg), steps);
            Stopped(s) && !s.faulted ==>
              || (s.replica.Syncing? && s.origin.Serving?)
              || (s.origin.Closed? && s.replica == Rejected(NO_FILES))
              || (s.origin.Closed? && s.replica == Rejected(UNKNOWN))
              || (s.origin.Closed? && s.replica == Failed && s.oOut == NO_FILES_MSG)
  {
    StartInv(lbl, cfg);
    RunInv(Start(lbl, cfg), steps, lbl);
    var s := After(Start(lbl, cfg), steps);
    if Stopped(s) && !s.faulted { StoppedShape(s, lbl); }
  }

  lemma StoppedShape(s: State, lbl: Bytes)
    requires Inv(s, lbl) && Stopped(s) && !s.faulted
    ensures || (s.replica.Syncing? && s.origin.Serving?)
            || (s.origin.Closed? && s.replica == Rejected(NO_FILES))
            || (s.origin.Closed? && s.replica == Rejected(UNKNOWN))
            || (s.origin.Closed? && s.replica == Failed && s.oOut == NO_FILES_MSG)
  {
    hide ParseMessage, Served, Ascii, Encode;
  }

  /** A fault-free end in which the reason of a rejection did not reach the replica. */
  predicate TextLost(s: State) {
    !s.faulted && s.origin.Closed? && s.replica.Failed?
  }

  predicate NoReload(steps: seq<Step>) {
    forall i | 0 <= i < |steps| :: !steps[i].Reload?
  }

  /** Without reloads, the text of a rejection can be lost exactly when the configuration
      serves nothing: that rejection is written without reading the label. */
  lemma TextLostExactly(lbl: Bytes, cfg: Config)
    requires |lbl| <= MAX_LEN
    ensures (exists steps ::
               Runs(Start(lbl, cfg), steps) && NoReload(steps) && TextLost(After(Start(lbl, cfg), steps))) <==>
            ServesNothing(cfg)
  {
    hide Served, Runs, After, ServesNothing;
    if ServesNothing(cfg) { var steps := RejectionCanBeLost(lbl, cfg); }
    forall steps | Runs(Start(lbl, cfg), steps) && NoReload(steps) && TextLost(After(Start(lbl, cfg), steps))
      ensures ServesNothing(cfg)
    {
      TextKept(lbl, cfg, steps);
      SeenStays(Start(lbl, cfg), steps);
    }
  }

  /** With reloads, no text is lost while every configuration serves at least one file. */
  lemma TextKept(lbl: Bytes, cfg: Config, steps: seq<Step>)
    requires |lbl| <= MAX_LEN && Runs(Start(lbl, cfg), steps)
    ensures var s := After(Start(lbl, cfg), steps);
            TextLost(s) ==> exists c | c in s.seen :: ServesNothing(c)
  {
    hide Served, ReplicaInv, OriginInv, OutInv, InInv;
    StartInv(lbl, cfg);
    RunInv(Start(lbl, cfg), steps, lbl);
    EmptyRun(Start(lbl, cfg), steps, lbl);
    forall c { ServedAre(c); }
  }

  /** The no-files rejection is only written under a configuration that serves nothing. */
  ghost predicate EmptyInv(s: State) {
    s.origin.NoFiles? || (s.origin.Closed? && !s.faulted && s.oOut == NO_FILES_MSG) ==>
      exists c | c in s.seen :: |Served(c)| == 0
  }

  lemma EmptyStep(s: State, step: Step, lbl: Bytes)
    requires Inv(s, lbl) && EmptyInv(s) && Enabled(s, step)
    ensures EmptyInv(Next(s, step))
  {
    hide Served, ParseMessage, Encode, Ascii, ReplicaInv, OutInv, InInv, FaultFreeInv, Judge, Wanted;
    Constants();
    assert s.seen[|s.seen| - 1] in s.seen;
    match step
    case OriginSends(k) => SplitAt(s.oOut, s.origin.rest, k);
    case Reload(cfg) => assert forall c | c in s.seen :: c in s.seen + [cfg];
    case _ =>
  }

  lemma {:induction false} EmptyRun(s: State, steps: seq<Step>, lbl: Bytes)
    requires Inv(s, lbl) && EmptyInv(s) && Runs(s, steps)
    ensures EmptyInv(After(s, steps))
    decreases |steps|
  {
    hide Inv, EmptyInv, Enabled, Next;
    if steps != [] {
      StepInv(s, steps[0], lbl);
      EmptyStep(s, steps[0], lbl);
      EmptyRun(Next(s, steps[0]), steps[1..], lbl);
    }
  }

  lemma {:induction false} SeenStays(s: State, steps: seq<Step>)
    requires Runs(s, steps) && NoReload(steps)
    ensures After(s, steps).seen == s.seen
    decreases |steps|
  {
    hide Judge, Resolve, Served, ParseMessage, Wanted;
    if steps != [] {
      assert Enabled(s, steps[0]);
      SeenStays(Next(s, steps[0]), steps[1..]);
    }
  }

  /** The run that loses it: the origin rejects without reading and closes, and the reset
      overtakes its answer. */
  lemma RejectionCanBeLost(lbl: Bytes, cfg: Config) returns (steps: seq<Step>)
    requires |lbl| <= MAX_LEN && ServesNothing(cfg)
    ensures Runs(Start(lbl, cfg), steps) && NoReload(steps)
    ensures var s := After(Start(lbl, cfg), steps);
            Stopped(s) && TextLost(s) && s.oOut == NO_FILES_MSG
  {
    hide Encode, Ascii, Served;
    Constants();
    ServedAre(cfg);
    var s0 := Start(lbl, cfg);
    var n := |NO_FILES_MSG|;
    var s1 := Next(s0, OriginStarts);
    assert s1.origin == NoFiles(NO_FILES_MSG);
    var s2 := Next(s1, OriginSends(n));
    assert NO_FILES_MSG[..n] == NO_FILES_MSG && [] + NO_FILES_MSG == NO_FILES_MSG;
    assert s2.origin == Closed && s2.oOut == NO_FILES_MSG;
    var s3 := Next(s2, Reset);
    OneStep(s2, Reset, []);
    OneStep(s1, OriginSends(n), [Reset]);
    OneStep(s0, OriginStarts, [OriginSends(n), Reset]);
    assert [OriginSends(n)] + [Reset] == [OriginSends(n), Reset];
    steps := [OriginStarts] + [OriginSends(n), Reset];
    assert [Reset] + [] == [Reset];
  }

  lemma OneStep(s: State, step: Step, steps: seq<Step>)
    requires Enabled(s, step) && Runs(Next(s, step), steps)
    ensures Runs(s, [step] + steps) && After(s, [step] + steps) == After(Next(s, step), steps)
  {
    hide Enabled, Next;
    assert ([step] + steps)[0] == step && ([step] + steps)[1..] == steps;
  }
}
