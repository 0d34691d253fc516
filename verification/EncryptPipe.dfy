/** The encrypted upload: a producer goroutine encrypting into an unbuffered pipe, and
    `PutObject` reading from it, in any interleaving and with any failure on either side. */
module EncryptPipe {
  import opened Text

  type Bytes = seq<int>

  /** age output: a header, ciphertext of the plaintext bytes, and a final authenticated
      chunk. Encrypting a prefix of a file and closing gives a valid age file. */
  datatype Frame = Header | Data(b: int) | Final

  function DataOf(plain: Bytes): (r: seq<Frame>)
    ensures |r| == |plain| && forall i | 0 <= i < |plain| :: r[i] == Data(plain[i])
  {
    seq(|plain|, i requires 0 <= i < |plain| => Data(plain[i]))
  }

  function Cipher(plain: Bytes): seq<Frame> { [Header] + DataOf(plain) + [Final] }

  /** Where the producer goroutine is. `Writing` is blocked in `pipeWriter.Write` until the
      reader has taken all of `pending` or has closed its end. */
  datatype Producer =
    | Opening                              // about to open the file
    | WritingHeader                        // inside age.Encrypt
    | Copying                              // io.Copy: read a piece, hand ciphertext on
    | Closing                              // encryptWriter.Close
    | Finishing(err: bool)                 // file.Close, then CloseWithError
    | Reporting(err: bool)                 // sending to the buffered channel
    | Exited

  /** Where the uploading goroutine is. */
  datatype Consumer =
    | Putting                              // inside PutObject
    | Returned(ok: bool)                   // PutObject has returned
    | Waiting(ok: bool)                    // reader closed, receiving from the channel
    | Joined(result: bool)                 // true: errors.Join gave nil

  datatype State = State(
    producer: Producer,
    consumer: Consumer,
    read: nat,                             // plaintext bytes read from the file
    flushed: nat,                          // plaintext bytes whose ciphertext was written
    copyFailed: bool,
    pending: seq<Frame>,                   // the rest of the current pipe write
    received: seq<Frame>,                  // what the consumer has read
    eof: bool,                             // the body was read to a clean end
    readerClosed: bool,
    writerClosed: Option<bool>,            // Some(err)
    channel: Option<bool>,                 // Some(err)
    announced: Option<nat>)                // the content length sent ahead, if any

  function Start(announced: Option<nat>): State {
    State(Opening, Putting, 0, 0, false, [], [], false, false, None, None, announced)
  }

  /** The request refuses a body that ends at another length than the one it announced. */
  predicate WrongLength(s: State) {
    s.eof && s.announced.Some? && s.announced.value != |s.received|
  }

  /** One step of either side. */
  datatype Step =
    | OpenFails
    | OpenSucceeds
    | WriteDone                            // the pipe write returned: all taken, or reader closed
    | ReadPiece(n: nat, m: nat)            // n more bytes read, ciphertext of m more handed on
    | ReadEOF
    | ReadFails
    | FileClosed(failed: bool)
    | Report
    | Take(k: nat)                         // the consumer reads k pending frames
    | SeeEnd                               // the consumer's read reports the writer's close
    | BodyClosedEarly                      // the HTTP client closes the body while sending
    | PutReturns(ok: bool)                 // at any time: the answer may come before the body is drained
    | CloseReader
    | Join

  /** What is encrypted but not yet written: the writer may hold back bytes until Close. */
  function Held(s: State, plain: Bytes): seq<Frame>
    requires s.flushed <= s.read <= |plain|
  {
    DataOf(plain[s.flushed..s.read])
  }

  predicate Enabled(s: State, step: Step, plain: Bytes) {
    match step
    case OpenFails => s.producer.Opening?
    case OpenSucceeds => s.producer.Opening?
    case WriteDone =>
      (s.producer.WritingHeader? || s.producer.Closing? || (s.producer.Copying? && s.pending != []))
      && (s.pending == [] || s.readerClosed)
    case ReadPiece(n, m) => s.producer.Copying? && s.pending == [] && 0 < n && s.read + n <= |plain|
      && s.flushed + m <= s.read + n
    case ReadEOF => s.producer.Copying? && s.pending == [] && s.read == |plain| && s.flushed <= s.read
    case ReadFails => s.producer.Copying? && s.pending == [] && s.flushed <= s.read <= |plain|
    case FileClosed(_) => s.producer.Finishing?
    case Report => s.producer.Reporting?
    case Take(k) => s.consumer.Putting? && !s.readerClosed && 0 < k <= |s.pending|
    case SeeEnd =>
      s.consumer.Putting? && !s.eof && !s.readerClosed && s.pending == [] && s.writerClosed == Some(false)
    case BodyClosedEarly => s.consumer.Putting? && !s.readerClosed
    case PutReturns(ok) => s.consumer.Putting? && (ok ==> !WrongLength(s))
    case CloseReader => s.consumer.Returned?
    case Join => s.consumer.Waiting? && s.channel.Some?
  }

  function Next(s: State, step: Step, plain: Bytes): State
    requires Enabled(s, step, plain)
  {
    match step
    case OpenFails => s.(producer := Finishing(true))
    case OpenSucceeds => s.(producer := WritingHeader, pending := [Header])
    case WriteDone =>
      if s.pending != [] then
        // the reader is closed: the write fails, and every later write would too
        if s.producer.WritingHeader? then s.(producer := Finishing(true), pending := [])
        else s.(producer := Finishing(true), pending := [], copyFailed := true)
      else if s.producer.WritingHeader? then s.(producer := Copying)
      else s.(producer := Finishing(s.copyFailed))
    case ReadPiece(n, m) =>
      var r := s.(read := s.read + n, flushed := s.flushed + m);
      r.(pending := DataOf(plain[s.flushed..s.flushed + m]))
    case ReadEOF => s.(producer := Closing, flushed := s.read, pending := Held(s, plain) + [Final])
    case ReadFails => s.(producer := Closing, copyFailed := true, flushed := s.read,
      pending := Held(s, plain) + [Final])
    case FileClosed(failed) =>
      var err := s.producer.err || failed;
      s.(producer := Reporting(err), writerClosed := Some(err))
    case Report => s.(producer := Exited, channel := Some(s.producer.err))
    case Take(k) => s.(received := s.received + s.pending[..k], pending := s.pending[k..])
    case SeeEnd => s.(eof := true)
    case BodyClosedEarly => s.(readerClosed := true)
    case PutReturns(ok) => s.(consumer := Returned(ok))
    case CloseReader => s.(consumer := Waiting(s.consumer.ok), readerClosed := true)
    case Join => s.(consumer := Joined(s.consumer.ok && !s.channel.value))
  }

  // ---------- invariant ----------

  /** The frames the producer has put into the pipe when nothing was lost. */
  function Written(s: State): seq<Frame> { s.received + s.pending }

  ghost predicate Clean(s: State, plain: Bytes)
    requires s.flushed <= s.read <= |plain|
  {
    match s.producer
    case Opening => Written(s) == []
    case WritingHeader => Written(s) == [Header]
    case Copying => Written(s) == [Header] + DataOf(plain[..s.flushed])
    case Closing => Written(s) == Cipher(plain[..s.read]) && (!s.copyFailed ==> s.read == |plain|)
    case Finishing(err) => err || (Written(s) == Cipher(plain) && s.pending == [])
    case Reporting(err) => err || (Written(s) == Cipher(plain) && s.pending == [])
    case Exited => s.channel.Some? && (s.channel.value || (Written(s) == Cipher(plain) && s.pending == []))
  }

  ghost predicate Inv(s: State, plain: Bytes) {
    && s.flushed <= s.read <= |plain|
    && Clean(s, plain)
    && (s.producer.Opening? || s.producer.WritingHeader? || s.producer.Copying? ==> !s.copyFailed)
    && (s.producer.Finishing? || s.producer.Reporting? || s.producer.Exited? ==> s.pending == [])
    && (s.producer.Opening? ==> s.pending == [])
    && (s.producer.Opening? || s.producer.WritingHeader? ==> s.read == s.flushed == 0)
    // the writer is closed from Reporting on, with the error it reports
    && (s.writerClosed.Some? <==> s.producer.Reporting? || s.producer.Exited?)
    && (s.producer.Reporting? ==> s.writerClosed == Some(s.producer.err))
    && (s.channel.Some? <==> s.producer.Exited?)
    && (s.channel.Some? ==> s.writerClosed == s.channel)
    // a clean end is only seen after a clean close
    && (s.eof ==> s.writerClosed == Some(false))
    && (s.consumer == Returned(true) || s.consumer == Waiting(true) || s.consumer == Joined(true) ==> !WrongLength(s))
    && (s.consumer.Waiting? || s.consumer.Joined? ==> s.readerClosed)
    && (s.consumer == Joined(true) ==> s.channel == Some(false))
    && (s.consumer.Joined? ==> s.channel.Some?)
  }

  lemma StartInv(announced: Option<nat>, plain: Bytes)
    ensures Inv(Start(announced), plain)
  {
  }

  lemma TakeSplits(received: seq<Frame>, pending: seq<Frame>, k: nat)
    requires k <= |pending|
    ensures (received + pending[..k]) + pending[k..] == received + pending
  {
    assert pending == pending[..k] + pending[k..];
  }

  lemma DataAppend(plain: Bytes, a: nat, b: nat)
    requires a <= b <= |plain|
    ensures DataOf(plain[..a]) + DataOf(plain[a..b]) == DataOf(plain[..b])
  {
  }

  predicate ConsumerStep(step: Step) {
    step.Take? || step.SeeEnd? || step.BodyClosedEarly? || step.PutReturns? || step.CloseReader? || step.Join?
  }

  lemma ConsumerStepInv(s: State, step: Step, plain: Bytes)
    requires Inv(s, plain) && Enabled(s, step, plain) && ConsumerStep(step)
    ensures Inv(Next(s, step, plain), plain)
  {
    hide DataOf, Cipher;
    if step.Take? { TakeSplits(s.received, s.pending, step.k); }
  }

  lemma ProducerStepInv(s: State, step: Step, plain: Bytes)
    requires Inv(s, plain) && Enabled(s, step, plain) && !ConsumerStep(step)
    ensures Inv(Next(s, step, plain), plain)
  {
    hide DataOf, Cipher;
    match step
    case ReadPiece(n, m) =>
      DataAppend(plain, s.flushed, s.flushed + m);
      assert s.received + [] == s.received;
      assert [Header] + (DataOf(plain[..s.flushed]) + DataOf(plain[s.flushed..s.flushed + m])) ==
             ([Header] + DataOf(plain[..s.flushed])) + DataOf(plain[s.flushed..s.flushed + m]);
    case ReadEOF =>
      assert s.received + [] == s.received;
      ClosingWrites(s, plain);
    case ReadFails =>
      assert s.received + [] == s.received;
      ClosingWrites(s, plain);
    case OpenSucceeds =>
    case WriteDone =>
      NoData(plain);
      assert s.pending == [] ==> Written(s) == s.received;
    case _ =>
  }

  lemma StepInv(s: State, step: Step, plain: Bytes)
    requires Inv(s, plain) && Enabled(s, step, plain)
    ensures Inv(Next(s, step, plain), plain)
  {
    hide Inv, Next, Enabled;
    if ConsumerStep(step) { ConsumerStepInv(s, step, plain); } else { ProducerStepInv(s, step, plain); }
  }

  lemma NoData(plain: Bytes)
    ensures [Header] + DataOf(plain[..0]) == [Header]
    ensures plain[..|plain|] == plain
  {
  }

  lemma Regroup(h: seq<Frame>, a: seq<Frame>, b: seq<Frame>, f: seq<Frame>)
    ensures (h + a) + (b + f) == h + (a + b) + f
  {
  }

  lemma ClosingWrites(s: State, plain: Bytes)
    requires s.flushed <= s.read <= |plain| && s.received == [Header] + DataOf(plain[..s.flushed])
    ensures s.received + (Held(s, plain) + [Final]) == Cipher(plain[..s.read])
  {
    hide DataOf;
    DataAppend(plain, s.flushed, s.read);
    Regroup([Header], DataOf(plain[..s.flushed]), DataOf(plain[s.flushed..s.read]), [Final]);
  }

  // ---------- runs ----------

  ghost predicate Runs(s: State, steps: seq<Step>, plain: Bytes)
    decreases |steps|
  {
    steps == [] || (Enabled(s, steps[0], plain) && Runs(Next(s, steps[0], plain), steps[1..], plain))
  }

  ghost function After(s: State, steps: seq<Step>, plain: Bytes): State
    requires Runs(s, steps, plain)
    decreases |steps|
  {
    if steps == [] then s else After(Next(s, steps[0], plain), steps[1..], plain)
  }

  lemma {:induction false} RunInv(s: State, steps: seq<Step>, plain: Bytes)
    requires Inv(s, plain) && Runs(s, steps, plain)
    ensures Inv(After(s, steps, plain), plain)
    decreases |steps|
  {
    hide Inv, Enabled;
    if steps != [] {
      assert Enabled(s, steps[0], plain) && Runs(Next(s, steps[0], plain), steps[1..], plain);
      StepInv(s, steps[0], plain);
      RunInv(Next(s, steps[0], plain), steps[1..], plain);
    }
  }

  /** A nil result means the provider received the whole ciphertext of the whole file, even
      when `PutObject` returned before the body was drained; and a body that was read to a
      clean end is that ciphertext, whatever the result. */
  lemma UploadIsWhole(announced: Option<nat>, steps: seq<Step>, plain: Bytes)
    requires Runs(Start(announced), steps, plain)
    ensures var s := After(Start(announced), steps, plain);
            && (s.consumer == Joined(true) ==> s.received == Cipher(plain))
            && (s.eof ==> s.received == Cipher(plain))
  {
    hide Cipher;
    StartInv(announced, plain);
    RunInv(Start(announced), steps, plain);
    var s := After(Start(announced), steps, plain);
    assert s.received + [] == s.received;
  }

  /** What has gone into the pipe is always a beginning of the ciphertext of what was read. */
  ghost predicate PrefixInv(s: State, plain: Bytes)
    requires s.read <= |plain|
  {
    s.received + s.pending <= Cipher(plain[..s.read])
  }

  lemma PrefixStep(s: State, step: Step, plain: Bytes)
    requires Inv(s, plain) && PrefixInv(s, plain) && Enabled(s, step, plain)
    ensures Next(s, step, plain).read <= |plain| && PrefixInv(Next(s, step, plain), plain)
  {
    hide DataOf;
    StepInv(s, step, plain);
    var t := Next(s, step, plain);
    match step
    case Take(k) => TakeSplits(s.received, s.pending, k);
    case ReadPiece(n, m) =>
      DataAppend(plain[..t.read], t.flushed, t.read);
      assert plain[..t.read][..t.flushed] == plain[..t.flushed] && plain[..t.read][..t.read] == plain[..t.read];
      Regroup([Header], DataOf(plain[..t.flushed]), DataOf(plain[..t.read][t.flushed..t.read]), [Final]);
      var more := DataOf(plain[..t.read][t.flushed..t.read]) + [Final];
      assert Cipher(plain[..t.read]) == [Header] + DataOf(plain[..t.flushed]) + more;
    case WriteDone => assert s.received <= s.received + s.pending && s.received + [] == s.received;
    case OpenSucceeds => assert [] + [Header] == [Header];
    case _ =>
  }

  lemma {:induction false} PrefixRun(s: State, steps: seq<Step>, plain: Bytes)
    requires Inv(s, plain) && s.read <= |plain| && PrefixInv(s, plain) && Runs(s, steps, plain)
    ensures After(s, steps, plain).read <= |plain| && PrefixInv(After(s, steps, plain), plain)
    decreases |steps|
  {
    hide Inv, Enabled, Next, PrefixInv;
    if steps != [] {
      StepInv(s, steps[0], plain);
      PrefixStep(s, steps[0], plain);
      PrefixRun(Next(s, steps[0], plain), steps[1..], plain);
    }
  }

  /** As many frames as the whole ciphertext has are the whole ciphertext. */
  lemma FullLengthIsWhole(announced: Option<nat>, steps: seq<Step>, plain: Bytes)
    requires Runs(Start(announced), steps, plain)
    ensures var s := After(Start(announced), steps, plain);
            && |s.received| <= |Cipher(plain)|
            && (|s.received| == |Cipher(plain)| ==> s.received == Cipher(plain))
  {
    hide DataOf;
    StartInv(announced, plain);
    PrefixRun(Start(announced), steps, plain);
    var s := After(Start(announced), steps, plain);
    assert s.received <= s.received + s.pending <= Cipher(plain[..s.read]);
    assert |Cipher(plain[..s.read])| == s.read + 2;
    assert plain[..|plain|] == plain;
  }

  // ---------- nobody blocks forever ----------

  predicate Done(s: State) { s.consumer.Joined? && s.producer.Exited? }

  /** Steps nobody can count on: failures of the file or the network, and an answer of the
      provider that comes without the request having run to its end. */
  predicate Spontaneous(s: State, step: Step) {
    match step
    case OpenFails => true
    case ReadFails => true
    case FileClosed(failed) => failed
    case BodyClosedEarly => true
    case PutReturns(ok) =>
      if ok then !s.eof else !(s.readerClosed || s.writerClosed == Some(true) || WrongLength(s))
    case _ => false
  }

  /** What each side does next when nothing fails. */
  function ProducerMove(s: State, plain: Bytes): Step {
    match s.producer
    case Opening => OpenSucceeds
    case WritingHeader => WriteDone
    case Copying => if s.pending != [] then WriteDone else if s.read < |plain| then ReadPiece(1, 0) else ReadEOF
    case Closing => WriteDone
    case Finishing(_) => FileClosed(false)
    case Reporting(_) => Report
    case Exited => Report
  }

  function ConsumerMove(s: State): Step {
    match s.consumer
    case Putting =>
      if s.readerClosed || s.writerClosed == Some(true) || WrongLength(s) then PutReturns(false)
      else if s.pending != [] then Take(1)
      else if s.eof then PutReturns(true)
      else SeeEnd
    case Returned(_) => CloseReader
    case Waiting(_) => Join
    case Joined(_) => Join
  }

  /** No reachable state is a deadlock: until both sides are done, one of them has a step
      that needs no failure and no early answer. */
  lemma NeverStuck(announced: Option<nat>, steps: seq<Step>, plain: Bytes)
    requires Runs(Start(announced), steps, plain)
    ensures var s := After(Start(announced), steps, plain);
            Done(s) || exists step :: Enabled(s, step, plain) && !Spontaneous(s, step)
  {
    StartInv(announced, plain);
    RunInv(Start(announced), steps, plain);
    SomeoneMoves(After(Start(announced), steps, plain), plain);
  }

  lemma SomeoneMoves(s: State, plain: Bytes)
    requires Inv(s, plain)
    ensures Done(s)
            || (Enabled(s, ProducerMove(s, plain), plain) && !Spontaneous(s, ProducerMove(s, plain)))
            || (Enabled(s, ConsumerMove(s), plain) && !Spontaneous(s, ConsumerMove(s)))
  {
    hide Clean;
    if s.writerClosed.Some? {
      var err := s.writerClosed.value;
      assert s.writerClosed == if err then Some(true) else Some(false);
    }
  }

  function ProducerRank(p: Producer): nat {
    match p
    case Opening => 6 case WritingHeader => 5 case Copying => 4 case Closing => 3
    case Finishing(_) => 2 case Reporting(_) => 1 case Exited => 0
  }

  function ConsumerRank(s: State): nat {
    match s.consumer
    case Putting => 3 + (if s.eof then 0 else 1) + (if s.readerClosed then 0 else 1)
    case Returned(_) => 2 case Waiting(_) => 1 case Joined(_) => 0
  }

  /** Work left: stages, unread plaintext, frames in the pipe. */
  function Measure(s: State, plain: Bytes): nat
    requires s.read <= |plain| && s.flushed <= |plain|
  {
    2 * (|plain| - s.flushed) + (|plain| - s.read) + |s.pending| + 3 * ProducerRank(s.producer) + ConsumerRank(s)
  }

  /** Every step uses up some of the work, so every run is finite, and by `NeverStuck` it
      ends with both sides done. */
  lemma StepDecreases(s: State, step: Step, plain: Bytes)
    requires Inv(s, plain) && Enabled(s, step, plain)
    ensures var t := Next(s, step, plain);
            t.read <= |plain| && t.flushed <= |plain| && Measure(t, plain) < Measure(s, plain)
  {
    hide Clean;
  }

  lemma {:induction false} RunsAreBounded(s: State, steps: seq<Step>, plain: Bytes)
    requires Inv(s, plain) && Runs(s, steps, plain)
    ensures |steps| <= Measure(s, plain)
    decreases |steps|
  {
    hide Inv, Enabled, Measure;
    assert s.read <= |plain| && s.flushed <= |plain| by { InvBounds(s, plain); }
    if steps != [] {
      assert Enabled(s, steps[0], plain) && Runs(Next(s, steps[0], plain), steps[1..], plain);
      StepInv(s, steps[0], plain);
      StepDecreases(s, steps[0], plain);
      RunsAreBounded(Next(s, steps[0], plain), steps[1..], plain);
    }
  }

  lemma InvBounds(s: State, plain: Bytes)
    requires Inv(s, plain)
    ensures s.read <= |plain| && s.flushed <= |plain|
  {
  }

  /** One more step at the end of a run. */
  lemma {:induction false} Extend(s: State, steps: seq<Step>, step: Step, plain: Bytes)
    requires Runs(s, steps, plain) && Enabled(After(s, steps, plain), step, plain)
    ensures Runs(s, steps + [step], plain)
            && After(s, steps + [step], plain) == Next(After(s, steps, plain), step, plain)
    decreases |steps|
  {
    hide Enabled, Next;
    if steps == [] {
      assert steps + [step] == [step] && [step][1..] == [];
    } else {
      assert (steps + [step])[1..] == steps[1..] + [step] && (steps + [step])[0] == steps[0];
      Extend(Next(s, steps[0], plain), steps[1..], step, plain);
    }
  }

  /** A run to the point where the header is through and n bytes have been read. */
  lemma ReadSome(announced: Option<nat>, plain: Bytes, n: nat) returns (steps: seq<Step>)
    requires 0 < n < |plain|
    ensures Runs(Start(announced), steps, plain)
    ensures After(Start(announced), steps, plain) ==
            State(Copying, Putting, n, 0, false, [], [Header], false, false, None, None, announced)
  {
    hide DataOf;
    steps := [];
    Extend(Start(announced), steps, OpenSucceeds, plain);
    steps := steps + [OpenSucceeds];
    Extend(Start(announced), steps, Take(1), plain);
    steps := steps + [Take(1)];
    Extend(Start(announced), steps, WriteDone, plain);
    steps := steps + [WriteDone];
    Extend(Start(announced), steps, ReadPiece(n, 0), plain);
    steps := steps + [ReadPiece(n, 0)];
    assert plain[0..0] == [] && DataOf([]) == [];
    assert [] + [Header][..1] == [Header] && [Header][1..] == [];
  }

  /** Why the error must travel through the pipe: after a failed read the consumer can
      already hold a valid age file, of a truncated database. It has not seen its end. */
  lemma TruncatedFileLooksValid(announced: Option<nat>, plain: Bytes, n: nat) returns (steps: seq<Step>)
    requires 0 < n < |plain|
    ensures Runs(Start(announced), steps, plain)
    ensures var s := After(Start(announced), steps, plain);
            s.received == Cipher(plain[..n]) && s.copyFailed && s.consumer.Putting? && !s.eof
  {
    hide Cipher, DataOf;
    steps := ReadSome(announced, plain, n);
    var s := After(Start(announced), steps, plain);
    NoData(plain);
    ClosingWrites(s, plain);
    Extend(Start(announced), steps, ReadFails, plain);
    var t := Next(s, ReadFails, plain);
    steps := steps + [ReadFails];
    assert |t.pending| == n + 1;
    assert t.pending[..n + 1] == t.pending;
    Extend(Start(announced), steps, Take(n + 1), plain);
    steps := steps + [Take(n + 1)];
  }

  // ---------- the measured content length ----------

  /** `discardWriter`: counts what is written. */
  class DiscardWriter {
    var written: nat

    constructor ()
      ensures written == 0
    {
      written := 0;
    }

    method Write(p: seq<Frame>) returns (n: nat)
      modifies this
      ensures n == |p| && written == old(written) + |p|
    {
      n := |p|;
      written := written + n;
    }
  }

  /** `encryptedContentLength`: the first encryption pass, written in whatever pieces the
      encryption hands on. */
  method EncryptedContentLength(plain: Bytes, pieces: seq<seq<Frame>>) returns (length: nat)
    requires Concat(pieces) == Cipher(plain)
    ensures length == |Cipher(plain)| == |plain| + 2
  {
    hide DataOf;
    var w := new DiscardWriter();
    for i := 0 to |pieces|
      invariant w.written + |Concat(pieces[i..])| == |Cipher(plain)|
    {
      assert pieces[i..][0] == pieces[i] && pieces[i..][1..] == pieces[i + 1..];
      var n := w.Write(pieces[i]);
    }
    length := w.written;
  }

  function Concat(pieces: seq<seq<Frame>>): seq<Frame> {
    if pieces == [] then [] else pieces[0] + Concat(pieces[1..])
  }

  /** The length check of the request: a body read to its end is accepted exactly when the
      announced length is the ciphertext's. So a measured length is never refused for an
      unchanged file, and a file that changed size since is not accepted. */
  lemma AnnouncedLengthIsSent(announced: Option<nat>, steps: seq<Step>, plain: Bytes)
    requires Runs(Start(announced), steps, plain) && After(Start(announced), steps, plain).eof
    ensures var s := After(Start(announced), steps, plain);
            && (s.consumer.Putting? ==>
                  (Enabled(s, PutReturns(true), plain) <==> announced.None? || announced == Some(|Cipher(plain)|)))
            && (s.consumer == Joined(true) ==> announced.None? || announced == Some(|Cipher(plain)|))
  {
    StartInv(announced, plain);
    RunInv(Start(announced), steps, plain);
    UploadIsWhole(announced, steps, plain);
    LengthStays(Start(announced), steps, plain);
  }

  lemma {:induction false} LengthStays(s: State, steps: seq<Step>, plain: Bytes)
    requires Runs(s, steps, plain)
    ensures After(s, steps, plain).announced == s.announced
    decreases |steps|
  {
    hide Enabled;
    if steps != [] {
      assert Enabled(s, steps[0], plain);
      LengthStays(Next(s, steps[0], plain), steps[1..], plain);
    }
  }
}
