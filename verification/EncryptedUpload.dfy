/** The pipe inside the upload: what an encrypted PUT leaves in the bucket, whichever way
    the two goroutines interleave and wherever they fail. */
module EncryptedUpload {
  import opened Text
  import opened S3Key
  import opened Upload
  import EncryptPipe

  /** What the provider can tell of a body: its end, when no length was announced, or that
      the announced length has arrived. It stores nothing else, unless it reports success. */
  ghost predicate MayStore(s: EncryptPipe.State) {
    || s.consumer == EncryptPipe.Joined(true)
    || match s.announced
       case None => s.eof
       case Some(n) => |s.received| == n
  }

  ghost predicate StoresWholeOnly(announced: Option<nat>, plain: EncryptPipe.Bytes) {
    forall steps | EncryptPipe.Runs(EncryptPipe.Start(announced), steps, plain) ::
      var s := EncryptPipe.After(EncryptPipe.Start(announced), steps, plain);
      MayStore(s) ==> s.received == EncryptPipe.Cipher(plain)
  }

  lemma StoredIsWhole(announced: Option<nat>, steps: seq<EncryptPipe.Step>, plain: EncryptPipe.Bytes)
    requires EncryptPipe.Runs(EncryptPipe.Start(announced), steps, plain)
    requires announced.Some? ==> announced.value >= |EncryptPipe.Cipher(plain)|
    ensures var s := EncryptPipe.After(EncryptPipe.Start(announced), steps, plain);
            MayStore(s) ==> s.received == EncryptPipe.Cipher(plain)
  {
    hide EncryptPipe.Cipher, EncryptPipe.Runs, EncryptPipe.After;
    EncryptPipe.UploadIsWhole(announced, steps, plain);
    EncryptPipe.FullLengthIsWhole(announced, steps, plain);
    EncryptPipe.LengthStays(EncryptPipe.Start(announced), steps, plain);
  }

  /** A run in which the first n frames have arrived. */
  lemma FirstFrames(announced: Option<nat>, plain: EncryptPipe.Bytes, n: nat) returns (steps: seq<EncryptPipe.Step>)
    requires n <= |plain| + 1
    ensures EncryptPipe.Runs(EncryptPipe.Start(announced), steps, plain)
    ensures |EncryptPipe.After(EncryptPipe.Start(announced), steps, plain).received| == n
    ensures !EncryptPipe.After(EncryptPipe.Start(announced), steps, plain).consumer.Joined?
  {
    hide EncryptPipe.DataOf;
    var start := EncryptPipe.Start(announced);
    steps := [];
    if n > 0 {
      EncryptPipe.Extend(start, steps, EncryptPipe.OpenSucceeds, plain);
      steps := steps + [EncryptPipe.OpenSucceeds];
      EncryptPipe.Extend(start, steps, EncryptPipe.Take(1), plain);
      steps := steps + [EncryptPipe.Take(1)];
      if n > 1 {
        EncryptPipe.Extend(start, steps, EncryptPipe.WriteDone, plain);
        steps := steps + [EncryptPipe.WriteDone];
        EncryptPipe.Extend(start, steps, EncryptPipe.ReadPiece(n - 1, n - 1), plain);
        steps := steps + [EncryptPipe.ReadPiece(n - 1, n - 1)];
        EncryptPipe.Extend(start, steps, EncryptPipe.Take(n - 1), plain);
        steps := steps + [EncryptPipe.Take(n - 1)];
      }
    }
  }

  /** The exact condition: nothing but the whole ciphertext can ever be stored if and only
      if no length is announced or the file has not outgrown the announced one. The length
      is measured before the file is read again for sending. */
  lemma StoresWholeExactly(announced: Option<nat>, plain: EncryptPipe.Bytes)
    ensures StoresWholeOnly(announced, plain) <==>
            announced.None? || announced.value >= |EncryptPipe.Cipher(plain)|
  {
    hide EncryptPipe.Runs, EncryptPipe.After;
    if announced.None? || announced.value >= |EncryptPipe.Cipher(plain)| {
      forall steps | EncryptPipe.Runs(EncryptPipe.Start(announced), steps, plain)
        ensures var s := EncryptPipe.After(EncryptPipe.Start(announced), steps, plain);
                MayStore(s) ==> s.received == EncryptPipe.Cipher(plain)
      {
        StoredIsWhole(announced, steps, plain);
      }
    } else {
      var steps := FirstFrames(announced, plain, announced.value);
      EncryptPipe.LengthStays(EncryptPipe.Start(announced), steps, plain);
      var s := EncryptPipe.After(EncryptPipe.Start(announced), steps, plain);
      assert MayStore(s) && s.received != EncryptPipe.Cipher(plain);
    }
  }

  /** What `uploadObjectEncrypted` reports, and what is in the bucket then. */
  function OutcomeOf(s: EncryptPipe.State, stored: bool): PutOutcome {
    if s.consumer == EncryptPipe.Joined(true) then PutStored else if stored then PutUnacknowledged else PutFails
  }

  /** The encrypted PUT of one entry. Whichever way the pipe runs, the entry fails exactly
      when the pipe's result is an error, and if an object was stored it is the age file of
      the whole content: the frames the provider received are its whole ciphertext. `bytes`
      is how contents are laid out in a file. */
  lemma EncryptedPutStoresWhole(objects: map<ObjectId, Blob>, lbl: string, e: UploadEntry, src: Source,
                                bytes: Blob -> EncryptPipe.Bytes, announced: Option<nat>,
                                steps: seq<EncryptPipe.Step>, stored: bool)
    requires (e.path != "" || e.pathPrefix != "") && e.encrypt
    requires SelectFile(e, src).Some? && SelectFile(e, src).value.0 in src.files
    requires var (path, t) := SelectFile(e, src).value;
             var plain := bytes(src.files[path].content);
             && RecordOf(lbl, e, path, t, src.files[path].content).Id() !in objects
             && EncryptPipe.Runs(EncryptPipe.Start(announced), steps, plain)
             && (announced.Some? ==> announced.value >= |EncryptPipe.Cipher(plain)|)
             && var s := EncryptPipe.After(EncryptPipe.Start(announced), steps, plain);
                && s.consumer.Joined?
                && (stored ==> MayStore(s)) && (s.consumer == EncryptPipe.Joined(true) ==> stored)
    ensures var (path, t) := SelectFile(e, src).value;
            var content := src.files[path].content;
            var id := RecordOf(lbl, e, path, t, content).Id();
            var s := EncryptPipe.After(EncryptPipe.Start(announced), steps, bytes(content));
            var one := One(objects, lbl, e, src, Fault(false, HeadAnswers, OutcomeOf(s, stored)));
            && (one.failed <==> s.consumer != EncryptPipe.Joined(true))
            && one.objects == (if stored then objects[id := Age(content)] else objects)
            && (stored ==> s.received == EncryptPipe.Cipher(bytes(content)))
  {
    hide EncryptPipe.Cipher, EncryptPipe.Runs, EncryptPipe.After, ObjectKey, Pad, Base;
    var (path, t) := SelectFile(e, src).value;
    StoredIsWhole(announced, steps, bytes(src.files[path].content));
  }
}
