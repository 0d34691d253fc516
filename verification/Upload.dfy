/** The S3 upload job: which file each entry selects, and one pass of HEAD and PUT
    requests over the entries. */
module Upload {
  import opened Text
  import opened Calendar
  import opened S3Key

  /** File contents as far as the pipeline tells them apart: a database, a gzip stream or
      an age file of another content. */
  datatype Blob = Database(bytes: string) | Gz(inner: Blob) | Age(inner: Blob)

  datatype File = File(modTime: Time, content: Blob)

  /** A directory entry; `modTime` is missing when reading its info failed. */
  datatype Info = Info(name: string, isDir: bool, modTime: Option<Time>)

  /** The uploading machine: regular files by path, listings by directory. */
  datatype Source = Source(files: map<string, File>, dirs: map<string, seq<Info>>)

  datatype UploadEntry = UploadEntry(bucket: string, path: string, pathPrefix: string, encrypt: bool)

  function ThroughLastSlash(p: string): string {
    if p == "" || p[|p| - 1] == '/' then p else ThroughLastSlash(p[..|p| - 1])
  }

  /** `filepath.Dir`. */
  function Dir(p: string): string { Clean(ThroughLastSlash(p)) }

  // ---------- selecting the file ----------

  predicate Eligible(i: Info, base: string) {
    !i.isDir && HasPrefix(i.name, base) && i.modTime.Some?
  }

  /** The loop over the listing: the first of the newest matching files. */
  function NewestMatch(infos: seq<Info>, base: string): Option<(string, Time)> {
    if infos == [] then None
    else
      var best, i := NewestMatch(infos[..|infos| - 1], base), infos[|infos| - 1];
      if Eligible(i, base) && (best.None? || i.modTime.value > best.value.1) then Some((i.name, i.modTime.value))
      else best
  }

  lemma {:induction false} NewestMatchIsMaximal(infos: seq<Info>, base: string)
    ensures var r := NewestMatch(infos, base);
            && (r.None? <==> forall i | i in infos :: !Eligible(i, base))
            && (r.Some? ==> exists i | i in infos :: Eligible(i, base) && r == Some((i.name, i.modTime.value)))
            && (r.Some? ==> forall i | i in infos && Eligible(i, base) :: i.modTime.value <= r.value.1)
  {
    hide Eligible;
    if infos != [] {
      var init, last := infos[..|infos| - 1], infos[|infos| - 1];
      NewestMatchIsMaximal(init, base);
      assert forall i :: i in infos <==> i in init || i == last;
      assert Eligible(last, base) ==> last.modTime.Some? by { EligibleHasTime(last, base); }
    }
  }

  /** Of equally new matches the first listed one is taken. */
  lemma {:induction false} NewestMatchIsFirst(infos: seq<Info>, base: string)
    requires NewestMatch(infos, base).Some?
    ensures var (name, t) := NewestMatch(infos, base).value;
            exists k | 0 <= k < |infos| ::
              && Eligible(infos[k], base) && infos[k].name == name && infos[k].modTime == Some(t)
              && forall j | 0 <= j < k && Eligible(infos[j], base) ::
                   infos[j].modTime.Some? && infos[j].modTime.value < t
  {
    hide HasPrefix;
    var n := |infos| - 1;
    var init, last := infos[..n], infos[n];
    NewestMatchIsMaximal(init, base);
    if NewestMatch(infos, base) == NewestMatch(init, base) {
      NewestMatchIsFirst(init, base);
      var (name, t) := NewestMatch(init, base).value;
      var k :| 0 <= k < |init| && Eligible(init[k], base) && init[k].name == name && init[k].modTime == Some(t)
        && forall j | 0 <= j < k && Eligible(init[j], base) :: init[j].modTime.Some? && init[j].modTime.value < t;
      assert infos[k] == init[k] && forall j | 0 <= j < k :: infos[j] == init[j];
    } else {
      assert forall j | 0 <= j < n :: infos[j] == init[j] && infos[j] in init;
      assert Eligible(infos[n], base);
    }
  }

  lemma EligibleHasTime(i: Info, base: string)
    ensures Eligible(i, base) ==> i.modTime.Some?
  {
  }

  function SelectFile(e: UploadEntry, src: Source): Option<(string, Time)> {
    if e.path != "" then
      if e.path in src.files then Some((e.path, src.files[e.path].modTime)) else None
    else if Dir(e.pathPrefix) !in src.dirs then None
    else match NewestMatch(src.dirs[Dir(e.pathPrefix)], Base(e.pathPrefix))
      case None => None
      case Some((name, t)) => Some((PathJoin([Dir(e.pathPrefix), name]), t))
  }

  /** What is selected. A fixed path gives its own file, if that exists. A prefix gives a
      newest file of the prefix's directory whose name starts with the prefix's base: some
      listed one that is no directory and whose time could be read, and none exactly when
      there is no such file or the directory cannot be listed. */
  lemma SelectionExactly(e: UploadEntry, src: Source)
    ensures var r := SelectFile(e, src);
            && (e.path != "" ==>
                  && (r.Some? <==> e.path in src.files)
                  && (r.Some? ==> r.value == (e.path, src.files[e.path].modTime)))
            && (e.path == "" ==>
                  var dir, base := Dir(e.pathPrefix), Base(e.pathPrefix);
                  && (r.None? <==> dir !in src.dirs || forall i | i in src.dirs[dir] ::
                        i.isDir || !HasPrefix(i.name, base) || i.modTime.None?)
                  && (r.Some? ==> exists i | i in src.dirs[dir] ::
                        !i.isDir && HasPrefix(i.name, base) && i.modTime == Some(r.value.1)
                        && r.value.0 == PathJoin([dir, i.name]))
                  && (r.Some? ==> forall i | i in src.dirs[dir] && !i.isDir && HasPrefix(i.name, base)
                    && i.modTime.Some? ::
                        i.modTime.value <= r.value.1))
  {
    hide HasPrefix, Dir, Base, PathJoin;
    if e.path == "" && Dir(e.pathPrefix) in src.dirs {
      NewestMatchIsMaximal(src.dirs[Dir(e.pathPrefix)], Base(e.pathPrefix));
    }
  }

  // ---------- the bucket ----------

  datatype ObjectId = ObjectId(bucket: string, key: string)

  /** One stored upload. */
  datatype Record = Record(lbl: string, bucket: string, modTime: Time, name: string, encrypted: bool, content: Blob) {
    function ObjectName(): string { if encrypted then name + ".age" else name }
    function Id(): ObjectId { ObjectId(bucket, ObjectKey(lbl, Pad(modTime), ObjectName())) }
    function Payload(): Blob { if encrypted then Age(content) else content }
  }

  /** What the provider answers. A PUT may be stored although its answer is lost. */
  datatype HeadOutcome = HeadAnswers | HeadFails
  datatype PutOutcome = PutStored | PutUnacknowledged | PutFails
  datatype Fault = Fault(cancelled: bool, head: HeadOutcome, put: PutOutcome)

  datatype OneResult = OneResult(objects: map<ObjectId, Blob>, puts: seq<ObjectId>, stored: seq<Record>, failed: bool)

  function RecordOf(lbl: string, e: UploadEntry, path: string, t: Time, content: Blob): Record {
    Record(lbl, e.bucket, t, Base(path), e.encrypt, content)
  }

  /** `uploadOne`. */
  function One(objects: map<ObjectId, Blob>, lbl: string, e: UploadEntry, src: Source, fault: Fault): OneResult {
    if e.path == "" && e.pathPrefix == "" then OneResult(objects, [], [], false)
    else match SelectFile(e, src)
      case None => OneResult(objects, [], [], false)
      case Some((path, t)) =>
        var id := RecordOf(lbl, e, path, t, Database("")).Id();
        if fault.head == HeadFails then OneResult(objects, [], [], true)
        else if id in objects then OneResult(objects, [], [], false)
        else if path !in src.files then OneResult(objects, [], [], true)
        else
          var r := RecordOf(lbl, e, path, t, src.files[path].content);
          if fault.put == PutFails then OneResult(objects, [id], [], true)
          else OneResult(objects[id := r.Payload()], [id], [r], fault.put == PutUnacknowledged)
  }

  /** What becomes of an entry with a selected file: it is sent exactly when the provider
      answers that its object is missing and the file is still there, under its own key,
      encrypted or as it is; it fails exactly when the provider does not answer, or when
      the missing object could not be read or was not acknowledged. */
  lemma EntryOutcome(objects: map<ObjectId, Blob>, lbl: string, e: UploadEntry, src: Source, fault: Fault)
    requires (e.path != "" || e.pathPrefix != "") && SelectFile(e, src).Some?
    ensures var one, (path, t) := One(objects, lbl, e, src, fault), SelectFile(e, src).value;
            var name := if e.encrypt then Base(path) + ".age" else Base(path);
            var id := ObjectId(e.bucket, ObjectKey(lbl, Pad(t), name));
            var sent := fault.head == HeadAnswers && id !in objects && path in src.files;
            && (one.failed <==>
                  (fault.head == HeadFails || (id !in objects && (path !in src.files || fault.put != PutStored))))
            && one.puts == (if sent then [id] else [])
            && one.objects ==
                 if sent && fault.put != PutFails then
                   objects[id := if e.encrypt then Age(src.files[path].content) else src.files[path].content]
                 else objects
  {
    hide SelectFile, ObjectKey, Pad, Base;
  }

  /** An entry with nothing to upload does nothing and does not fail. */
  lemma NothingToUpload(objects: map<ObjectId, Blob>, lbl: string, e: UploadEntry, src: Source, fault: Fault)
    requires (e.path == "" && e.pathPrefix == "") || SelectFile(e, src).None?
    ensures One(objects, lbl, e, src, fault) == OneResult(objects, [], [], false)
  {
    hide SelectFile, ObjectKey, Pad, Base;
  }

  datatype PassResult = PassResult(objects: map<ObjectId, Blob>, puts: seq<ObjectId>, stored: seq<Record>,
                                   failed: seq<string>, aborted: bool)

  ghost predicate Configured(order: seq<string>, entries: map<string, UploadEntry>, faults: map<string, Fault>) {
    forall l | l in order :: l in entries && l in faults
  }

  /** `handle`: one pass over the labels in order. */
  function UploadPass(objects: map<ObjectId, Blob>, order: seq<string>, entries: map<string, UploadEntry>,
                      src: Source, faults: map<string, Fault>): PassResult
    requires Configured(order, entries, faults)
    decreases |order|
  {
    if order == [] then PassResult(objects, [], [], [], false)
    else if faults[order[0]].cancelled then PassResult(objects, [], [], [], true)
    else
      var one := One(objects, order[0], entries[order[0]], src, faults[order[0]]);
      var rest := UploadPass(one.objects, order[1..], entries, src, faults);
      PassResult(rest.objects, one.puts + rest.puts, one.stored + rest.stored,
                 (if one.failed then [order[0]] else []) + rest.failed, rest.aborted)
  }

  /** Everything in `a` is still in `b`, unchanged. */
  ghost predicate Kept(a: map<ObjectId, Blob>, b: map<ObjectId, Blob>) {
    forall id | id in a :: id in b && b[id] == a[id]
  }

  /** A pass only adds: no object is ever replaced or removed, and every object it adds is
      one of its PUTs. */
  lemma {:induction false} PassAddsOnly(objects: map<ObjectId, Blob>, order: seq<string>,
                                        entries: map<string, UploadEntry>,
                                        src: Source, faults: map<string, Fault>)
    requires Configured(order, entries, faults)
    ensures var r := UploadPass(objects, order, entries, src, faults);
            Kept(objects, r.objects) && forall id | id in r.objects && id !in objects :: id in r.puts
    decreases |order|
  {
    hide SelectFile, RecordOf;
    if order != [] && !faults[order[0]].cancelled {
      var one := One(objects, order[0], entries[order[0]], src, faults[order[0]]);
      PassAddsOnly(one.objects, order[1..], entries, src, faults);
    }
  }

  /** The entry has its object in the bucket, or has nothing to upload. */
  ghost predicate Settled(objects: map<ObjectId, Blob>, lbl: string, e: UploadEntry, src: Source) {
    || (e.path == "" && e.pathPrefix == "")
    || SelectFile(e, src).None?
    || RecordOf(lbl, e, SelectFile(e, src).value.0, SelectFile(e, src).value.1, Database("")).Id() in objects
  }

  lemma {:induction false} CleanPassSettles(objects: map<ObjectId, Blob>, order: seq<string>,
                                            entries: map<string, UploadEntry>,
                                            src: Source, faults: map<string, Fault>)
    requires Configured(order, entries, faults)
    requires var r := UploadPass(objects, order, entries, src, faults); r.failed == [] && !r.aborted
    ensures forall l | l in order ::
            Settled(UploadPass(objects, order, entries, src, faults).objects, l, entries[l], src)
    decreases |order|
  {
    hide SelectFile, RecordOf;
    if order != [] {
      var one := One(objects, order[0], entries[order[0]], src, faults[order[0]]);
      CleanPassSettles(one.objects, order[1..], entries, src, faults);
      PassAddsOnly(one.objects, order[1..], entries, src, faults);
      assert Settled(one.objects, order[0], entries[order[0]], src);
      assert forall l | l in order :: l == order[0] || l in order[1..];
    }
  }

  /** Failures are isolated: every entry that was reached and did not fail is settled,
      whatever the entries around it did. */
  lemma {:induction false} EntrySettles(objects: map<ObjectId, Blob>, order: seq<string>,
                                        entries: map<string, UploadEntry>,
                                        src: Source, faults: map<string, Fault>, i: nat)
    requires Configured(order, entries, faults) && i < |order|
    requires forall k | 0 <= k <= i :: !faults[order[k]].cancelled
    requires order[i] !in UploadPass(objects, order, entries, src, faults).failed
    ensures Settled(UploadPass(objects, order, entries, src, faults).objects, order[i], entries[order[i]], src)
    decreases |order|
  {
    hide SelectFile, RecordOf;
    var one := One(objects, order[0], entries[order[0]], src, faults[order[0]]);
    var tail := order[1..];
    PassAddsOnly(one.objects, tail, entries, src, faults);
    if i == 0 {
      assert Settled(one.objects, order[0], entries[order[0]], src);
    } else {
      assert forall k | 0 <= k < |tail| :: tail[k] == order[k + 1];
      EntrySettles(one.objects, tail, entries, src, faults, i - 1);
    }
  }

  ghost predicate Works(e: UploadEntry, src: Source, fault: Fault) {
    && fault == Fault(false, HeadAnswers, PutStored)
    && (SelectFile(e, src).Some? ==> SelectFile(e, src).value.0 in src.files)
  }

  /** A pass in which everything works reports no failure. */
  lemma {:induction false} WorkingPassIsClean(objects: map<ObjectId, Blob>, order: seq<string>,
                                              entries: map<string, UploadEntry>,
                                              src: Source, faults: map<string, Fault>)
    requires Configured(order, entries, faults) && forall l | l in order :: Works(entries[l], src, faults[l])
    ensures var r := UploadPass(objects, order, entries, src, faults);
            r.failed == [] && !r.aborted
    decreases |order|
  {
    hide Works, One;
    if order != [] {
      var l := order[0];
      assert l in order && forall x | x in order[1..] :: x in order;
      OneWorks(objects, l, entries[l], src, faults[l]);
      WorkingPassIsClean(One(objects, l, entries[l], src, faults[l]).objects, order[1..], entries, src, faults);
    }
  }

  lemma OneWorks(objects: map<ObjectId, Blob>, l: string, e: UploadEntry, src: Source, fault: Fault)
    requires Works(e, src, fault)
    ensures !fault.cancelled && !One(objects, l, e, src, fault).failed
  {
    hide SelectFile, ObjectKey, Pad, Base;
  }

  /** A cancellation before the label l ends the pass there: what happened is the pass over
      the labels before it. */
  lemma {:induction false} CancelledUploadIsPrefix(objects: map<ObjectId, Blob>, a: seq<string>, l: string,
                                                   b: seq<string>, entries: map<string, UploadEntry>, src: Source,
                                                   faults: map<string, Fault>)
    requires Configured(a, entries, faults) && Configured(a + [l] + b, entries, faults)
    requires l in faults && faults[l].cancelled && forall x | x in a :: !faults[x].cancelled
    ensures UploadPass(objects, a + [l] + b, entries, src, faults) ==
            UploadPass(objects, a, entries, src, faults).(aborted := true)
    decreases |a|
  {
    hide One;
    if a == [] {
      assert a + [l] + b == [l] + b;
    } else {
      var whole := a + [l] + b;
      assert whole[1..] == a[1..] + [l] + b && whole[0] == a[0] && a[0] in a;
      assert (forall x | x in whole[1..] :: x in whole) && forall x | x in a[1..] :: x in a;
      CancelledUploadIsPrefix(One(objects, a[0], entries[a[0]], src, faults[a[0]]).objects, a[1..], l, b, entries, src,
        faults);
    }
  }

  lemma SettledIsSkipped(objects: map<ObjectId, Blob>, l: string, e: UploadEntry, src: Source, fault: Fault)
    requires Settled(objects, l, e, src)
    ensures var one := One(objects, l, e, src, fault);
            one.objects == objects && one.puts == [] && one.stored == []
  {
    hide SelectFile, ObjectKey, Pad, Base;
  }

  lemma SettledStays(objects: map<ObjectId, Blob>, after: map<ObjectId, Blob>, l: string, e: UploadEntry, src: Source)
    requires Settled(objects, l, e, src) && Kept(objects, after)
    ensures Settled(after, l, e, src)
  {
    hide SelectFile, RecordOf;
  }

  /** A settled entry is passed over: with or without it a pass sends the same PUTs and
      leaves the same bucket. */
  lemma {:induction false} SettledEntryIsQuiet(objects: map<ObjectId, Blob>, a: seq<string>, l: string, b: seq<string>,
                                               entries: map<string, UploadEntry>, src: Source, faults: map<string,
                                               Fault>)
    requires Configured(a + [l] + b, entries, faults) && Configured(a + b, entries, faults)
    requires l in entries && l in faults && !faults[l].cancelled && Settled(objects, l, entries[l], src)
    ensures var r, without := UploadPass(objects, a + [l] + b, entries, src, faults),
                              UploadPass(objects, a + b, entries, src, faults);
            r.objects == without.objects && r.puts == without.puts && r.stored == without.stored
    decreases |a|
  {
    hide Settled, One;
    if a == [] {
      assert a + [l] + b == [l] + b && a + b == b && ([l] + b)[1..] == b;
      SettledIsSkipped(objects, l, entries[l], src, faults[l]);
    } else {
      var whole, rest := a + [l] + b, a + b;
      assert whole[1..] == a[1..] + [l] + b && rest[1..] == a[1..] + b && whole[0] == a[0] == rest[0];
      assert whole[0] in whole && rest[0] in rest;
      if !faults[a[0]].cancelled {
        var one := One(objects, a[0], entries[a[0]], src, faults[a[0]]);
        OneKeeps(objects, a[0], entries[a[0]], src, faults[a[0]]);
        SettledStays(objects, one.objects, l, entries[l], src);
        assert forall x | x in whole[1..] :: x in whole;
        assert forall x | x in rest[1..] :: x in rest;
        SettledEntryIsQuiet(one.objects, a[1..], l, b, entries, src, faults);
      }
    }
  }

  lemma OneKeeps(objects: map<ObjectId, Blob>, l: string, e: UploadEntry, src: Source, fault: Fault)
    ensures Kept(objects, One(objects, l, e, src, fault).objects)
  {
    hide SelectFile, ObjectKey, Pad, Base;
  }

  /** So an entry that got through once sends nothing in any later pass that selects the same
      file for it, even if other entries failed then, or fail or change now. */
  lemma RepeatedEntryIsQuiet(before: map<ObjectId, Blob>, order: seq<string>, entries: map<string, UploadEntry>,
                             src: Source,
                             faults: map<string, Fault>, i: nat, now: map<ObjectId, Blob>, a: seq<string>,
                             b: seq<string>,
                             later: map<string, UploadEntry>, src': Source, again: map<string, Fault>)
    requires Configured(order, entries, faults) && i < |order|
    requires forall k | 0 <= k <= i :: !faults[order[k]].cancelled
    requires order[i] !in UploadPass(before, order, entries, src, faults).failed
    requires Kept(UploadPass(before, order, entries, src, faults).objects, now)
    requires Configured(a + [order[i]] + b, later, again) && Configured(a + b, later, again)
    requires order[i] in later && later[order[i]] == entries[order[i]]
    requires SelectFile(entries[order[i]], src') == SelectFile(entries[order[i]], src)
    requires order[i] in again && !again[order[i]].cancelled
    ensures var r, without := UploadPass(now, a + [order[i]] + b, later, src', again),
            UploadPass(now, a + b, later, src', again);
            r.puts == without.puts && r.objects == without.objects
  {
    hide SelectFile, RecordOf, UploadPass, Settled;
    EntrySettles(before, order, entries, src, faults, i);
    SettledStays(UploadPass(before, order, entries, src, faults).objects, now, order[i], entries[order[i]], src);
    assert Settled(now, order[i], later[order[i]],
      src') by { SameSelection(now, order[i], entries[order[i]], src, src'); }
    SettledEntryIsQuiet(now, a, order[i], b, later, src', again);
  }

  lemma SameSelection(objects: map<ObjectId, Blob>, l: string, e: UploadEntry, src: Source, src': Source)
    requires Settled(objects, l, e, src) && SelectFile(e, src) == SelectFile(e, src')
    ensures Settled(objects, l, e, src')
  {
    hide SelectFile, RecordOf;
  }

  lemma {:induction false} SettledPassIsQuiet(objects: map<ObjectId, Blob>, order: seq<string>,
                                              entries: map<string, UploadEntry>,
                                              src: Source, faults: map<string, Fault>)
    requires Configured(order, entries, faults)
    requires forall l | l in order :: Settled(objects, l, entries[l], src)
    ensures var r := UploadPass(objects, order, entries, src, faults);
            r.puts == [] && r.objects == objects
    decreases |order|
  {
    hide SelectFile, RecordOf;
    if order != [] && !faults[order[0]].cancelled {
      assert order[0] in order;
      SettledPassIsQuiet(objects, order[1..], entries, src, faults);
    }
  }

  /** After an error-free pass, a pass over the same unchanged files sends no PUT at all,
      whatever the provider answers and whatever else was uploaded in between. */
  lemma RepeatedPassIsQuiet(before: map<ObjectId, Blob>, order: seq<string>, entries: map<string, UploadEntry>,
                            src: Source, faults: map<string, Fault>, now: map<ObjectId, Blob>,
                            again: map<string, Fault>)
    requires Configured(order, entries, faults) && Configured(order, entries, again)
    requires var r := UploadPass(before, order, entries, src, faults);
             r.failed == [] && !r.aborted && Kept(r.objects, now)
    ensures var r := UploadPass(now, order, entries, src, again);
            r.puts == [] && r.objects == now
  {
    hide SelectFile, RecordOf, UploadPass;
    CleanPassSettles(before, order, entries, src, faults);
    SettledPassIsQuiet(now, order, entries, src, again);
  }

  // ---------- whole histories ----------

  /** The bucket holds exactly the stored uploads. */
  ghost predicate Logged(objects: map<ObjectId, Blob>, log: seq<Record>) {
    && (forall r | r in log :: r.Id() in objects && objects[r.Id()] == r.Payload())
    && (forall id | id in objects :: exists r | r in log :: r.Id() == id)
  }

  lemma {:induction false} PassLogged(objects: map<ObjectId, Blob>, log: seq<Record>, order: seq<string>,
                                      entries: map<string, UploadEntry>, src: Source, faults: map<string, Fault>)
    requires Configured(order, entries, faults) && Logged(objects, log)
    ensures var r := UploadPass(objects, order, entries, src, faults);
            Logged(r.objects, log + r.stored)
    decreases |order|
  {
    hide One, Logged;
    if order == [] || faults[order[0]].cancelled {
      assert log + [] == log;
    } else {
      var one := One(objects, order[0], entries[order[0]], src, faults[order[0]]);
      OneLogged(objects, log, order[0], entries[order[0]], src, faults[order[0]]);
      PassLogged(one.objects, log + one.stored, order[1..], entries, src, faults);
      var rest := UploadPass(one.objects, order[1..], entries, src, faults);
      assert log + one.stored + rest.stored == log + (one.stored + rest.stored);
    }
  }

  lemma OneLogged(objects: map<ObjectId, Blob>, log: seq<Record>, lbl: string, e: UploadEntry, src: Source,
                  fault: Fault)
    requires Logged(objects, log)
    ensures var one := One(objects, lbl, e, src, fault);
            Logged(one.objects, log + one.stored)
  {
    hide SelectFile, ObjectKey, Pad, Base;
    var one := One(objects, lbl, e, src, fault);
    assert forall r :: r in log + one.stored <==> r in log || r in one.stored;
    if one.stored != [] {
      var r := one.stored[0];
      assert one.objects == objects[r.Id() := r.Payload()] && r in log + one.stored;
    } else {
      assert log + [] == log;
    }
  }

  /** One pass of a history: the configuration, the files and the answers of that time. */
  datatype Round = Round(order: seq<string>, entries: map<string, UploadEntry>, src: Source, faults: map<string, Fault>)

  ghost predicate GoodRounds(rounds: seq<Round>) {
    forall r | r in rounds :: Configured(r.order, r.entries, r.faults)
  }

  ghost function History(objects: map<ObjectId, Blob>, rounds: seq<Round>): (map<ObjectId, Blob>, seq<Record>)
    requires GoodRounds(rounds)
    decreases |rounds|
  {
    if rounds == [] then (objects, [])
    else
      var r := UploadPass(objects, rounds[0].order, rounds[0].entries, rounds[0].src, rounds[0].faults);
      var (final, stored) := History(r.objects, rounds[1..]);
      (final, r.stored + stored)
  }

  /** Over any history nothing stored is ever lost or changed, and the bucket can be read
      as the list of stored uploads. */
  lemma {:induction false} HistoryLogged(objects: map<ObjectId, Blob>, log: seq<Record>, rounds: seq<Round>)
    requires GoodRounds(rounds) && Logged(objects, log)
    ensures var (final, stored) := History(objects, rounds);
            Logged(final, log + stored) && Kept(objects, final)
    decreases |rounds|
  {
    hide Logged, UploadPass;
    if rounds == [] {
      assert log + [] == log;
    } else {
      var x := rounds[0];
      assert x in rounds;
      var r := UploadPass(objects, x.order, x.entries, x.src, x.faults);
      PassLogged(objects, log, x.order, x.entries, x.src, x.faults);
      PassAddsOnly(objects, x.order, x.entries, x.src, x.faults);
      HistoryLogged(r.objects, log + r.stored, rounds[1..]);
      assert log + r.stored + History(r.objects, rounds[1..]).1 == log + (r.stored + History(r.objects, rounds[1..]).1);
    }
  }

  // ---------- the code, step by step ----------

  class S3 {
    var objects: map<ObjectId, Blob>
    ghost var puts: seq<ObjectId>

    method Head(id: ObjectId, outcome: HeadOutcome) returns (exists_: Option<bool>)
      ensures exists_ == if outcome == HeadFails then None else Some(id in objects)
    {
      exists_ := if outcome == HeadFails then None else Some(id in objects);
    }

    method Put(id: ObjectId, body: Blob, outcome: PutOutcome) returns (ok: bool)
      modifies this
      ensures puts == old(puts) + [id]
      ensures objects == if outcome == PutFails then old(objects) else old(objects)[id := body]
      ensures ok == (outcome == PutStored)
    {
      puts := puts + [id];
      if outcome != PutFails { objects := objects[id := body]; }
      ok := outcome == PutStored;
    }
  }

  class UploadHandler {
    const s3: S3

    constructor (s: S3)
      ensures s3 == s
    {
      s3 := s;
    }

    /** The selection by its meaning, as in `SelectionExactly`. */
    method FileToUpload(e: UploadEntry, src: Source) returns (r: Option<(string, Time)>)
      ensures r == SelectFile(e, src)
      ensures e.path != "" ==>
                r == if e.path in src.files then Some((e.path, src.files[e.path].modTime)) else None
      ensures e.path == "" && Dir(e.pathPrefix) !in src.dirs ==> r.None?
      ensures e.path == "" && Dir(e.pathPrefix) in src.dirs ==>
                var dir, base := Dir(e.pathPrefix), Base(e.pathPrefix);
                && (r.None? <==> forall i | i in src.dirs[dir] ::
                      i.isDir || !HasPrefix(i.name, base) || i.modTime.None?)
                && (r.Some? ==> exists i | i in src.dirs[dir] ::
                      !i.isDir && HasPrefix(i.name, base) && i.modTime == Some(r.value.1)
                      && r.value.0 == PathJoin([dir, i.name]))
                && (r.Some? ==> forall i | i in src.dirs[dir] && !i.isDir && HasPrefix(i.name, base)
                  && i.modTime.Some? ::
                      i.modTime.value <= r.value.1)
    {
      SelectionExactly(e, src);
      if e.path != "" {
        if e.path !in src.files { return None; }
        return Some((e.path, src.files[e.path].modTime));
      }
      var dir, base := Dir(e.pathPrefix), Base(e.pathPrefix);
      if dir !in src.dirs { return None; }
      var infos := src.dirs[dir];
      var latestName: Option<string>, latestTime := None, 0;
      for i := 0 to |infos|
        invariant NewestMatch(infos[..i], base) ==
                  if latestName.None? then None else Some((latestName.value, latestTime))
      {
        assert infos[..i + 1][..i] == infos[..i] && infos[..i + 1][i] == infos[i];
        if infos[i].isDir { continue; }
        if !HasPrefix(infos[i].name, base) { continue; }
        if infos[i].modTime.None? { continue; }
        if latestName.None? || infos[i].modTime.value > latestTime {
          latestName, latestTime := Some(infos[i].name), infos[i].modTime.value;
        }
      }
      assert infos[..|infos|] == infos;
      if latestName.None? { return None; }
      return Some((PathJoin([dir, latestName.value]), latestTime));
    }

    method UploadOne(lbl: string, e: UploadEntry, src: Source, fault: Fault) returns (ok: bool)
      modifies s3
      ensures var one := One(old(s3.objects), lbl, e, src, fault);
              s3.objects == one.objects && s3.puts == old(s3.puts) + one.puts && ok == !one.failed
    {
      hide SelectFile, ObjectKey, Pad, Base;
      if e.path == "" && e.pathPrefix == "" { return true; }
      var file := FileToUpload(e, src);
      if file.None? { return true; }
      var (path, t) := file.value;
      var name := Base(path);
      if e.encrypt { name := name + ".age"; }
      var id := ObjectId(e.bucket, ObjectKey(lbl, Pad(t), name));
      var present := s3.Head(id, fault.head);
      if present.None? { return false; }
      if present.value { return true; }
      if path !in src.files { return false; }
      var content := src.files[path].content;
      ok := s3.Put(id, if e.encrypt then Age(content) else content, fault.put);
    }

    method Handle(order: seq<string>, entries: map<string, UploadEntry>, src: Source, faults: map<string, Fault>)
      returns (failed: seq<string>, aborted: bool)
      requires Configured(order, entries, faults)
      modifies s3
      ensures var pass := UploadPass(old(s3.objects), order, entries, src, faults);
              && s3.objects == pass.objects && s3.puts == old(s3.puts) + pass.puts
              && failed == pass.failed && aborted == pass.aborted
    {
      hide One, UploadPass;
      failed, aborted := [], false;
      ghost var start := s3.objects;
      ghost var done: seq<ObjectId> := [];
      for i := 0 to |order|
        invariant !aborted && s3.puts == old(s3.puts) + done
        invariant var rest, pass := UploadPass(s3.objects, order[i..], entries, src, faults),
                  UploadPass(start, order, entries, src, faults);
                  && pass.objects == rest.objects && pass.puts == done + rest.puts
                  && pass.failed == failed + rest.failed && pass.aborted == rest.aborted
      {
        var l := order[i];
        assert order[i..][0] == l && order[i..][1..] == order[i + 1..];
        PassUnfold(s3.objects, order[i..], entries, src, faults);
        if faults[l].cancelled {
          aborted := true;
          return;
        }
        ghost var one := One(s3.objects, l, entries[l], src, faults[l]);
        var ok := UploadOne(l, entries[l], src, faults[l]);
        done := done + one.puts;
        if !ok { failed := failed + [l]; }
      }
      assert order[|order|..] == [];
      EmptyPass(s3.objects, entries, src, faults);
    }
  }

  lemma EmptyPass(objects: map<ObjectId, Blob>, entries: map<string, UploadEntry>, src: Source,
                  faults: map<string, Fault>)
    ensures UploadPass(objects, [], entries, src, faults) == PassResult(objects, [], [], [], false)
  {
  }

  lemma PassUnfold(objects: map<ObjectId, Blob>, order: seq<string>, entries: map<string, UploadEntry>, src: Source,
                   faults: map<string, Fault>)
    requires Configured(order, entries, faults) && order != []
    ensures var whole := UploadPass(objects, order, entries, src, faults);
            if faults[order[0]].cancelled then whole == PassResult(objects, [], [], [], true)
            else
              var one := One(objects, order[0], entries[order[0]], src, faults[order[0]]);
              var rest := UploadPass(one.objects, order[1..], entries, src, faults);
              && whole.objects == rest.objects && whole.puts == one.puts + rest.puts && whole.aborted == rest.aborted
              && whole.failed == (if one.failed then [order[0]] else []) + rest.failed
  {
    hide One;
  }
}
