/** Recovery needs that no label of a directory extends another one with a dash, and needs
    nothing else of well-formed labels. */
module RecoveryLimits {
  import opened Text
  import opened Calendar
  import opened S3Key
  import opened Upload
  import opened FileSystem
  import opened Recover
  import opened EndToEnd

  /** Every recovery after every upload history restores every label. */
  ghost predicate AlwaysRestores(uploads: map<string, UploadEntry>) {
    forall rounds, order, fetches, ages, gzs, l, found ::
      RecoveryRun(rounds, uploads, order, fetches, ages, gzs, l, found) ==>
        Restored(FilesAfter(rounds, uploads, order, fetches, ages, gzs), History(map[], rounds).1, uploads,
          Reachable(fetches), l, found)
  }

  // ---------- a history of single uploads ----------

  const NAME := "x.db"

  /** A pass that uploads one database of one label. */
  function Single(lbl: string, bucket: string, t: Time, bytes: string): Round {
    Round([lbl], map[lbl := UploadEntry(bucket, NAME, "", false)],
          Source(map[NAME := File(t, Database(bytes))], map[]),
          map[lbl := Fault(false, HeadAnswers, PutStored)])
  }

  function Stored(lbl: string, bucket: string, t: Time, bytes: string): Record {
    Record(lbl, bucket, t, NAME, false, Database(bytes))
  }

  lemma {:induction false} BaseOfSegment(s: string)
    requires NoSlash(s)
    ensures AfterLastSlash(s) == s
  {
    if s != [] {
      BaseOfSegment(s[..|s| - 1]);
      assert s == s[..|s| - 1] + [s[|s| - 1]];
    }
  }

  lemma NameFacts()
    ensures Base(NAME) == NAME && GoodSegment(NAME) && HasSuffix(NAME, ".db") && NoSlash(NAME)
  {
    hide AfterLastSlash;
    assert StripSlashes(NAME) == NAME;
    BaseOfSegment(NAME);
    assert NAME[1..] == ".db";
  }

  lemma StoredIsGood(lbl: string, bucket: string, t: Time, bytes: string)
    requires GoodSegment(lbl) && TwelveDigits(t)
    ensures GoodRecord(Stored(lbl, bucket, t, bytes))
  {
    hide HasSuffix, GoodSegment, TwelveDigits;
    NameFacts();
  }

  lemma SingleUploads(objects: map<ObjectId, Blob>, lbl: string, bucket: string, t: Time, bytes: string)
    requires Stored(lbl, bucket, t, bytes).Id() !in objects
    ensures GoodRounds([Single(lbl, bucket, t, bytes)])
    ensures var x, r := Single(lbl, bucket, t, bytes), Stored(lbl, bucket, t, bytes);
            var pass := UploadPass(objects, x.order, x.entries, x.src, x.faults);
            pass.objects == objects[r.Id() := r.Payload()] && pass.stored == [r]
  {
    hide ObjectKey, Pad, Base;
    NameFacts();
    var x, r := Single(lbl, bucket, t, bytes), Stored(lbl, bucket, t, bytes);
    var one := One(objects, lbl, x.entries[lbl], x.src, x.faults[lbl]);
    assert one.objects == objects[r.Id() := r.Payload()] && one.stored == [r];
    assert x.order[1..] == [];
    assert UploadPass(one.objects, [], x.entries, x.src, x.faults).stored == [];
    assert [r] + [] == [r];
  }

  lemma HistoryStep(objects: map<ObjectId, Blob>, x: Round, rest: seq<Round>)
    requires GoodRounds([x] + rest)
    ensures var pass := UploadPass(objects, x.order, x.entries, x.src, x.faults);
            && GoodRounds(rest)
            && History(objects, [x] + rest) ==
              (History(pass.objects, rest).0, pass.stored + History(pass.objects, rest).1)
  {
    hide UploadPass;
    assert ([x] + rest)[0] == x && ([x] + rest)[1..] == rest;
  }

  lemma HistoryEnd(objects: map<ObjectId, Blob>)
    ensures GoodRounds([]) && History(objects, []) == (objects, [])
  {
  }

  lemma OneUploaded(lbl: string, bucket: string, t: Time, bytes: string)
    ensures var rounds, r := [Single(lbl, bucket, t, bytes)], Stored(lbl, bucket, t, bytes);
            GoodRounds(rounds) && History(map[], rounds) == (map[r.Id() := r.Payload()], [r])
  {
    hide UploadPass, History, ObjectKey, Pad, GoodRounds;
    var x, r := Single(lbl, bucket, t, bytes), Stored(lbl, bucket, t, bytes);
    SingleUploads(map[], lbl, bucket, t, bytes);
    assert [x] + [] == [x];
    HistoryStep(map[], x, []);
    HistoryEnd(map[r.Id() := r.Payload()]);
    assert [r] + [] == [r];
  }

  lemma TwoUploaded(l: string, b: string, own: string, m: string, c: string, other: string, t: Time)
    requires GoodSegment(l) && GoodSegment(m) && l != m && TwelveDigits(t)
    ensures var rounds := [Single(l, b, t, own), Single(m, c, t, other)];
            GoodRounds(rounds) && History(map[], rounds).1 == [Stored(l, b, t, own), Stored(m, c, t, other)]
  {
    hide UploadPass, ObjectKey, Pad, TwelveDigits, GoodSegment, History, Single;
    var x, y, r, s := Single(l, b, t, own), Single(m, c, t, other), Stored(l, b, t, own), Stored(m, c, t, other);
    SingleUploads(map[], l, b, t, own);
    NameFacts();
    PadShape(t);
    if r.Id() == s.Id() { KeyInjective(l, Pad(t), NAME, m, Pad(t), NAME); }
    var first := map[r.Id() := r.Payload()];
    SingleUploads(first, m, c, t, other);
    BothGood(x, y);
    assert [x] + [y] == [x, y] && [y] + [] == [y];
    HistoryStep(map[], x, [y]);
    HistoryStep(first, y, []);
    HistoryEnd(first[s.Id() := s.Payload()]);
    assert [r] + ([s] + []) == [r, s];
  }

  lemma BothGood(x: Round, y: Round)
    requires GoodRounds([x]) && GoodRounds([y])
    ensures GoodRounds([x, y])
  {
    assert x in [x] && y in [y];
  }

  // ---------- what a download leaves, whatever the labels are ----------

  /** Every request succeeds. */
  function AllFetched(uploads: map<string, UploadEntry>): map<string, Fetch> { map l | l in uploads :: Fetched }

  /** Exactly the chosen objects of the labels done. */
  ghost predicate Downloaded(files: Files, uploads: map<string, UploadEntry>, recs: map<string, Record>,
                             done: set<string>) {
    && (forall p | p in files :: exists x | x in done && x in recs :: x in uploads && p == At1(uploads, x, recs[x]))
    && (forall x | x in done && x in recs && x in uploads :: At1(uploads, x, recs[x]) in files)
  }

  /** Every file holds what one of the records whose name it has was stored as. */
  ghost predicate Faithful(files: Files, uploads: map<string, UploadEntry>, recs: map<string, Record>) {
    forall p | p in files ::
      exists x | x in recs :: x in uploads && p == At1(uploads, x, recs[x]) && files[p] == recs[x].Payload()
  }

  lemma DownloadedOne(files: Files, objects: map<ObjectId, Blob>, log: seq<Record>, uploads: map<string, UploadEntry>,
                      recs: map<string, Record>, done: set<string>, l: string)
    requires Logged(objects, log) && Chosen(objects, log, uploads, uploads.Keys, recs) && l in uploads
    requires forall x | x in recs :: GoodRecord(recs[x])
    requires Downloaded(files, uploads, recs, done) && Faithful(files, uploads, recs)
    ensures var next := DownloadOne(files, objects, l, uploads[l], Fetched);
            Downloaded(next, uploads, recs, done + {l}) && Faithful(next, uploads, recs)
  {
    hide Logged, Name1, Pad, ObjectKey, ObjectKeyPrefix, NewestUpload, DestDir, Listed, GoodSegment;
    hide PadAndName, GoodContent, TwelveDigits;
    hide Downloaded, Faithful;
    if l in recs {
      var r := recs[l];
      RecordOfLabel(log, l, uploads[l], r);
      GoodObjectName(r);
      PadAndNameOfKey(l, Pad(r.modTime), r.ObjectName());
      StoredPayload(objects, log, l, uploads[l], r);
      DownloadsTo(files, objects, l, uploads[l], r);
      NoTempThere(files, uploads, recs, done, At1(uploads, l, r));
      DownloadedAt(files, uploads, recs, done, l);
    } else {
      NothingNew(files, uploads, recs, done, l);
    }
  }

  lemma NoTempThere(files: Files, uploads: map<string, UploadEntry>, recs: map<string, Record>, done: set<string>,
                    p: Path)
    requires Downloaded(files, uploads, recs, done) && forall x | x in recs :: GoodRecord(recs[x])
    ensures files - {TempOf(p)} == files
  {
    hide Name1, DestDir, GoodRecord, Leftover, TempOf;
    TempIsLeftover(p);
    if TempOf(p) in files {
      var x :| x in done && x in recs && x in uploads && TempOf(p) == At1(uploads, x, recs[x]);
      NamesAreNoLeftovers(recs[x]);
    }
  }

  lemma NothingNew(files: Files, uploads: map<string, UploadEntry>, recs: map<string, Record>, done: set<string>,
                   l: string)
    requires Downloaded(files, uploads, recs, done) && l !in recs
    ensures Downloaded(files, uploads, recs, done + {l})
  {
    hide At1;
  }

  lemma DownloadedAt(files: Files, uploads: map<string, UploadEntry>, recs: map<string, Record>, done: set<string>,
                     l: string)
    requires Downloaded(files, uploads, recs, done) && Faithful(files, uploads, recs) && l in recs && l in uploads
    ensures var p := At1(uploads, l, recs[l]);
            var next := if p in files then files else files[p := recs[l].Payload()];
            Downloaded(next, uploads, recs, done + {l}) && Faithful(next, uploads, recs)
  {
    hide At1;
  }

  lemma RecordOfLabel(log: seq<Record>, lbl: string, e: UploadEntry, r: Record)
    requires NewestUpload(r, log, lbl, e)
    ensures r.lbl == lbl && r.bucket == e.bucket && r in log
  {
  }

  lemma {:induction false} DownloadedAll(files: Files, objects: map<ObjectId, Blob>, log: seq<Record>,
                                         order: seq<string>,
                                         uploads: map<string, UploadEntry>, recs: map<string, Record>,
                                         done: set<string>)
    requires Logged(objects, log) && Chosen(objects, log, uploads, uploads.Keys, recs)
             && forall l | l in order :: l in uploads
    requires forall x | x in recs :: GoodRecord(recs[x])
    requires Downloaded(files, uploads, recs, done) && Faithful(files, uploads, recs)
    ensures var after := DownloadAll(files, objects, order, uploads, AllFetched(uploads));
            Downloaded(after, uploads, recs, done + set l | l in order) && Faithful(after, uploads, recs)
    decreases |order|
  {
    hide Logged, Chosen, Downloaded, Faithful, GoodRecord, DownloadOne;
    if order == [] {
      assert done + (set l | l in order) == done;
    } else {
      var l := order[0];
      DownloadedOne(files, objects, log, uploads, recs, done, l);
      DownloadedAll(DownloadOne(files, objects, l, uploads[l], Fetched), objects, log, order[1..], uploads, recs,
        done + {l});
      assert done + (set x | x in order) == done + {l} + (set x | x in order[1..]) by {
        assert order == [l] + order[1..];
      }
    }
  }

  lemma {:induction false} SeqOf(labels: set<string>) returns (order: seq<string>)
    ensures forall x :: x in order <==> x in labels
    decreases |labels|
  {
    if labels == {} {
      order := [];
    } else {
      var x :| x in labels;
      var rest := SeqOf(labels - {x});
      order := [x] + rest;
    }
  }

  /** The recovery after a history of single uploads: no glob finds anything, and the files
      are those of the records. */
  lemma PlainRecovery(rounds: seq<Round>, uploads: map<string, UploadEntry>) returns (order: seq<string>,
                      recs: map<string, Record>)
    requires PlainLabels(uploads) && GoodRounds(rounds)
    requires forall r | r in History(map[], rounds).1 :: GoodRecord(r) && r.content.Database? && !r.encrypted
    ensures forall x :: x in order <==> x in uploads
    ensures var (objects, log) := History(map[], rounds);
            var files := DownloadAll(map[], objects, order, uploads, AllFetched(uploads));
            && Chosen(objects, log, uploads, uploads.Keys, recs)
            && Downloaded(files, uploads, recs, uploads.Keys) && Faithful(files, uploads, recs)
            && Globbed(files, DirsOf(uploads), AGE_PATTERN, []) && Globbed(files, DirsOf(uploads), GZ_PATTERN, [])
            && DecodeAll(files, [], Decrypt) == files
              && FilesAfter(rounds, uploads, order, AllFetched(uploads), [], []) == files
  {
    hide GoodRecord, Globbed, DownloadAll, History, Logged, DestDir, DirsOf, Listed, NewestUpload, UploadOf;
    hide Downloaded, Faithful;
    var (objects, log) := History(map[], rounds);
    EmptyLogged();
    HistoryLogged(map[], [], rounds);
    assert [] + log == log;
    order := SeqOf(uploads.Keys);
    recs := Choose(objects, log, uploads, uploads.Keys, uploads.Keys * uploads.Keys);
    assert Chosen(objects, log, uploads, uploads.Keys, recs);
    forall x | x in recs
      ensures GoodRecord(recs[x]) && recs[x].content.Database? && !recs[x].encrypted
    {
      RecordOfLabel(log, x, uploads[x], recs[x]);
    }
    NothingDownloaded(uploads, recs);
    DownloadedAll(map[], objects, log, order, uploads, recs, {});
    assert {} + (set l | l in order) == uploads.Keys;
    var files := DownloadAll(map[], objects, order, uploads, AllFetched(uploads));
    NothingToDecode(files, uploads, recs);
  }

  lemma NothingDownloaded(uploads: map<string, UploadEntry>, recs: map<string, Record>)
    ensures Downloaded(map[], uploads, recs, {}) && Faithful(map[], uploads, recs)
  {
  }

  lemma NothingToDecode(files: Files, uploads: map<string, UploadEntry>, recs: map<string, Record>)
    requires Downloaded(files, uploads, recs, uploads.Keys)
    requires forall x | x in recs :: GoodRecord(recs[x]) && recs[x].content.Database? && !recs[x].encrypted
    ensures Globbed(files, DirsOf(uploads), AGE_PATTERN, []) && Globbed(files, DirsOf(uploads), GZ_PATTERN, [])
  {
    hide Match, Name1, Name2, Name3, DestDir, DirsOf, GoodRecord, HasPrefix, HasSuffix, TrimSuffix;
    forall p | p in files
      ensures !Match(AGE_PATTERN, p.name) && !Match(GZ_PATTERN, p.name)
    {
      var x :| x in recs && x in uploads && p == At1(uploads, x, recs[x]);
      NamesHavePrefix(recs[x]);
      PrefixIsLong(recs[x].lbl);
      NamesOfRecord(recs[x]);
      PatternMatches(p.name);
    }
  }

  lemma PrefixIsLong(lbl: string)
    ensures |DestPrefix(lbl)| >= |DEST_PREFIX|
  {
  }

  // ---------- when labels extend one another ----------

  /** A label that extends another one with a dash puts its database under the other's
      pattern too. */
  lemma ExtendingLabelMatches(l: string, m: string, pad: string, name: string)
    requires NoMeta(l) && HasPrefix(m, l + "-") && NoSlash(m) && NoSlash(pad) && NoSlash(name) && HasSuffix(name, ".db")
    ensures Match(DestPrefix(l) + "*.db", DestName(m, pad, name))
  {
    hide Match;
    var rest := m[|l| + 1..];
    var n := DestName(m, pad, name);
    assert m == l + "-" + rest;
    var head := DestPrefix(l) + (rest + "-" + pad + "-");
    assert n == head + name;
    assert n[..|DestPrefix(l)|] == DestPrefix(l);
    SuffixOfTail(head, name, ".db");
    LabelPattern(l, n);
  }

  /** After one upload of the longer label alone, recovery reports its database for the
      shorter label, of which nothing was ever uploaded. */
  lemma ExtendingLabelFound(uploads: map<string, UploadEntry>, l: string, m: string, t: Time)
    returns (rounds: seq<Round>, order: seq<string>, found: Path)
    requires PlainLabels(uploads) && l in uploads && m in uploads && DestDir(uploads[l]) == DestDir(uploads[m])
    requires HasPrefix(m, l + "-") && TwelveDigits(t)
    ensures RecoveryRun(rounds, uploads, order, AllFetched(uploads), [], [], l, Some(found))
    ensures var log := History(map[], rounds).1;
            && (forall r :: !UploadOf(r, log, l, uploads[l]))
            && !Restored(FilesAfter(rounds, uploads, order, AllFetched(uploads), [], []), log, uploads, uploads.Keys,
              l, Some(found))
  {
    hide GoodRecord, Globbed, DownloadAll, DecodeAll, History, Logged, DestDir, DirsOf, Listed, Match;
    hide GoodSegment, NoMeta;
    hide TwelveDigits, Pad, LexLess, DestPrefix, HasPrefix, FoundDb, Restored, UploadOf, Chosen, Downloaded;
    hide Faithful, ObjectKey;
    LongerDiffers(l, m);
    var bucket := uploads[m].bucket;
    var r := Stored(m, bucket, t, "");
    rounds := [Single(m, bucket, t, "")];
    OneUploaded(m, bucket, t, "");
    StoredIsGood(m, bucket, t, "");
    var recs;
    order, recs := PlainRecovery(rounds, uploads);
    var files := FilesAfter(rounds, uploads, order, AllFetched(uploads), [], []);
    OnlyTheLonger(History(map[], rounds).0, uploads, recs, l, m, r);
    found := At1(uploads, m, r);
    LongerMatches(uploads, l, m, t);
    OneFile(files, uploads, recs, m);
    FoundOnly(files, l, found);
    NothingUploaded(files, [r], uploads, l, found);
  }

  lemma LongerDiffers(l: string, m: string)
    requires HasPrefix(m, l + "-")
    ensures l != m
  {
  }

  lemma OneFile(files: Files, uploads: map<string, UploadEntry>, recs: map<string, Record>, m: string)
    requires Downloaded(files, uploads, recs, uploads.Keys) && m in uploads && recs.Keys == {m}
    ensures files.Keys == {At1(uploads, m, recs[m])}
  {
    hide At1;
  }

  lemma FoundOnly(files: Files, l: string, p: Path)
    requires files.Keys == {p} && Match(DestPrefix(l) + "*.db", p.name)
    ensures FoundDb(files, p.dir, l, Some(p))
  {
    hide Match, DestPrefix;
  }

  lemma NothingUploaded(files: Files, log: seq<Record>, uploads: map<string, UploadEntry>, l: string, found: Path)
    requires l in uploads && forall r :: !UploadOf(r, log, l, uploads[l])
    ensures !Restored(files, log, uploads, uploads.Keys, l, Some(found))
  {
    hide UploadOf;
  }

  lemma LongerMatches(uploads: map<string, UploadEntry>, l: string, m: string, t: Time)
    requires PlainLabels(uploads) && l in uploads && m in uploads && HasPrefix(m, l + "-") && TwelveDigits(t)
    ensures Match(DestPrefix(l) + "*.db", DestName(m, Pad(t), NAME))
  {
    hide TwelveDigits, Pad, DestPrefix, HasPrefix, Match;
    PadShape(t);
    NameFacts();
    ExtendingLabelMatches(l, m, Pad(t), NAME);
  }

  lemma OnlyTheLonger(objects: map<ObjectId, Blob>, uploads: map<string, UploadEntry>, recs: map<string, Record>,
                      l: string, m: string, r: Record)
    requires Chosen(objects, [r], uploads, uploads.Keys, recs) && m in uploads && l in uploads && l != m
    requires r.lbl == m && r.bucket == uploads[m].bucket
    ensures recs == map[m := r] && forall s :: !UploadOf(s, [r], l, uploads[l])
  {
    hide Listed, ObjectKeyPrefix, ObjectKey, Pad;
    assert UploadOf(r, [r], m, uploads[m]);
    assert m in recs;
    forall x | x in recs
      ensures x == m && recs[x] == r
    {
      RecordOfLabel([r], x, uploads[x], recs[x]);
    }
  }

  /** The exact condition: among well-formed labels, recovery restores every label after
      every history if and only if no label of a directory extends another with a dash. */
  lemma RecoveryExactly(uploads: map<string, UploadEntry>)
    requires PlainLabels(uploads)
    ensures AlwaysRestores(uploads) <==> NoLabelExtends(uploads)
  {
    hide Restored, PlainLabels, History, HasPrefix, DestDir, Globbed, FoundDb, GoodRecord, DownloadAll, DecodeAll;
    if NoLabelExtends(uploads) {
      forall rounds, order, fetches, ages, gzs, l, found
        | RecoveryRun(rounds, uploads, order, fetches, ages, gzs, l, found)
        ensures Restored(FilesAfter(rounds, uploads, order, fetches, ages, gzs), History(map[], rounds).1, uploads,
                Reachable(fetches), l, found)
      {
        Recovery(rounds, uploads, order, fetches, ages, gzs, l, found);
      }
    } else {
      var m, l :| m in uploads && l in uploads && DestDir(uploads[m]) == DestDir(uploads[l]) && HasPrefix(m, l + "-");
      var rounds, order, found := ExtendingLabelFound(uploads, l, m, 0);
      assert Reachable(AllFetched(uploads)) == uploads.Keys;
      assert RecoveryRun(rounds, uploads, order, AllFetched(uploads), [], [], l, Some(found));
    }
  }

  // ---------- the newest upload is there, and another database is reported ----------

  lemma {:induction false} LeadingTwo(n: nat, w: nat)
    requires w > 0 && 2 * Pow10(w - 1) <= n < 3 * Pow10(w - 1)
    ensures Digits(n, w)[0] == '2'
  {
    if w == 1 {
      assert Digits(n, 1) == [DigitChar(2)];
    } else {
      LeadingTwo(n / 10, w - 1);
      assert Digits(n, w)[0] == Digits(n / 10, w - 1)[0];
    }
  }

  /** The pads of all times from the first millennium to the year 3662 start with a two. */
  predicate CurrentTime(t: Time) {
    200_000_000_000 <= MAX_UNIX_TIMESTAMP - Unix(t) < 300_000_000_000
  }

  lemma PadStartsWithTwo(t: Time)
    requires CurrentTime(t)
    ensures TwelveDigits(t) && |Pad(t)| == 12 && Pad(t)[0] == '2'
  {
    hide Digits, Pow10;
    Powers();
    PadShape(t);
    PowEleven();
    LeadingTwo(MAX_UNIX_TIMESTAMP - Unix(t), 12);
  }

  lemma PowEleven()
    ensures Pow10(11) == 100_000_000_000
  {
    Powers();
    assert Pow10(12) == 10 * Pow10(11);
  }

  lemma LongerSortsFirst(l: string, m: string, t: Time)
    requires HasPrefix(m, l + "-") && |m| > |l| + 1 && m[|l| + 1] < '2' && CurrentTime(t)
    ensures LexLess(DestName(m, Pad(t), NAME), DestName(l, Pad(t), NAME))
    ensures DestName(m, Pad(t), NAME) != DestName(l, Pad(t), NAME)
  {
    hide Pad, CurrentTime;
    PadStartsWithTwo(t);
    var rest := m[|l| + 1..];
    assert m == l + "-" + rest;
    var x, y := rest + "-" + (Pad(t) + "-" + NAME), Pad(t) + "-" + NAME;
    assert LexLess(x, y) by { assert x[0] == m[|l| + 1] && y[0] == '2'; }
    LexCommonPrefix(DestPrefix(l), x, y);
    assert DestName(m, Pad(t), NAME) == DestPrefix(l) + x;
    assert DestName(l, Pad(t), NAME) == DestPrefix(l) + y;
    LexIrreflexive(DestName(l, Pad(t), NAME));
  }

  /** Labels such as `a` and `a-1`, both uploaded and both restored: the database reported
      for `a` is the one of `a-1`, whatever the two databases are. */
  lemma WrongDatabaseReported(uploads: map<string, UploadEntry>, l: string, m: string, t: Time, own: string,
                              other: string)
    returns (rounds: seq<Round>, order: seq<string>, found: Path)
    requires PlainLabels(uploads) && l in uploads && m in uploads && DestDir(uploads[l]) == DestDir(uploads[m])
    requires HasPrefix(m, l + "-") && |m| > |l| + 1 && m[|l| + 1] < '2' && CurrentTime(t)
    ensures RecoveryRun(rounds, uploads, order, AllFetched(uploads), [], [], l, Some(found))
    ensures var files, log := FilesAfter(rounds, uploads, order, AllFetched(uploads), [], []), History(map[], rounds).1;
            && NewestUpload(Stored(l, uploads[l].bucket, t, own), log, l, uploads[l])
            && found in files && files[found] == Database(other)
            && (own != other ==> !Restored(files, log, uploads, uploads.Keys, l, Some(found)))
  {
    hide GoodRecord, Globbed, DownloadAll, DecodeAll, History, Logged, DestDir, DirsOf, Listed, Match;
    hide GoodSegment, NoMeta;
    hide TwelveDigits, Pad, LexLess, DestPrefix, HasPrefix, FoundDb, Restored, Chosen, Downloaded, Faithful;
    hide ObjectKey, CurrentTime;
    LongerDiffers(l, m);
    PadStartsWithTwo(t);
    var b, c := uploads[l].bucket, uploads[m].bucket;
    var r, s := Stored(l, b, t, own), Stored(m, c, t, other);
    rounds := [Single(l, b, t, own), Single(m, c, t, other)];
    TwoUploaded(l, b, own, m, c, other, t);
    StoredIsGood(l, b, t, own);
    StoredIsGood(m, c, t, other);
    var recs;
    order, recs := PlainRecovery(rounds, uploads);
    var files := FilesAfter(rounds, uploads, order, AllFetched(uploads), [], []);
    OneRecordEach(History(map[], rounds).0, uploads, recs, l, m, r, s);
    found := At1(uploads, m, s);
    LongerSortsFirst(l, m, t);
    TwoFiles(files, uploads, recs, l, m);
    LongerMatches(uploads, l, m, t);
    FoundFirst(files, l, At1(uploads, l, r), At1(uploads, m, s));
    if own != other { OtherContent(files, [r, s], uploads, l, r, found); }
  }

  lemma OneRecordEach(objects: map<ObjectId, Blob>, uploads: map<string, UploadEntry>, recs: map<string, Record>,
                      l: string, m: string, r: Record, s: Record)
    requires Chosen(objects, [r, s], uploads, uploads.Keys, recs) && m in uploads && l in uploads && l != m
    requires r.lbl == l && r.bucket == uploads[l].bucket && s.lbl == m && s.bucket == uploads[m].bucket
    ensures recs == map[l := r, m := s]
    ensures NewestUpload(r, [r, s], l, uploads[l]) && forall x | NewestUpload(x, [r, s], l, uploads[l]) :: x == r
  {
    hide Listed, ObjectKeyPrefix, ObjectKey, Pad;
    assert UploadOf(r, [r, s], l, uploads[l]) && UploadOf(s, [r, s], m, uploads[m]);
    assert l in recs && m in recs;
    forall x | x in recs
      ensures (x == l && recs[x] == r) || (x == m && recs[x] == s)
    {
      RecordOfLabel([r, s], x, uploads[x], recs[x]);
    }
  }

  lemma TwoFiles(files: Files, uploads: map<string, UploadEntry>, recs: map<string, Record>, l: string, m: string)
    requires Downloaded(files, uploads, recs, uploads.Keys) && Faithful(files, uploads, recs)
    requires l in uploads && m in uploads && l != m && recs.Keys == {l, m}
             && At1(uploads, l, recs[l]) != At1(uploads, m, recs[m])
    ensures files.Keys == {At1(uploads, l, recs[l]), At1(uploads, m, recs[m])}
    ensures files[At1(uploads, m, recs[m])] == recs[m].Payload()
  {
    hide At1;
  }

  lemma FoundFirst(files: Files, l: string, p: Path, q: Path)
    requires files.Keys == {p, q} && p.dir == q.dir && Match(DestPrefix(l) + "*.db", q.name) && LexLess(q.name, p.name)
    ensures FoundDb(files, p.dir, l, Some(q))
  {
    hide Match, DestPrefix, LexLess;
  }

  lemma OtherContent(files: Files, log: seq<Record>, uploads: map<string, UploadEntry>, l: string, r: Record,
                     found: Path)
    requires l in uploads && NewestUpload(r, log, l, uploads[l])
             && forall x | NewestUpload(x, log, l, uploads[l]) :: x == r
    requires found in files && files[found] != PlainOf(r.content)
    ensures !Restored(files, log, uploads, uploads.Keys, l, Some(found))
  {
    hide DestDir;
    NewestIsUpload(r, log, l, uploads[l]);
  }
}
