/** Recovery end to end: for every upload history, the databases found on an empty machine
    are the plain bytes of the newest uploads. */
module EndToEnd {
  import opened Text
  import opened S3Key
  import opened Upload
  import opened FileSystem
  import opened Recover

  // ---------- the newest object ----------

  lemma GoodObjectName(r: Record)
    requires GoodRecord(r)
    ensures GoodSegment(r.ObjectName()) && GoodSegment(Pad(r.modTime))
  {
    hide Pad, GoodContent, TwelveDigits;
    PadShape(r.modTime);
  }

  lemma ListedRecord(objects: map<ObjectId, Blob>, log: seq<Record>, lbl: string, e: UploadEntry) returns (r: Record)
    requires Logged(objects, log) && (forall r | r in log :: GoodRecord(r)) && GoodSegment(lbl)
    requires Listed(objects, e.bucket, ObjectKeyPrefix(lbl)).Some?
    ensures UploadOf(r, log, lbl, e)
    ensures Listed(objects, e.bucket, ObjectKeyPrefix(lbl)) == Some(r.Id().key)
  {
    hide Pad, GoodContent, ObjectKey, ObjectKeyPrefix, LexLess, HasPrefix, Listed, GoodSegment, TwelveDigits;
    var key := Listed(objects, e.bucket, ObjectKeyPrefix(lbl)).value;
    assert key in KeysOf(objects, e.bucket);
    var id :| id in objects && id.bucket == e.bucket && id.key == key;
    r :| r in log && r.Id() == id;
    GoodObjectName(r);
    PrefixIsolatesLabel(lbl, r.lbl, Pad(r.modTime), r.ObjectName());
  }

  lemma UploadedKey(objects: map<ObjectId, Blob>, log: seq<Record>, lbl: string, e: UploadEntry, s: Record)
    requires Logged(objects, log) && GoodRecord(s) && UploadOf(s, log, lbl, e)
    ensures s.Id().key in KeysOf(objects, e.bucket) && HasPrefix(s.Id().key, ObjectKeyPrefix(lbl))
  {
    hide Pad, GoodContent, ObjectKey, ObjectKeyPrefix, HasPrefix, TwelveDigits;
    GoodObjectName(s);
    KeyHasPrefix(lbl, Pad(s.modTime), s.ObjectName());
    assert s.Id() in objects;
  }

  lemma ListedWhenUploaded(objects: map<ObjectId, Blob>, log: seq<Record>, lbl: string, e: UploadEntry, s: Record)
    requires Logged(objects, log) && GoodRecord(s) && UploadOf(s, log, lbl, e)
    ensures Listed(objects, e.bucket, ObjectKeyPrefix(lbl)).Some?
  {
    hide Logged, GoodRecord, FirstKey, HasPrefix, ObjectKeyPrefix, KeysOf, Listed;
    UploadedKey(objects, log, lbl, e, s);
    var key := FirstKeyExists(KeysOf(objects, e.bucket), ObjectKeyPrefix(lbl), s.Id().key);
  }

  /** The first key listed under a label's prefix is one of its newest uploads. */
  lemma FirstListedIsNewest(objects: map<ObjectId, Blob>, log: seq<Record>, lbl: string, e: UploadEntry, r: Record)
    requires Logged(objects, log) && forall s | s in log :: GoodRecord(s)
    requires UploadOf(r, log, lbl, e) && Listed(objects, e.bucket, ObjectKeyPrefix(lbl)) == Some(r.Id().key)
    ensures NewestUpload(r, log, lbl, e)
  {
    hide Pad, GoodContent, ObjectKey, ObjectKeyPrefix, LexLess, HasPrefix, Listed, KeysOf, Logged, GoodSegment;
    forall s | UploadOf(s, log, lbl, e)
      ensures Unix(s.modTime) <= Unix(r.modTime)
    {
      GoodObjectName(r);
      GoodObjectName(s);
      UploadedKey(objects, log, lbl, e, s);
      if Unix(r.modTime) < Unix(s.modTime) {
        NewerKeyFirst(lbl, r.modTime, s.modTime, r.ObjectName(), s.ObjectName());
        LexIrreflexive(s.Id().key);
        if s.Id().key != r.Id().key { LexTransitive(s.Id().key, r.Id().key, s.Id().key); }
      }
    }
  }

  // ---------- one chosen record per label ----------

  /** The record each reachable label with uploads is restored from. */
  ghost predicate Chosen(objects: map<ObjectId, Blob>, log: seq<Record>, uploads: map<string, UploadEntry>,
                         reachable: set<string>, recs: map<string, Record>) {
    && (forall l | l in recs ::
          && l in uploads && l in reachable && NewestUpload(recs[l], log, l, uploads[l])
          && Listed(objects, uploads[l].bucket, ObjectKeyPrefix(l)) == Some(recs[l].Id().key))
    && (forall l | l in uploads && l in reachable && l !in recs ::
          && Listed(objects, uploads[l].bucket, ObjectKeyPrefix(l)).None?
          && forall r :: !UploadOf(r, log, l, uploads[l]))
  }

  lemma {:induction false} Choose(objects: map<ObjectId, Blob>, log: seq<Record>, uploads: map<string, UploadEntry>,
                                  reachable: set<string>, labels: set<string>) returns (recs: map<string, Record>)
    requires Logged(objects, log) && (forall r | r in log :: GoodRecord(r))
    requires PlainLabels(uploads)
    requires labels <= uploads.Keys * reachable
    ensures recs.Keys <= labels
    ensures forall l | l in recs :: NewestUpload(recs[l], log, l, uploads[l])
              && Listed(objects, uploads[l].bucket, ObjectKeyPrefix(l)) == Some(recs[l].Id().key)
    ensures forall l | l in labels && l !in recs :: Listed(objects, uploads[l].bucket, ObjectKeyPrefix(l)).None?
              && forall r :: !UploadOf(r, log, l, uploads[l])
    decreases |labels|
  {
    hide Logged, GoodRecord, Listed, GoodSegment, ObjectKeyPrefix, NewestUpload, UploadOf;
    if labels == {} {
      recs := map[];
    } else {
      var l :| l in labels;
      recs := Choose(objects, log, uploads, reachable, labels - {l});
      if Listed(objects, uploads[l].bucket, ObjectKeyPrefix(l)).Some? {
        var r := ListedRecord(objects, log, l, uploads[l]);
        FirstListedIsNewest(objects, log, l, uploads[l], r);
        recs := recs[l := r];
      } else {
        forall r
          ensures !UploadOf(r, log, l, uploads[l])
        {
          if UploadOf(r, log, l, uploads[l]) {
            MemberIsGood(log, r, l, uploads[l]);
            ListedWhenUploaded(objects, log, l, uploads[l], r);
          }
        }
      }
    }
  }

  lemma MemberIsGood(log: seq<Record>, r: Record, lbl: string, e: UploadEntry)
    requires (forall r | r in log :: GoodRecord(r)) && UploadOf(r, log, lbl, e)
    ensures GoodRecord(r)
  {
  }

  // ---------- the files of each stage ----------

  function At1(uploads: map<string, UploadEntry>, l: string, r: Record): Path
    requires l in uploads
  { Path(DestDir(uploads[l]), Name1(r)) }

  function At2(uploads: map<string, UploadEntry>, l: string, r: Record): Path
    requires l in uploads
  { Path(DestDir(uploads[l]), Name2(r)) }

  function At3(uploads: map<string, UploadEntry>, l: string, r: Record): Path
    requires l in uploads
  { Path(DestDir(uploads[l]), Name3(r)) }

  ghost predicate GoodRecs(uploads: map<string, UploadEntry>, recs: map<string, Record>) {
    GoodUploads(uploads) && forall l | l in recs :: l in uploads && recs[l].lbl == l && GoodRecord(recs[l])
  }

  /** The path is one of the first k stage names of some label, or a leftover. */
  ghost predicate Known(uploads: map<string, UploadEntry>, recs: map<string, Record>, p: Path, k: int)
    requires GoodRecs(uploads, recs)
  {
    Leftover(p.name) || exists l | l in recs ::
      p == At1(uploads, l, recs[l]) || (k >= 2 && p == At2(uploads, l, recs[l]))
        || (k >= 3 && p == At3(uploads, l, recs[l]))
  }

  lemma LabelOfKnown(uploads: map<string, UploadEntry>, recs: map<string, Record>, p: Path, k: int) returns (l: string)
    requires GoodRecs(uploads, recs) && Known(uploads, recs, p, k) && !Leftover(p.name)
    ensures l in recs
    ensures p == At1(uploads, l, recs[l]) || (k >= 2 && p == At2(uploads, l, recs[l]))
            || (k >= 3 && p == At3(uploads, l, recs[l]))
  {
    l :| l in recs && (p == At1(uploads, l, recs[l]) || (k >= 2 && p == At2(uploads, l, recs[l]))
      || (k >= 3 && p == At3(uploads, l, recs[l])));
  }

  /** Exactly the downloads of the labels in `done` are there, leftovers apart. */
  ghost predicate Stage1(files: Files, uploads: map<string, UploadEntry>, recs: map<string, Record>, done: set<string>)
    requires GoodRecs(uploads, recs)
  {
    && (forall l | l in recs && l in done ::
          At1(uploads, l, recs[l]) in files && files[At1(uploads, l, recs[l])] == recs[l].Payload())
    && (forall p | p in files && !Leftover(p.name) ::
          exists l | l in recs && l in done :: p == At1(uploads, l, recs[l]))
  }

  ghost predicate Stage2(files: Files, uploads: map<string, UploadEntry>, recs: map<string, Record>)
    requires GoodRecs(uploads, recs)
  {
    && (forall l | l in recs :: At2(uploads, l, recs[l]) in files && files[At2(uploads, l, recs[l])] == recs[l].content)
    && (forall p | p in files :: Known(uploads, recs, p, 2))
  }

  ghost predicate Stage3(files: Files, uploads: map<string, UploadEntry>, recs: map<string, Record>)
    requires GoodRecs(uploads, recs)
  {
    && (forall l | l in recs ::
          At3(uploads, l, recs[l]) in files && files[At3(uploads, l, recs[l])] == PlainOf(recs[l].content))
    && (forall p | p in files :: Known(uploads, recs, p, 3))
  }

  lemma ShorterLabel(l: string, m: string, x: string)
    requires HasPrefix(x, l + "-") && HasPrefix(x, m + "-") && |l| <= |m|
    ensures l == m || HasPrefix(m, l + "-")
  {
    var a, b := l + "-", m + "-";
    assert l == a[..|l|] && m == b[..|m|];
    if |l| < |m| {
      assert m[..|a|] == b[..|a|] == x[..|a|];
    } else {
      assert a == x[..|a|] == b;
    }
  }

  /** A download name tells its label, given that no label of the directory extends another. */
  lemma PrefixTellsLabel(l: string, m: string, name: string)
    requires HasPrefix(name, DestPrefix(l)) && HasPrefix(name, DestPrefix(m))
    requires !HasPrefix(l, m + "-") && !HasPrefix(m, l + "-")
    ensures l == m
  {
    hide HasPrefix;
    TailPrefix(l, name);
    TailPrefix(m, name);
    var x := name[|DEST_PREFIX|..];
    if |l| <= |m| { ShorterLabel(l, m, x); } else { ShorterLabel(m, l, x); }
  }

  lemma TailPrefix(l: string, name: string)
    requires HasPrefix(name, DestPrefix(l))
    ensures |name| >= |DEST_PREFIX| && HasPrefix(name[|DEST_PREFIX|..], l + "-")
  {
    assert name[|DEST_PREFIX|..][..|l| + 1] == name[..|DestPrefix(l)|][|DEST_PREFIX|..] == l + "-";
  }

  lemma NamesHavePrefix(r: Record)
    requires GoodRecord(r)
    ensures HasPrefix(Name1(r), DestPrefix(r.lbl)) && HasPrefix(Name2(r), DestPrefix(r.lbl))
            && HasPrefix(Name3(r), DestPrefix(r.lbl))
    ensures HasPrefix(Name1(r), DEST_PREFIX) && HasPrefix(Name2(r), DEST_PREFIX)
    ensures |Name1(r)| >= |DestPrefix(r.lbl)| + 13 && |Name2(r)| >= |DestPrefix(r.lbl)| + 13
            && |Name3(r)| >= |DestPrefix(r.lbl)| + 13
    ensures NoSlash(Name1(r)) && NoSlash(Name2(r)) && NoSlash(Name3(r))
  {
    hide Pad, TwelveDigits, TrimSuffix, GoodContent;
    PadShape(r.modTime);
    PrefixOfDest(r.lbl, Pad(r.modTime), r.ObjectName());
    PrefixOfDest(r.lbl, Pad(r.modTime), r.name);
    PlainNoSlash(r.name);
    PrefixOfDest(r.lbl, Pad(r.modTime), PlainName(r.name));
  }

  lemma PlainNoSlash(name: string)
    requires NoSlash(name)
    ensures NoSlash(PlainName(name))
  {
  }

  lemma PrefixOfDest(lbl: string, pad: string, name: string)
    requires NoSlash(lbl) && NoSlash(pad) && NoSlash(name) && |pad| == 12
    ensures var n := DestName(lbl, pad, name);
            HasPrefix(n, DestPrefix(lbl)) && HasPrefix(n, DEST_PREFIX) && |n| >= |DestPrefix(lbl)| + 13 && NoSlash(n)
  {
    var n := DestName(lbl, pad, name);
    assert n[..|DestPrefix(lbl)|] == DestPrefix(lbl);
    assert n[..|DEST_PREFIX|] == DEST_PREFIX;
  }

  /** A stage name of one label is never a stage name of another. */
  lemma LabelOfPath(uploads: map<string, UploadEntry>, recs: map<string, Record>, l: string, m: string, p: Path)
    requires GoodRecs(uploads, recs) && l in recs && m in recs
    requires p == At1(uploads, l, recs[l]) || p == At2(uploads, l, recs[l]) || p == At3(uploads, l, recs[l])
    requires p == At1(uploads, m, recs[m]) || p == At2(uploads, m, recs[m]) || p == At3(uploads, m, recs[m])
    ensures l == m
  {
    hide Name1, Name2, Name3, GoodRecord, HasPrefix, DestPrefix, DestDir, NoMeta, GoodSegment;
    NamesHavePrefix(recs[l]);
    NamesHavePrefix(recs[m]);
    PrefixTellsLabel(l, m, p.name);
  }

  // ---------- download ----------

  lemma DownloadStep(files: Files, objects: map<ObjectId, Blob>, log: seq<Record>, uploads: map<string, UploadEntry>,
                     fetches: map<string, Fetch>, recs: map<string, Record>, done: set<string>, l: string)
    requires Logged(objects, log) && Chosen(objects, log, uploads, Reachable(fetches), recs) && GoodRecs(uploads, recs)
    requires l in uploads && Stage1(files, uploads, recs, done)
    ensures Stage1(DownloadOne(files, objects, l, uploads[l], FetchOf(fetches, l)), uploads, recs, done + {l})
  {
    hide Logged, Name1, Name2, Name3, Pad, ObjectKey, ObjectKeyPrefix, GoodUploads, NewestUpload, DestDir;
    hide Listed, GoodSegment, PadAndName, GoodContent, TwelveDigits;
    if l in recs {
      var r := recs[l];
      GoodObjectName(r);
      PadAndNameOfKey(l, Pad(r.modTime), r.ObjectName());
      StoredPayload(objects, log, l, uploads[l], r);
      var p := At1(uploads, l, r);
      DownloadsTo(files, objects, l, uploads[l], r);
      NamesAreNoLeftovers(r);
      if p in files {
        var m :| m in recs && m in done && p == At1(uploads, m, recs[m]);
        LabelOfPath(uploads, recs, l, m, p);
      } else {
        TempIsLeftover(p);
        forall m | m in recs && m in done
          ensures At1(uploads, m, recs[m]) != p && At1(uploads, m, recs[m]) != TempOf(p)
        {
          NamesAreNoLeftovers(recs[m]);
        }
      }
    } else {
      var next := DownloadOne(files, objects, l, uploads[l], FetchOf(fetches, l));
      NothingFetched(files, objects, l, uploads[l], FetchOf(fetches, l));
      forall m | m in recs && m in done
        ensures At1(uploads, m, recs[m]) in next && next[At1(uploads, m, recs[m])] == recs[m].Payload()
      {
        NamesAreNoLeftovers(recs[m]);
      }
    }
  }

  lemma NothingFetched(files: Files, objects: map<ObjectId, Blob>, lbl: string, e: UploadEntry, fetch: Fetch)
    requires !fetch.Fetched? || Listed(objects, e.bucket, ObjectKeyPrefix(lbl)).None?
    ensures var next := DownloadOne(files, objects, lbl, e, fetch);
            && (forall p | p in next && !Leftover(p.name) :: p in files)
            && (forall p | p in files && !Leftover(p.name) :: p in next && next[p] == files[p])
  {
    hide ObjectKeyPrefix, Listed, PadAndName, DestName, DestDir;
    forall p
      ensures Leftover(TempOf(p).name)
    {
      TempIsLeftover(p);
    }
  }

  lemma TempIsLeftover(p: Path)
    ensures Leftover(TempOf(p).name)
  {
  }

  lemma NamesAreNoLeftovers(r: Record)
    requires GoodRecord(r)
    ensures !Leftover(Name1(r)) && !Leftover(Name2(r)) && !Leftover(Name3(r))
  {
    hide Pad, TwelveDigits, TrimSuffix, GoodContent;
    assert Name1(r)[0] == 's' && Name2(r)[0] == 's' && Name3(r)[0] == 's';
  }

  /** No glob of the recovery finds a leftover. */
  lemma MatchedIsNoLeftover(pattern: string, name: string)
    requires pattern != [] && pattern[0] == 's' && Match(pattern, name)
    ensures !Leftover(name)
  {
  }

  lemma StoredPayload(objects: map<ObjectId, Blob>, log: seq<Record>, lbl: string, e: UploadEntry, r: Record)
    requires Logged(objects, log) && NewestUpload(r, log, lbl, e)
    ensures r.Id() in objects && objects[r.Id()] == r.Payload() && r.Id().bucket == e.bucket && r.lbl == lbl
  {
    hide ObjectKey, Pad;
  }

  lemma DownloadsTo(files: Files, objects: map<ObjectId, Blob>, lbl: string, e: UploadEntry, r: Record)
    requires r.lbl == lbl && r.Id().bucket == e.bucket && r.Id() in objects
    requires Listed(objects, e.bucket, ObjectKeyPrefix(lbl)) == Some(r.Id().key)
    requires PadAndName(r.Id().key) == Some((Pad(r.modTime), r.ObjectName()))
    ensures var p := Path(DestDir(e), Name1(r));
            DownloadOne(files, objects, lbl, e, Fetched) ==
              if p in files then files else (files - {TempOf(p)})[p := objects[r.Id()]]
  {
    hide ObjectKey, Pad, Listed, ObjectKeyPrefix, PadAndName, DestDir, DestName;
  }

  lemma {:induction false} DownloadStage(files: Files, objects: map<ObjectId, Blob>, log: seq<Record>,
                                         order: seq<string>,
                                         uploads: map<string, UploadEntry>, fetches: map<string, Fetch>,
                                         recs: map<string, Record>, done: set<string>)
    requires Logged(objects, log) && Chosen(objects, log, uploads, Reachable(fetches), recs) && GoodRecs(uploads, recs)
    requires (forall l | l in order :: l in uploads) && Stage1(files, uploads, recs, done)
    ensures Stage1(DownloadAll(files, objects, order, uploads, fetches), uploads, recs, done + set l | l in order)
    decreases |order|
  {
    hide Logged, Chosen, Stage1, GoodRecs, DownloadOne;
    if order == [] {
      assert done + (set l | l in order) == done;
    } else {
      var l := order[0];
      DownloadStep(files, objects, log, uploads, fetches, recs, done, l);
      var next := DownloadOne(files, objects, l, uploads[l], FetchOf(fetches, l));
      DownloadStage(next, objects, log, order[1..], uploads, fetches, recs, done + {l});
      assert done + (set x | x in order) == done + {l} + (set x | x in order[1..]) by {
        assert forall x :: x in order <==> x == l || x in order[1..];
      }
    }
  }

  // ---------- decrypt and decompress ----------

  lemma DirIn(uploads: map<string, UploadEntry>, l: string)
    requires l in uploads
    ensures DestDir(uploads[l]) in DirsOf(uploads)
  {
  }

  const AGE_PATTERN := "s3download-*.age"
  const GZ_PATTERN := "s3download-*.bck.gz"

  lemma PatternMatches(name: string)
    requires HasPrefix(name, DEST_PREFIX) && NoSlash(name) && |name| >= |DEST_PREFIX| + 7
    ensures Match(AGE_PATTERN, name) <==> HasSuffix(name, ".age")
    ensures Match(GZ_PATTERN, name) <==> HasSuffix(name, ".bck.gz")
  {
    hide Match, HasPrefix, HasSuffix;
    assert AGE_PATTERN == DEST_PREFIX + "*" + ".age" && GZ_PATTERN == DEST_PREFIX + "*" + ".bck.gz";
    MatchOneStar(DEST_PREFIX, ".age", name);
    MatchOneStar(DEST_PREFIX, ".bck.gz", name);
  }

  /** The encrypted downloads are exactly what the first glob finds. */
  lemma AgesFound(files: Files, uploads: map<string, UploadEntry>, recs: map<string, Record>, ages: seq<Path>, p: Path)
    requires GoodRecs(uploads, recs) && Stage1(files, uploads, recs, recs.Keys)
    requires Globbed(files, DirsOf(uploads), AGE_PATTERN, ages)
    ensures p in ages <==> exists l | l in recs :: p == At1(uploads, l, recs[l]) && recs[l].encrypted
  {
    hide Match, Name1, Name2, Name3, DestDir, DirsOf, GoodUploads, HasPrefix, HasSuffix, GoodRecord;
    forall l | l in recs
      ensures At1(uploads, l, recs[l]) in ages <==> recs[l].encrypted
    {
      DirIn(uploads, l);
      NamesHavePrefix(recs[l]);
      NamesOfRecord(recs[l]);
      PatternMatches(Name1(recs[l]));
    }
    if p in ages { MatchedIsNoLeftover(AGE_PATTERN, p.name); }
  }

  lemma DecryptInputs(files: Files, uploads: map<string, UploadEntry>, recs: map<string, Record>, ages: seq<Path>)
    requires GoodRecs(uploads, recs) && Stage1(files, uploads, recs, recs.Keys)
    requires Globbed(files, DirsOf(uploads), AGE_PATTERN, ages)
    ensures forall p | p in ages :: HasSuffix(p.name, ".age") && Decrypt.Out(p) !in ages
  {
    hide Match, Name1, Name2, Name3, DestDir, DirsOf, GoodUploads, HasPrefix, HasSuffix, Globbed, GoodRecord;
    hide Known, TrimSuffix, Stage1, Stage2;
    forall p | p in ages
      ensures HasSuffix(p.name, ".age") && Decrypt.Out(p) !in ages
    {
      AgesFound(files, uploads, recs, ages, p);
      AgesFound(files, uploads, recs, ages, Decrypt.Out(p));
      var l :| l in recs && p == At1(uploads, l, recs[l]) && recs[l].encrypted;
      NamesOfRecord(recs[l]);
      if m :| m in recs && Decrypt.Out(p) == At1(uploads, m, recs[m]) && recs[m].encrypted { NamesOfRecord(recs[m]); }
    }
  }

  lemma DecryptHas(files: Files, uploads: map<string, UploadEntry>, recs: map<string, Record>, ages: seq<Path>,
                   l: string)
    requires GoodRecs(uploads, recs) && Stage1(files, uploads, recs, recs.Keys)
    requires Globbed(files, DirsOf(uploads), AGE_PATTERN, ages)
    requires l in recs
    ensures var r, q := DecodeAll(files, ages, Decrypt), At2(uploads, l, recs[l]);
            q in r && r[q] == recs[l].content
  {
    hide Match, Name1, Name2, Name3, DestDir, DirsOf, GoodUploads, HasPrefix, HasSuffix, Globbed, GoodRecord;
    hide Known, TrimSuffix, DecodeAll;
    var p, q := At1(uploads, l, recs[l]), At2(uploads, l, recs[l]);
    NamesOfRecord(recs[l]);
    DecryptInputs(files, uploads, recs, ages);
    DecodePoint(files, ages, Decrypt, q);
    if recs[l].encrypted {
      assert p in ages by { AgesFound(files, uploads, recs, ages, p); }
      assert DecodesTo(files, p, Decrypt, q);
    } else {
      NoAgeTo(files, uploads, recs, ages, l);
    }
  }

  lemma DecryptOnly(files: Files, uploads: map<string, UploadEntry>, recs: map<string, Record>, ages: seq<Path>,
                    q: Path)
    requires GoodRecs(uploads, recs) && Stage1(files, uploads, recs, recs.Keys)
    requires Globbed(files, DirsOf(uploads), AGE_PATTERN, ages)
    requires q in DecodeAll(files, ages, Decrypt)
    ensures Known(uploads, recs, q, 2)
  {
    hide Match, Name1, Name2, Name3, DestDir, DirsOf, GoodUploads, HasPrefix, HasSuffix, Globbed, GoodRecord;
    hide TrimSuffix, DecodeAll, Stage1, Stage2;
    DecryptInputs(files, uploads, recs, ages);
    DecodePoint(files, ages, Decrypt, q);
    if p :| p in ages && DecodesTo(files, p, Decrypt, q) {
      AgesFound(files, uploads, recs, ages, p);
      var l :| l in recs && p == At1(uploads, l, recs[l]) && recs[l].encrypted;
      NamesOfRecord(recs[l]);
    } else {
      FirstStageKnown(files, uploads, recs, q);
    }
  }

  lemma FirstStageKnown(files: Files, uploads: map<string, UploadEntry>, recs: map<string, Record>, q: Path)
    requires GoodRecs(uploads, recs) && Stage1(files, uploads, recs, recs.Keys) && q in files
    ensures Known(uploads, recs, q, 2)
  {
    hide Name1, Name2, Name3, DestDir, GoodUploads, GoodRecord;
    if !Leftover(q.name) { var l :| l in recs && q == At1(uploads, l, recs[l]); }
  }

  lemma DecryptStage(files: Files, uploads: map<string, UploadEntry>, recs: map<string, Record>, ages: seq<Path>)
    requires GoodRecs(uploads, recs) && Stage1(files, uploads, recs, recs.Keys)
    requires Globbed(files, DirsOf(uploads), AGE_PATTERN, ages)
    ensures Stage2(DecodeAll(files, ages, Decrypt), uploads, recs)
  {
    hide Match, Name1, Name2, Name3, DestDir, DirsOf, GoodUploads, HasPrefix, HasSuffix, Globbed, GoodRecord;
    hide Known, TrimSuffix, DecodeAll;
    var r := DecodeAll(files, ages, Decrypt);
    forall l | l in recs { DecryptHas(files, uploads, recs, ages, l); }
    forall q | q in r { DecryptOnly(files, uploads, recs, ages, q); }
  }

  lemma NoAgeTo(files: Files, uploads: map<string, UploadEntry>, recs: map<string, Record>, ages: seq<Path>, l: string)
    requires GoodRecs(uploads, recs) && Stage1(files, uploads, recs, recs.Keys)
    requires Globbed(files, DirsOf(uploads), AGE_PATTERN, ages) && l in recs && !recs[l].encrypted
    ensures forall p | p in ages :: !DecodesTo(files, p, Decrypt, At2(uploads, l, recs[l]))
  {
    hide Match, Name1, Name2, Name3, DestDir, DirsOf, GoodUploads, HasPrefix, HasSuffix, Globbed, GoodRecord;
    hide TrimSuffix;
    forall p | p in ages && DecodesTo(files, p, Decrypt, At2(uploads, l, recs[l]))
      ensures false
    {
      AgesFound(files, uploads, recs, ages, p);
      var m :| m in recs && p == At1(uploads, m, recs[m]) && recs[m].encrypted;
      NamesOfRecord(recs[m]);
      LabelOfPath(uploads, recs, l, m, At2(uploads, l, recs[l]));
    }
  }

  lemma GzsFound(files: Files, uploads: map<string, UploadEntry>, recs: map<string, Record>, gzs: seq<Path>, p: Path)
    requires GoodRecs(uploads, recs) && Stage2(files, uploads, recs)
    requires Globbed(files, DirsOf(uploads), GZ_PATTERN, gzs)
    ensures p in gzs <==> exists l | l in recs :: p == At2(uploads, l, recs[l]) && recs[l].content.Gz?
  {
    hide Match, Name1, Name2, Name3, DestDir, DirsOf, GoodUploads, HasPrefix, HasSuffix, GoodRecord, Known;
    if p in gzs {
      MatchedIsNoLeftover(GZ_PATTERN, p.name);
      var l := LabelOfKnown(uploads, recs, p, 2);
      NamesHavePrefix(recs[l]);
      NamesOfRecord(recs[l]);
      PatternMatches(p.name);
    }
    forall l | l in recs && p == At2(uploads, l, recs[l]) && recs[l].content.Gz?
      ensures p in gzs
    {
      DirIn(uploads, l);
      NamesHavePrefix(recs[l]);
      NamesOfRecord(recs[l]);
      PatternMatches(p.name);
    }
  }

  lemma GunzipInputs(files: Files, uploads: map<string, UploadEntry>, recs: map<string, Record>, gzs: seq<Path>)
    requires GoodRecs(uploads, recs) && Stage2(files, uploads, recs)
    requires Globbed(files, DirsOf(uploads), GZ_PATTERN, gzs)
    ensures forall p | p in gzs :: HasSuffix(p.name, ".bck.gz") && Gunzip.Out(p) !in gzs
  {
    hide Match, Name1, Name2, Name3, DestDir, DirsOf, GoodUploads, HasPrefix, HasSuffix, Globbed, GoodRecord;
    hide Known, TrimSuffix, Stage1, Stage2;
    forall p | p in gzs
      ensures HasSuffix(p.name, ".bck.gz") && Gunzip.Out(p) !in gzs
    {
      GzsFound(files, uploads, recs, gzs, p);
      GzsFound(files, uploads, recs, gzs, Gunzip.Out(p));
      var l :| l in recs && p == At2(uploads, l, recs[l]) && recs[l].content.Gz?;
      NamesOfRecord(recs[l]);
      if m :| m in recs && Gunzip.Out(p) == At2(uploads, m, recs[m]) && recs[m].content.Gz? { NamesOfRecord(recs[m]); }
    }
  }

  lemma GunzipHas(files: Files, uploads: map<string, UploadEntry>, recs: map<string, Record>, gzs: seq<Path>, l: string)
    requires GoodRecs(uploads, recs) && Stage2(files, uploads, recs)
    requires Globbed(files, DirsOf(uploads), GZ_PATTERN, gzs)
    requires l in recs
    ensures var r, q := DecodeAll(files, gzs, Gunzip), At3(uploads, l, recs[l]);
            q in r && r[q] == PlainOf(recs[l].content)
  {
    hide Match, Name1, Name2, Name3, DestDir, DirsOf, GoodUploads, HasPrefix, HasSuffix, Globbed, GoodRecord;
    hide Known, TrimSuffix, DecodeAll;
    var p, q := At2(uploads, l, recs[l]), At3(uploads, l, recs[l]);
    NamesOfRecord(recs[l]);
    GunzipInputs(files, uploads, recs, gzs);
    DecodePoint(files, gzs, Gunzip, q);
    if recs[l].content.Gz? {
      assert p in gzs by { GzsFound(files, uploads, recs, gzs, p); }
      assert DecodesTo(files, p, Gunzip, q);
    } else {
      NoGzTo(files, uploads, recs, gzs, l);
    }
  }

  lemma GunzipOnly(files: Files, uploads: map<string, UploadEntry>, recs: map<string, Record>, gzs: seq<Path>, q: Path)
    requires GoodRecs(uploads, recs) && Stage2(files, uploads, recs)
    requires Globbed(files, DirsOf(uploads), GZ_PATTERN, gzs)
    requires q in DecodeAll(files, gzs, Gunzip)
    ensures Known(uploads, recs, q, 3)
  {
    hide Match, Name1, Name2, Name3, DestDir, DirsOf, GoodUploads, HasPrefix, HasSuffix, Globbed, GoodRecord;
    hide TrimSuffix, DecodeAll, Stage1, Stage2;
    GunzipInputs(files, uploads, recs, gzs);
    DecodePoint(files, gzs, Gunzip, q);
    if p :| p in gzs && DecodesTo(files, p, Gunzip, q) {
      GzsFound(files, uploads, recs, gzs, p);
      var l :| l in recs && p == At2(uploads, l, recs[l]) && recs[l].content.Gz?;
      NamesOfRecord(recs[l]);
    } else {
      KnownOneMore(files, uploads, recs, q);
    }
  }

  lemma KnownOneMore(files: Files, uploads: map<string, UploadEntry>, recs: map<string, Record>, q: Path)
    requires GoodRecs(uploads, recs) && Stage2(files, uploads, recs) && q in files
    ensures Known(uploads, recs, q, 3)
  {
    hide Name1, Name2, Name3, DestDir, GoodUploads, GoodRecord;
    if !Leftover(q.name) { var l := LabelOfKnown(uploads, recs, q, 2); }
  }

  lemma GunzipStage(files: Files, uploads: map<string, UploadEntry>, recs: map<string, Record>, gzs: seq<Path>)
    requires GoodRecs(uploads, recs) && Stage2(files, uploads, recs)
    requires Globbed(files, DirsOf(uploads), GZ_PATTERN, gzs)
    ensures Stage3(DecodeAll(files, gzs, Gunzip), uploads, recs)
  {
    hide Match, Name1, Name2, Name3, DestDir, DirsOf, GoodUploads, HasPrefix, HasSuffix, Globbed, GoodRecord;
    hide Known, TrimSuffix, DecodeAll;
    var r := DecodeAll(files, gzs, Gunzip);
    forall l | l in recs { GunzipHas(files, uploads, recs, gzs, l); }
    forall q | q in r { GunzipOnly(files, uploads, recs, gzs, q); }
  }

  lemma NoGzTo(files: Files, uploads: map<string, UploadEntry>, recs: map<string, Record>, gzs: seq<Path>, l: string)
    requires GoodRecs(uploads, recs) && Stage2(files, uploads, recs)
    requires Globbed(files, DirsOf(uploads), GZ_PATTERN, gzs) && l in recs && !recs[l].content.Gz?
    ensures forall p | p in gzs :: !DecodesTo(files, p, Gunzip, At3(uploads, l, recs[l]))
  {
    hide Match, Name1, Name2, Name3, DestDir, DirsOf, GoodUploads, HasPrefix, HasSuffix, Globbed, GoodRecord;
    hide Known, TrimSuffix;
    forall p | p in gzs && DecodesTo(files, p, Gunzip, At3(uploads, l, recs[l]))
      ensures false
    {
      GzsFound(files, uploads, recs, gzs, p);
      var m :| m in recs && p == At2(uploads, m, recs[m]) && recs[m].content.Gz?;
      NamesOfRecord(recs[m]);
      LabelOfPath(uploads, recs, l, m, At3(uploads, l, recs[l]));
    }
  }

  // ---------- finding the databases ----------

  lemma PatternTellsStage(l: string, r: Record, name: string)
    requires GoodRecord(r) && NoMeta(l) && !HasPrefix(l, r.lbl + "-") && !HasPrefix(r.lbl, l + "-")
    requires name == Name1(r) || name == Name2(r) || name == Name3(r)
    requires Match(DestPrefix(l) + "*.db", name)
    ensures l == r.lbl && name == Name3(r)
  {
    hide Match, Name1, Name2, Name3, HasPrefix, HasSuffix, GoodRecord, DestPrefix, NoMeta;
    NamesHavePrefix(r);
    NamesOfRecord(r);
    LabelPattern(l, name);
    PrefixTellsLabel(l, r.lbl, name);
  }

  /** A label's pattern finds its own database and nothing else. */
  lemma OnlyOwnDatabase(files: Files, uploads: map<string, UploadEntry>, recs: map<string, Record>, l: string, p: Path)
    requires GoodRecs(uploads, recs) && Stage3(files, uploads, recs) && l in uploads
    requires p in files && p.dir == DestDir(uploads[l]) && Match(DestPrefix(l) + "*.db", p.name)
    ensures l in recs && p == At3(uploads, l, recs[l])
  {
    hide Match, Name1, Name2, Name3, DestDir, HasPrefix, GoodRecord, DestPrefix, NoMeta, GoodSegment, Known;
    MatchedIsNoLeftover(DestPrefix(l) + "*.db", p.name) by { PatternStarts(l); }
    var m := LabelOfKnown(uploads, recs, p, 3);
    PatternTellsStage(l, recs[m], p.name);
  }

  lemma PatternStarts(l: string)
    ensures (DestPrefix(l) + "*.db")[0] == 's'
  {
  }

  lemma LabelPattern(l: string, name: string)
    requires NoMeta(l) && NoSlash(name)
    ensures Match(DestPrefix(l) + "*.db", name) <==>
              HasPrefix(name, DestPrefix(l)) && HasSuffix(name, ".db") && |name| >= |DestPrefix(l)| + 3
  {
    hide Match, HasPrefix, HasSuffix;
    assert DestPrefix(l) + "*.db" == DestPrefix(l) + "*" + ".db";
    assert NoMeta(DestPrefix(l));
    MatchOneStar(DestPrefix(l), ".db", name);
  }

  lemma OwnDatabaseFound(files: Files, uploads: map<string, UploadEntry>, recs: map<string, Record>, l: string)
    requires GoodRecs(uploads, recs) && Stage3(files, uploads, recs) && l in recs
    ensures Match(DestPrefix(l) + "*.db", Name3(recs[l]))
  {
    hide Match, Name3, DestDir, HasPrefix, HasSuffix, GoodRecord, DestPrefix, NoMeta, GoodSegment;
    NamesHavePrefix(recs[l]);
    NamesOfRecord(recs[l]);
    LabelPattern(l, Name3(recs[l]));
  }

  /** What the recovery reports for one label: the plain database bytes of one of its
      newest uploads, or nothing when nothing was uploaded or the bucket could not be
      reached. */
  ghost predicate Restored(files: Files, log: seq<Record>, uploads: map<string, UploadEntry>, reachable: set<string>,
                           l: string, found: Option<Path>)
    requires l in uploads
  {
    if l in reachable && exists r :: UploadOf(r, log, l, uploads[l]) then
      && found.Some? && found.value in files && found.value.dir == DestDir(uploads[l])
      && exists r ::
           && NewestUpload(r, log, l, uploads[l])
           && files[found.value] == PlainOf(r.content) && PlainOf(r.content).Database?
    else found.None?
  }

  lemma FoundIsOwn(files: Files, uploads: map<string, UploadEntry>, recs: map<string, Record>, l: string,
                   found: Option<Path>)
    requires GoodRecs(uploads, recs) && Stage3(files, uploads, recs)
    requires l in uploads && FoundDb(files, DestDir(uploads[l]), l, found)
    ensures if l in recs then
              found == Some(At3(uploads, l, recs[l])) && At3(uploads, l, recs[l]) in files
                && files[At3(uploads, l, recs[l])] == PlainOf(recs[l].content)
            else found.None?
  {
    hide Match, Name1, Name2, Name3, DestDir, LexLess, DestPrefix, GoodUploads, GoodRecord, Known;
    if found.Some? { OnlyOwnDatabase(files, uploads, recs, l, found.value); }
    if l in recs {
      OwnDatabaseFound(files, uploads, recs, l);
      assert At3(uploads, l, recs[l]) in files;
    }
  }

  lemma FoundIsRestored(files: Files, objects: map<ObjectId, Blob>, log: seq<Record>, uploads: map<string, UploadEntry>,
                        reachable: set<string>, recs: map<string, Record>, l: string, found: Option<Path>)
    requires Chosen(objects, log, uploads, reachable, recs) && GoodRecs(uploads, recs) && Stage3(files, uploads, recs)
    requires l in uploads && FoundDb(files, DestDir(uploads[l]), l, found)
    ensures Restored(files, log, uploads, reachable, l, found)
  {
    hide Name3, DestDir, Listed, ObjectKeyPrefix, UploadOf, GoodRecs, FoundDb, Stage3, NewestUpload;
    FoundIsOwn(files, uploads, recs, l, found);
    if l in recs {
      RecordContent(uploads, recs, l);
      NewestIsUpload(recs[l], log, l, uploads[l]);
    }
  }

  lemma NewestIsUpload(r: Record, log: seq<Record>, l: string, e: UploadEntry)
    requires NewestUpload(r, log, l, e)
    ensures UploadOf(r, log, l, e)
  {
  }

  lemma RecordContent(uploads: map<string, UploadEntry>, recs: map<string, Record>, l: string)
    requires GoodRecs(uploads, recs) && l in recs
    ensures PlainOf(recs[l].content).Database?
  {
    hide GoodSegment, HasSuffix, GoodUploads, TwelveDigits;
  }

  /** The files after one recovery on an empty machine. */
  ghost function FilesAfter(rounds: seq<Round>, uploads: map<string, UploadEntry>, order: seq<string>,
                            fetches: map<string, Fetch>,
                            ages: seq<Path>, gzs: seq<Path>): Files
    requires GoodRounds(rounds) && forall x | x in order :: x in uploads
  {
    DecodeAll(DecodeAll(DownloadAll(map[], History(map[], rounds).0, order, uploads, fetches), ages, Decrypt), gzs,
      Gunzip)
  }

  /** One recovery after some upload history: what its globs listed, and what it found for
      the label l. */
  ghost predicate RecoveryRun(rounds: seq<Round>, uploads: map<string, UploadEntry>, order: seq<string>,
                              fetches: map<string, Fetch>,
                              ages: seq<Path>, gzs: seq<Path>, l: string, found: Option<Path>) {
    && GoodRounds(rounds) && (forall r | r in History(map[], rounds).1 :: GoodRecord(r))
    && (forall x :: x in order <==> x in uploads) && l in uploads
    && var files1 := DownloadAll(map[], History(map[], rounds).0, order, uploads, fetches);
       && Globbed(files1, DirsOf(uploads), AGE_PATTERN, ages)
       && Globbed(DecodeAll(files1, ages, Decrypt), DirsOf(uploads), GZ_PATTERN, gzs)
       && FoundDb(FilesAfter(rounds, uploads, order, fetches, ages, gzs), DestDir(uploads[l]), l, found)
  }

  /** End to end: whatever was uploaded over time, on an empty machine every reachable
      label with uploads gets back exactly the plain database of its newest upload. */
  lemma Recovery(rounds: seq<Round>, uploads: map<string, UploadEntry>, order: seq<string>, fetches: map<string, Fetch>,
                 ages: seq<Path>, gzs: seq<Path>, l: string, found: Option<Path>)
    requires GoodUploads(uploads) && RecoveryRun(rounds, uploads, order, fetches, ages, gzs, l, found)
    ensures Restored(FilesAfter(rounds, uploads, order, fetches, ages, gzs), History(map[], rounds).1, uploads,
            Reachable(fetches), l, found)
  {
    hide GoodRecord, Globbed, FoundDb, DecodeAll, DownloadAll, Restored, History, Logged, DestDir, DirsOf;
    hide Listed, NewestUpload, UploadOf;
    var (objects, log) := History(map[], rounds);
    EmptyLogged();
    HistoryLogged(map[], [], rounds);
    assert [] + log == log;
    var reachable := Reachable(fetches);
    var recs := Choose(objects, log, uploads, reachable, uploads.Keys * reachable);
    assert Chosen(objects, log, uploads, reachable, recs);
    ChosenAreGood(log, uploads, recs);
    EmptyStage(uploads, recs);
    DownloadStage(map[], objects, log, order, uploads, fetches, recs, {});
    var files1 := DownloadAll(map[], objects, order, uploads, fetches);
    AllDone(files1, uploads, recs, order);
    DecryptStage(files1, uploads, recs, ages);
    GunzipStage(DecodeAll(files1, ages, Decrypt), uploads, recs, gzs);
    FoundIsRestored(DecodeAll(DecodeAll(files1, ages, Decrypt), gzs, Gunzip), objects, log, uploads, reachable, recs,
      l, found);
  }

  lemma EmptyLogged()
    ensures Logged(map[], [])
  {
  }

  lemma ChosenAreGood(log: seq<Record>, uploads: map<string, UploadEntry>, recs: map<string, Record>)
    requires GoodUploads(uploads) && forall r | r in log :: GoodRecord(r)
    requires recs.Keys <= uploads.Keys && forall l | l in recs :: NewestUpload(recs[l], log, l, uploads[l])
    ensures GoodRecs(uploads, recs)
  {
    hide GoodUploads, GoodRecord;
  }

  lemma EmptyStage(uploads: map<string, UploadEntry>, recs: map<string, Record>)
    requires GoodRecs(uploads, recs)
    ensures Stage1(map[], uploads, recs, {})
  {
  }

  lemma AllDone(files: Files, uploads: map<string, UploadEntry>, recs: map<string, Record>, order: seq<string>)
    requires GoodRecs(uploads, recs) && Stage1(files, uploads, recs, {} + set l | l in order)
    requires forall x :: x in order <==> x in uploads
    ensures Stage1(files, uploads, recs, recs.Keys)
  {
    hide GoodUploads, GoodRecord, At1;
  }
}
