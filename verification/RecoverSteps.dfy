/** The recovery program step by step, on a machine whose files are changed in place. */
module RecoverSteps {
  import opened Text
  import opened Calendar
  import opened S3Key
  import opened Upload
  import opened FileSystem
  import opened Recover
  import opened EndToEnd
  import opened Directories

  method ListObject(objects: map<ObjectId, Blob>, bucket: string, prefix: string) returns (key: Option<string>)
    ensures key == Listed(objects, bucket, prefix)
  {
    hide LexLess, HasPrefix, Listed;
    key := None;
    var todo := objects.Keys;
    while todo != {}
      invariant todo <= objects.Keys
      invariant key.None? ==> forall id | id in objects.Keys - todo && id.bucket == bucket :: !HasPrefix(id.key, prefix)
      invariant key.Some? ==> ObjectId(bucket, key.value) in objects && HasPrefix(key.value, prefix)
      invariant key.Some? ==> forall id | id in objects.Keys - todo && id.bucket == bucket
                && HasPrefix(id.key, prefix) && id.key != key.value ::
                  LexLess(key.value, id.key)
    {
      var id :| id in todo;
      ghost var before := key;
      if id.bucket == bucket && HasPrefix(id.key, prefix) && (key.None? || LexLess(id.key, key.value)) {
        key := Some(id.key);
        if before.Some? { FrontShift(objects.Keys - todo, bucket, prefix, before.value, id.key); }
      } else if key.Some? {
        LexTotal(key.value, id.key);
      }
      todo := todo - {id};
    }
    ListedIs(objects, bucket, prefix, key);
  }

  lemma FrontShift(ids: set<ObjectId>, bucket: string, prefix: string, a: string, b: string)
    requires LexLess(b, a)
    requires forall id | id in ids && id.bucket == bucket && HasPrefix(id.key, prefix)
             && id.key != a :: LexLess(a, id.key)
    ensures forall id | id in ids && id.bucket == bucket && HasPrefix(id.key, prefix)
            && id.key != b :: LexLess(b, id.key)
  {
    hide LexLess, HasPrefix;
    forall id | id in ids && id.bucket == bucket && HasPrefix(id.key, prefix) && id.key != b
      ensures LexLess(b, id.key)
    {
      if id.key != a { LexTransitive(b, a, id.key); }
    }
  }

  lemma ListedIs(objects: map<ObjectId, Blob>, bucket: string, prefix: string, key: Option<string>)
    requires key.None? ==> forall id | id in objects && id.bucket == bucket :: !HasPrefix(id.key, prefix)
    requires key.Some? ==> ObjectId(bucket, key.value) in objects && HasPrefix(key.value, prefix)
    requires key.Some? ==> forall id | id in objects && id.bucket == bucket && HasPrefix(id.key, prefix)
             && id.key != key.value :: LexLess(key.value, id.key)
    ensures key == Listed(objects, bucket, prefix)
  {
    hide LexLess, HasPrefix, Listed;
    var keys, r := KeysOf(objects, bucket), Listed(objects, bucket, prefix);
    if key.Some? {
      assert ObjectId(bucket, key.value).key in keys;
      assert FirstKey(keys, prefix, key.value);
      if r.Some? { FirstKeyUnique(keys, prefix, key.value, r.value); }
    }
  }

  class Machine {
    var files: Files

    /** `lastDestFileDownloadTime`. */
    method LastDownload(infos: seq<Info>, prefix: string) returns (latest: Option<Time>)
      ensures latest == if LastTime(infos, prefix) == 0 then None else Some(LastTime(infos, prefix))
    {
      var latestTime: Time := 0;
      for i := 0 to |infos|
        invariant latestTime == LastTime(infos[..i], prefix)
      {
        assert infos[..i + 1][..i] == infos[..i] && infos[..i + 1][i] == infos[i];
        if infos[i].isDir { continue; }
        if !HasPrefix(infos[i].name, prefix) { continue; }
        if infos[i].modTime.None? { continue; }
        if latestTime == 0 || infos[i].modTime.value > latestTime { latestTime := infos[i].modTime.value; }
      }
      assert infos[..|infos|] == infos;
      latest := if latestTime == 0 then None else Some(latestTime);
    }

    /** `downloadFromS3`: one pass over the labels. */
    method DownloadFromS3(objects: map<ObjectId, Blob>, order: seq<string>, uploads: map<string, UploadEntry>,
                          fetches: map<string, Fetch>, views: map<string, View>)
      requires forall l | l in order :: l in uploads && l in views && l in fetches
      modifies this
      ensures files == DownloadAll(old(files), objects, order, uploads, AllWaited(fetches, views))
    {
      hide ObjectKeyPrefix, PadAndName, DestDir, DestName, DownloadOne, Listed;
      ghost var start := files;
      for i := 0 to |order|
        invariant DownloadAll(files, objects, order[i..], uploads, AllWaited(fetches, views)) ==
                  DownloadAll(start, objects, order, uploads, AllWaited(fetches, views))
      {
        var l := order[i];
        assert order[i..][0] == l && order[i..][1..] == order[i + 1..];
        Download(objects, l, uploads[l], fetches[l], views[l]);
      }
    }

    /** The object goes to a hidden temp file, which a rename gives the final name. */
    method Download(objects: map<ObjectId, Blob>, l: string, e: UploadEntry, fetch: Fetch, view: View)
      modifies this
      ensures files == DownloadOne(old(files), objects, l, e, Waited(fetch, view, l))
    {
      hide ObjectKeyPrefix, PadAndName, DestDir, DestName, Listed;
      if view.infos.Some? {
        var last := LastDownload(view.infos.value, DestPrefix(l));
        if last.Some? && Sub(view.now, last.value) < view.minInterval { return; }
      }
      if fetch == Unlisted { return; }
      var key := ListObject(objects, e.bucket, ObjectKeyPrefix(l));
      if key.None? { return; }
      var parts := PadAndName(key.value);
      if parts.None? { return; }
      var p := Path(DestDir(e), DestName(l, parts.value.0, parts.value.1));
      var id := ObjectId(e.bucket, key.value);
      if p in files || id !in objects || fetch == Refused { return; }
      var temp := TempOf(p);
      var written := objects[id];
      if fetch.Lost? && fetch.leftover.Some? { written := fetch.leftover.value; }
      files := files[temp := written];
      if fetch == Fetched {
        var content := files[temp];
        files := (files - {temp})[p := content];
      } else if fetch == Lost(None) {
        files := files - {temp};
      }
    }

    method Glob(dirs: set<string>, pattern: string) returns (ps: seq<Path>)
      ensures Globbed(files, dirs, pattern, ps)
    {
      hide Match;
      ps := [];
      var todo := files.Keys;
      while todo != {}
        invariant todo <= files.Keys
        invariant forall p :: p in ps <==> p in files.Keys - todo && p.dir in dirs && Match(pattern, p.name)
      {
        var p :| p in todo;
        if p.dir in dirs && Match(pattern, p.name) { ps := ps + [p]; }
        todo := todo - {p};
      }
    }

    /** The loops of `decrypt` and `decompress`. */
    method Decode(ps: seq<Path>, codec: Codec)
      modifies this
      ensures files == DecodeAll(old(files), ps, codec)
    {
      ghost var start := files;
      for i := 0 to |ps|
        invariant DecodeAll(files, ps[i..], codec) == DecodeAll(start, ps, codec)
      {
        var p := ps[i];
        assert ps[i..][0] == p && ps[i..][1..] == ps[i + 1..];
        if p !in files { continue; }
        var plain := codec.Decode(files[p]);
        if plain.None? { continue; }
        files := files[codec.Out(p) := plain.value];
      }
    }

    method FindDb(dir: string, l: string) returns (found: Option<Path>)
      ensures FoundDb(files, dir, l, found)
    {
      hide Match, LexLess, DestPrefix;
      var pattern := DestPrefix(l) + "*.db";
      var paths := Glob({dir}, pattern);
      found := None;
      for i := 0 to |paths|
        invariant found.None? <==> i == 0
        invariant found.Some? ==> found.value in paths[..i]
        invariant found.Some? ==> forall p | p in paths[..i] && p.name != found.value.name ::
                      LexLess(found.value.name, p.name)
      {
        var name := paths[i].name;
        assert paths[i] in paths && paths[i].dir == dir;
        assert paths[..i + 1] == paths[..i] + [paths[i]];
        if found.None? || LexLess(name, found.value.name) {
          if found.Some? { FirstNameShift(paths[..i], found.value.name, name); }
          found := Some(paths[i]);
        } else {
          LexTotal(found.value.name, name);
        }
      }
      assert paths[..|paths|] == paths;
      forall p | p in files && p.dir == dir && Match(pattern, p.name)
        ensures p in paths
      {
      }
      if paths != [] { assert paths[0] in paths; }
    }

    method FindDbPaths(uploads: map<string, UploadEntry>) returns (dbs: map<string, Option<Path>>)
      ensures dbs.Keys == uploads.Keys
      ensures forall l | l in uploads :: FoundDb(files, DestDir(uploads[l]), l, dbs[l])
    {
      hide FoundDb, DestDir;
      dbs := map[];
      var todo := uploads.Keys;
      while todo != {}
        invariant todo <= uploads.Keys && dbs.Keys == uploads.Keys - todo
        invariant forall l | l in dbs :: FoundDb(files, DestDir(uploads[l]), l, dbs[l])
      {
        var l :| l in todo;
        var found := FindDb(DestDir(uploads[l]), l);
        dbs := dbs[l := found];
        todo := todo - {l};
      }
    }

    /** The recovery from an empty machine: every label gets its newest upload back as a
        plain database. `rounds` is the upload history the bucket came from. */
    method Recover(objects: map<ObjectId, Blob>, order: seq<string>, uploads: map<string, UploadEntry>,
                   fetches: map<string, Fetch>, views: map<string, View>,
                   ghost rounds: seq<Round>) returns (dbs: map<string, Option<Path>>)
      requires files == map[] && GoodUploads(uploads) && forall l :: l in order <==> l in uploads
      requires forall l | l in uploads :: l in views && l in fetches
      requires GoodRounds(rounds) && objects == History(map[], rounds).0
      requires forall r | r in History(map[], rounds).1 :: GoodRecord(r)
      modifies this
      ensures dbs.Keys == uploads.Keys
      ensures forall l | l in uploads ::
              Restored(files, History(map[], rounds).1, uploads, Reachable(AllWaited(fetches, views)), l, dbs[l])
      ensures forall l, src | l in uploads && dbs[l].Some? :: Beside(dbs[l].value, uploads[l], src)
    {
      hide Beside;
      hide FoundDb, DestDir, DirsOf, DownloadAll, DecodeAll, Globbed, Restored, GoodRecord, GoodUploads;
      hide GoodRounds, History;
      DownloadFromS3(objects, order, uploads, fetches, views);
      var dirs := DirsOf(uploads);
      var ages := Glob(dirs, AGE_PATTERN);
      Decode(ages, Decrypt);
      var gzs := Glob(dirs, GZ_PATTERN);
      Decode(gzs, Gunzip);
      dbs := FindDbPaths(uploads);
      forall l | l in uploads
        ensures Restored(files, History(map[], rounds).1, uploads, Reachable(AllWaited(fetches, views)), l, dbs[l])
      {
        Recovery(rounds, uploads, order, AllWaited(fetches, views), ages, gzs, l, dbs[l]);
      }
      forall l, src | l in uploads && dbs[l].Some?
        ensures Beside(dbs[l].value, uploads[l], src)
      {
        RestoredInPlace(files, History(map[], rounds).1, uploads, Reachable(AllWaited(fetches, views)), l, dbs[l].value,
          src);
      }
    }
  }

  lemma FirstNameShift(paths: seq<Path>, a: string, b: string)
    requires LexLess(b, a)
    requires forall p | p in paths && p.name != a :: LexLess(a, p.name)
    ensures forall p | p in paths && p.name != b :: LexLess(b, p.name)
  {
    hide LexLess;
    forall p | p in paths && p.name != b
      ensures LexLess(b, p.name)
    {
      if p.name != a { LexTransitive(b, a, p.name); }
    }
  }
}
