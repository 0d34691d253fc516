/** Recovery on an empty machine: download the newest object of every label, decrypt,
    decompress, and find the databases again by pattern. */
module Recover {
  import opened Text
  import opened Calendar
  import opened S3Key
  import opened Upload
  import opened FileSystem

  // ---------- file name patterns ----------

  predicate IsMeta(c: char) { c == '*' || c == '?' || c == '[' || c == '\\' || c == '/' }

  predicate NoMeta(s: string) {
    forall i | 0 <= i < |s| :: !IsMeta(s[i])
  }

  /** `filepath.Match` on one path element, for patterns without classes and escapes. */
  predicate Match(pattern: string, name: string)
    decreases |pattern| + |name|
  {
    if pattern == [] then name == []
    else if pattern[0] == '*' then
      Match(pattern[1..], name) || (name != [] && name[0] != '/' && Match(pattern, name[1..]))
    else
      name != [] && (pattern[0] == name[0] || (pattern[0] == '?' && name[0] != '/')) && Match(pattern[1..], name[1..])
  }

  lemma {:induction false} MatchLiteral(p: string, rest: string, name: string)
    requires NoMeta(p)
    ensures Match(p + rest, name) <==> HasPrefix(name, p) && Match(rest, name[|p|..])
  {
    if p == [] {
      assert p + rest == rest && name[0..] == name;
    } else {
      assert (p + rest)[0] == p[0] && (p + rest)[1..] == p[1..] + rest;
      assert NoMeta(p[1..]) && !IsMeta(p[0]);
      if HasPrefix(name, p) { StartOfPrefix(name, p); }
      if name != [] && name[0] == p[0] {
        MatchLiteral(p[1..], rest, name[1..]);
        assert HasPrefix(name, p) <==> HasPrefix(name[1..], p[1..]) by {
          assert p == [p[0]] + p[1..] && name == [name[0]] + name[1..];
          if HasPrefix(name, p) { assert name[1..][..|p| - 1] == name[..|p|][1..]; }
          if HasPrefix(name[1..], p[1..]) { assert name[..|p|] == [name[0]] + name[1..][..|p| - 1]; }
        }
        if |p| <= |name| { assert name[1..][|p| - 1..] == name[|p|..]; }
      }
    }
  }

  lemma {:induction false} MatchStarTail(p: string, name: string)
    requires NoMeta(p) && NoSlash(name)
    ensures Match("*" + p, name) <==> HasSuffix(name, p)
    decreases |name|
  {
    var pattern := "*" + p;
    assert pattern[1..] == p && p + [] == p;
    MatchLiteral(p, [], name);
    assert Match(p, name) <==> name == p;
    if name != [] {
      MatchStarTail(p, name[1..]);
      if |p| < |name| { assert name[1..][|name| - 1 - |p|..] == name[|name| - |p|..]; }
    }
  }

  lemma SuffixOfTail(a: string, x: string, s: string)
    ensures HasSuffix(x, s) <==> HasSuffix(a + x, s) && |x| >= |s|
  {
    if |x| >= |s| { assert (a + x)[|a + x| - |s|..] == x[|x| - |s|..]; }
  }

  /** A pattern with one star: prefix, suffix, and no overlap of the two. */
  lemma MatchOneStar(pre: string, suf: string, name: string)
    requires NoMeta(pre) && NoMeta(suf) && NoSlash(name)
    ensures Match(pre + "*" + suf, name) <==> HasPrefix(name, pre) && HasSuffix(name, suf) && |name| >= |pre| + |suf|
  {
    hide Match, NoMeta, HasSuffix;
    MatchLiteral(pre, "*" + suf, name);
    assert pre + "*" + suf == pre + ("*" + suf);
    if HasPrefix(name, pre) {
      var tail := name[|pre|..];
      assert name == pre + tail && NoSlash(tail);
      MatchStarTail(suf, tail);
      SuffixOfTail(pre, tail, suf);
    }
  }

  // ---------- names ----------

  const DEST_PREFIX := "s3download-"

  /** `buildDestFilePrefix`. */
  function DestPrefix(lbl: string): string { DEST_PREFIX + lbl + "-" }

  /** `buildDestFilePath`, the name part. */
  function DestName(lbl: string, pad: string, name: string): string { DestPrefix(lbl) + (pad + "-" + name) }

  /** The two codecs of the pipeline and what a recovery step makes of a file name. */
  datatype Codec = Decrypt | Gunzip {
    function Suffix(): string { if Decrypt? then ".age" else ".bck.gz" }
    function OutName(name: string): string {
      if Decrypt? then TrimSuffix(name, ".age") else TrimSuffix(name, ".bck.gz") + ".db"
    }
    function Decode(b: Blob): Option<Blob> {
      match (this, b)
      case (Decrypt, Age(c)) => Some(c)
      case (Gunzip, Gz(c)) => Some(c)
      case _ => None
    }
    function Out(p: Path): Path { Path(p.dir, OutName(p.name)) }
  }

  type Files = map<Path, Blob>

  // ---------- the steps ----------

  /** `decrypt` and `decompress`: each listed file is decoded next to its original; one
      that does not decode is skipped and leaves nothing. */
  function DecodeAll(files: Files, ps: seq<Path>, codec: Codec): Files
    decreases |ps|
  {
    if ps == [] then files
    else
      var p := ps[0];
      var next := if p in files && codec.Decode(files[p]).Some? then files[codec.Out(p) := codec.Decode(files[p]).value]
                  else files;
      DecodeAll(next, ps[1..], codec)
  }

  ghost predicate DecodesTo(files: Files, p: Path, codec: Codec, q: Path) {
    p in files && codec.Decode(files[p]).Some? && codec.Out(p) == q
  }

  lemma OutInjective(codec: Codec, p: Path, q: Path)
    requires HasSuffix(p.name, codec.Suffix()) && HasSuffix(q.name, codec.Suffix()) && codec.Out(p) == codec.Out(q)
    ensures p == q
  {
    var s := codec.Suffix();
    assert p.name == p.name[..|p.name| - |s|] + s;
    assert q.name == q.name[..|q.name| - |s|] + s;
    if codec.Gunzip? {
      var a, b := p.name[..|p.name| - |s|], q.name[..|q.name| - |s|];
      assert codec.OutName(p.name) == a + ".db" && codec.OutName(q.name) == b + ".db";
      assert a == (a + ".db")[..|a|] && b == (b + ".db")[..|b|];
    }
  }

  /** What a decoding step leaves at one path, when it never reads its own output. */
  lemma {:induction false} DecodePoint(files: Files, ps: seq<Path>, codec: Codec, q: Path)
    requires forall p | p in ps :: HasSuffix(p.name, codec.Suffix()) && codec.Out(p) !in ps
    ensures var r := DecodeAll(files, ps, codec);
            && (forall p | p in ps && DecodesTo(files, p, codec, q) :: q in r && Some(r[q]) == codec.Decode(files[p]))
            && ((forall p | p in ps :: !DecodesTo(files, p, codec, q)) ==>
              (q in r <==> q in files) && (q in r ==> r[q] == files[q]))
    decreases |ps|
  {
    hide HasSuffix;
    if ps != [] {
      var p0 := ps[0];
      var decoded := p0 in files && codec.Decode(files[p0]).Some?;
      var next := if decoded then files[codec.Out(p0) := codec.Decode(files[p0]).value] else files;
      assert p0 in ps && forall p | p in ps[1..] :: p in ps;
      assert forall p | p in ps[1..] :: DecodesTo(next, p, codec, q) <==> DecodesTo(files, p, codec, q);
      DecodePoint(next, ps[1..], codec, q);
      assert forall p | p in ps :: p == p0 || p in ps[1..];
      if DecodesTo(files, p0, codec, q) {
        forall p | p in ps && DecodesTo(files, p, codec, q)
          ensures p == p0
        {
          OutInjective(codec, p, p0);
        }
      }
    }
  }

  function KeysOf(objects: map<ObjectId, Blob>, bucket: string): set<string> {
    set id | id in objects && id.bucket == bucket :: id.key
  }

  /** `ListObjectForPrefix`. */
  ghost function Listed(objects: map<ObjectId, Blob>, bucket: string, prefix: string): (r: Option<string>)
    ensures r.Some? ==> FirstKey(KeysOf(objects, bucket), prefix, r.value)
    ensures r.None? ==> forall k :: !FirstKey(KeysOf(objects, bucket), prefix, k)
  {
    if k :| FirstKey(KeysOf(objects, bucket), prefix, k) then Some(k) else None
  }

  function DestDir(e: UploadEntry): string { Dir(if e.path == "" then e.pathPrefix else e.path) }

  /** `lastDestFileDownloadTime`, zero when no file matches. */
  function LastTime(infos: seq<Info>, prefix: string): Time {
    if infos == [] then 0
    else
      var best, i := LastTime(infos[..|infos| - 1], prefix), infos[|infos| - 1];
      if Eligible(i, prefix) && (best == 0 || i.modTime.value > best) then i.modTime.value else best
  }

  /** The newest matching file, as long as no time is before Go's zero time. */
  lemma {:induction false} LastTimeIsMaximal(infos: seq<Info>, prefix: string)
    requires forall i | i in infos && Eligible(i, prefix) :: i.modTime.Some? && i.modTime.value > 0
    ensures var t := LastTime(infos, prefix);
            && (t == 0 <==> forall i | i in infos :: !Eligible(i, prefix))
            && (t != 0 ==> t > 0 && exists i | i in infos :: Eligible(i, prefix) && i.modTime == Some(t))
            && forall i | i in infos && Eligible(i, prefix) :: i.modTime.value <= t
  {
    hide Eligible;
    if infos != [] {
      var init, last := infos[..|infos| - 1], infos[|infos| - 1];
      assert forall i :: i in infos <==> i in init || i == last;
      LastTimeIsMaximal(init, prefix);
    }
  }

  /** What a download is told about its destination directory and the clock; `infos` is
      missing when the directory cannot be read. */
  datatype View = View(infos: Option<seq<Info>>, now: Time, minInterval: Duration)

  /** The label's newest download is younger than the interval. */
  predicate TooSoon(v: View, l: string) {
    && v.infos.Some? && LastTime(v.infos.value, DestPrefix(l)) != 0
    && Sub(v.now, LastTime(v.infos.value, DestPrefix(l))) < v.minInterval
  }

  /** With the interval of the recovery, only a file from the future makes a label wait; an
      empty directory never does. */
  lemma ZeroIntervalWaits(v: View, l: string)
    requires v.minInterval == 0
    ensures TooSoon(v, l) <==> v.infos.Some? && LastTime(v.infos.value, DestPrefix(l)) != 0
                               && LastTime(v.infos.value, DestPrefix(l)) > v.now
    ensures v.infos == Some([]) ==> !TooSoon(v, l)
  {
  }

  /** A label waits exactly when some download of it in the directory is younger than the
      interval. */
  lemma WaitsExactly(v: View, l: string)
    requires 0 <= v.minInterval <= MAX_DURATION
    requires v.infos.Some? ==> forall i | i in v.infos.value && i.modTime.Some? :: i.modTime.value > 0
    ensures TooSoon(v, l) <==>
            v.infos.Some? && exists i | i in v.infos.value ::
              !i.isDir && HasPrefix(i.name, "s3download-" + l + "-") && i.modTime.Some?
              && v.now - i.modTime.value < v.minInterval
  {
    hide HasPrefix;
    if v.infos.Some? { LastTimeIsMaximal(v.infos.value, DestPrefix(l)); }
  }

  /** How a download fares: the listing or the request fails, or the transfer or the final
      rename breaks off (a directory may be in the way), which may leave the hidden temp file
      behind with anything in it. */
  datatype Fetch = Unlisted | Refused | Lost(leftover: Option<Blob>) | Fetched

  const TMP_PREFIX := ".tmp-"
  predicate Leftover(name: string) { HasPrefix(name, TMP_PREFIX) }
  function TempOf(p: Path): Path { Path(p.dir, TMP_PREFIX + p.name) }

  /** A label that has to wait makes no request. */
  function Waited(fetch: Fetch, v: View, l: string): Fetch { if TooSoon(v, l) then Unlisted else fetch }

  function AllWaited(fetches: map<string, Fetch>, views: map<string, View>): map<string, Fetch> {
    map l | l in fetches :: if l in views then Waited(fetches[l], views[l], l) else fetches[l]
  }

  /** A label is reached exactly when its fetch works and it does not have to wait. */
  lemma ReachableExactly(fetches: map<string, Fetch>, views: map<string, View>, l: string)
    requires l in fetches && l in views
    ensures l in Reachable(AllWaited(fetches, views)) <==> fetches[l].Fetched? && !TooSoon(views[l], l)
  {
    hide TooSoon;
  }

  function FetchOf(fetches: map<string, Fetch>, l: string): Fetch { if l in fetches then fetches[l] else Unlisted }
  function Reachable(fetches: map<string, Fetch>): set<string> { set l | l in fetches && fetches[l].Fetched? }

  /** `downloadOne` and `downloadObject` for one upload label: list, skip what is there,
      write to the temp file and rename. */
  ghost function DownloadOne(files: Files, objects: map<ObjectId, Blob>, lbl: string, e: UploadEntry,
                             fetch: Fetch): Files {
    if fetch.Unlisted? then files else
    match Listed(objects, e.bucket, ObjectKeyPrefix(lbl))
    case None => files
    case Some(key) =>
      match PadAndName(key)
      case None => files
      case Some((pad, name)) =>
        var p := Path(DestDir(e), DestName(lbl, pad, name));
        if p in files || ObjectId(e.bucket, key) !in objects then files
        else match fetch
          case Refused => files
          case Lost(Some(b)) => files[TempOf(p) := b]
          case Lost(None) => files - {TempOf(p)}
          case _ => (files - {TempOf(p)})[p := objects[ObjectId(e.bucket, key)]]
  }

  /** A download writes nothing over a file that is there, leftovers of its own aside: it
      adds at most the one object under its name, and a leftover when it breaks off. */
  lemma DownloadAdds(files: Files, objects: map<ObjectId, Blob>, lbl: string, e: UploadEntry, fetch: Fetch, q: Path)
    requires !HasPrefix(q.name, ".tmp-")
    ensures var r := DownloadOne(files, objects, lbl, e, fetch);
            && (q in files ==> q in r && r[q] == files[q])
            && (q in r && q !in files ==>
                  && fetch.Fetched? && q.dir == DestDir(e) && HasPrefix(q.name, DestPrefix(lbl))
                  && exists key | FirstKey(KeysOf(objects, e.bucket), ObjectKeyPrefix(lbl), key) ::
                       ObjectId(e.bucket, key) in objects && r[q] == objects[ObjectId(e.bucket, key)])
  {
    hide ObjectKeyPrefix, PadAndName, DestDir, Listed, FirstKey;
    if !fetch.Unlisted? && Listed(objects, e.bucket, ObjectKeyPrefix(lbl)).Some? {
      var key := Listed(objects, e.bucket, ObjectKeyPrefix(lbl)).value;
      assert FirstKey(KeysOf(objects, e.bucket), ObjectKeyPrefix(lbl), key);
      if PadAndName(key).Some? {
        var (pad, name) := PadAndName(key).value;
        var p := Path(DestDir(e), DestName(lbl, pad, name));
        assert HasPrefix(p.name, DestPrefix(lbl)) && TempOf(p).name[..5] == TMP_PREFIX;
      }
    }
  }

  /** One download pass over the labels. */
  ghost function DownloadAll(files: Files, objects: map<ObjectId, Blob>, order: seq<string>,
                             uploads: map<string, UploadEntry>,
                             fetches: map<string, Fetch>): Files
    requires forall l | l in order :: l in uploads
    decreases |order|
  {
    if order == [] then files
    else
      var l := order[0];
      DownloadAll(DownloadOne(files, objects, l, uploads[l], FetchOf(fetches, l)), objects, order[1..], uploads,
        fetches)
  }

  /** A glob over some directories. */
  ghost predicate Globbed(files: Files, dirs: set<string>, pattern: string, ps: seq<Path>) {
    forall p :: p in ps <==> p in files && p.dir in dirs && Match(pattern, p.name)
  }

  function DirsOf(uploads: map<string, UploadEntry>): set<string> {
    set l | l in uploads :: DestDir(uploads[l])
  }

  /** `findDbPaths` for one label: the first match of its pattern, with its directory. */
  ghost predicate FoundDb(files: Files, dir: string, lbl: string, r: Option<Path>) {
    var pattern := DestPrefix(lbl) + "*.db";
    && (r.None? ==> forall p | p in files && p.dir == dir :: !Match(pattern, p.name))
    && (r.Some? ==> r.value in files && r.value.dir == dir && Match(pattern, r.value.name)
                    && forall p | p in files && p.dir == dir && Match(pattern, p.name)
                      && p.name != r.value.name :: LexLess(r.value.name, p.name))
  }

  // ---------- assumptions ----------

  /** Labels are path segments without pattern characters. */
  ghost predicate PlainLabels(uploads: map<string, UploadEntry>) {
    forall l | l in uploads :: GoodSegment(l) && NoMeta(l)
  }

  /** No label that shares a directory with another starts with that other one and a dash. */
  ghost predicate NoLabelExtends(uploads: map<string, UploadEntry>) {
    forall l, m | l in uploads && m in uploads && DestDir(uploads[l]) == DestDir(uploads[m]) :: !HasPrefix(l, m + "-")
  }

  ghost predicate GoodUploads(uploads: map<string, UploadEntry>) {
    PlainLabels(uploads) && NoLabelExtends(uploads)
  }

  /** A plain database under a `.db` name, or a gzipped one under a `.bck.gz` name. */
  predicate GoodContent(name: string, content: Blob) {
    || (HasSuffix(name, ".db") && content.Database?)
    || (HasSuffix(name, ".bck.gz") && content.Gz? && content.inner.Database?)
  }

  predicate GoodRecord(r: Record) {
    GoodSegment(r.lbl) && GoodSegment(r.name) && TwelveDigits(r.modTime) && GoodContent(r.name, r.content)
  }

  function PlainName(name: string): string { if HasSuffix(name, ".bck.gz") then Gunzip.OutName(name) else name }
  function PlainOf(content: Blob): Blob { if content.Gz? then content.inner else content }

  ghost predicate UploadOf(r: Record, log: seq<Record>, lbl: string, e: UploadEntry) {
    r in log && r.lbl == lbl && r.bucket == e.bucket
  }

  /** The uploads of the label that carry the newest second. */
  ghost predicate NewestUpload(r: Record, log: seq<Record>, lbl: string, e: UploadEntry) {
    UploadOf(r, log, lbl, e) && forall s | UploadOf(s, log, lbl, e) :: Unix(s.modTime) <= Unix(r.modTime)
  }

  // ---------- names of one label ----------

  /** The three names a download of this record can have on the way to the database. */
  function Name1(r: Record): string { DestName(r.lbl, Pad(r.modTime), r.ObjectName()) }
  function Name2(r: Record): string { DestName(r.lbl, Pad(r.modTime), r.name) }
  function Name3(r: Record): string { DestName(r.lbl, Pad(r.modTime), PlainName(r.name)) }

  lemma TrimTail(a: string, x: string, s: string)
    requires HasSuffix(x, s)
    ensures HasSuffix(a + x, s) && TrimSuffix(a + x, s) == a + TrimSuffix(x, s)
  {
    SuffixOfTail(a, x, s);
    assert (a + x)[..|a + x| - |s|] == a + x[..|x| - |s|];
  }

  lemma EndsApart(name: string)
    ensures HasSuffix(name, ".db") ==> !HasSuffix(name, ".bck.gz") && !HasSuffix(name, ".age")
    ensures HasSuffix(name, ".bck.gz") ==> !HasSuffix(name, ".age")
  {
    if HasSuffix(name, ".db") { EndOfSuffix(name, ".db"); }
    if HasSuffix(name, ".bck.gz") { EndOfSuffix(name, ".bck.gz"); }
    if HasSuffix(name, ".age") { EndOfSuffix(name, ".age"); }
  }

  /** Adding and trimming `.age`. */
  lemma AgeName(name: string)
    ensures HasSuffix(name + ".age", ".age") && Decrypt.OutName(name + ".age") == name
    ensures !HasSuffix(name + ".age", ".db") && !HasSuffix(name + ".age", ".bck.gz")
  {
    var s := name + ".age";
    assert s[|s| - 4..] == ".age" && s[..|s| - 4] == name;
    EndsApart(s);
  }

  /** What the suffixes of the three names say about the record. */
  lemma NamesOfRecord(r: Record)
    requires GoodRecord(r)
    ensures HasSuffix(Name1(r), ".age") <==> r.encrypted
    ensures r.encrypted ==> Decrypt.OutName(Name1(r)) == Name2(r)
    ensures !r.encrypted ==> Name1(r) == Name2(r)
    ensures !HasSuffix(Name2(r), ".age")
    ensures HasSuffix(Name2(r), ".bck.gz") <==> r.content.Gz?
    ensures r.encrypted ==> !HasSuffix(Name1(r), ".bck.gz") && !HasSuffix(Name1(r), ".db")
    ensures r.content.Gz? ==> Gunzip.OutName(Name2(r)) == Name3(r) && !HasSuffix(Name2(r), ".db")
    ensures !r.content.Gz? ==> Name2(r) == Name3(r)
    ensures HasSuffix(Name3(r), ".db") && !HasSuffix(Name3(r), ".bck.gz")
  {
    hide Pad, DestPrefix, HasSuffix, GoodSegment, TrimSuffix, TwelveDigits;
    var a := DestPrefix(r.lbl) + (Pad(r.modTime) + "-");
    DestIs(r, r.ObjectName());
    DestIs(r, r.name);
    DestIs(r, PlainName(r.name));
    EndsApart(r.name);
    AgeName(r.name);
    PlainEnds(r.name);
    EndsApart(a + r.name);
    EndsApart(a + PlainName(r.name));
    AgeName(a + r.name);
    assert a + (r.name + ".age") == (a + r.name) + ".age";
    if r.content.Gz? {
      TrimTail(a, r.name, ".bck.gz");
      assert a + (TrimSuffix(r.name, ".bck.gz") + ".db") == (a + TrimSuffix(r.name, ".bck.gz")) + ".db";
      TrimTail(a, PlainName(r.name), ".db");
    } else {
      TrimTail(a, r.name, ".db");
    }
  }

  lemma DestIs(r: Record, name: string)
    ensures DestName(r.lbl, Pad(r.modTime), name) == DestPrefix(r.lbl) + (Pad(r.modTime) + "-") + name
  {
    hide Pad, DestPrefix;
    assert Pad(r.modTime) + "-" + name == (Pad(r.modTime) + "-") + name;
  }

  lemma PlainEnds(name: string)
    requires HasSuffix(name, ".bck.gz") || HasSuffix(name, ".db")
    ensures HasSuffix(PlainName(name), ".db")
  {
    if HasSuffix(name, ".bck.gz") {
      var t := TrimSuffix(name, ".bck.gz");
      assert (t + ".db")[|t|..] == ".db";
    }
  }
}
