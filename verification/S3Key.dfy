/** Object keys: `path.Join`, `Pad`, `ObjectKey`, `PadAndName`, and why the first key a
    bucket lists under a label is that label's newest backup. */
module S3Key {
  import opened Text
  import opened Calendar

  // ---------- slash-separated paths ----------

  predicate NoSlash(s: string) { '/' !in s }

  /** `strings.Split(s, "/")`. */
  function Split(s: string): (r: seq<string>)
    ensures r != [] && forall i | 0 <= i < |r| :: NoSlash(r[i])
  {
    if s == [] then [""]
    else
      var rest := Split(s[1..]);
      if s[0] == '/' then [""] + rest else [[s[0]] + rest[0]] + rest[1..]
  }

  function Join(segs: seq<string>): string
    requires segs != []
  {
    if |segs| == 1 then segs[0] else segs[0] + "/" + Join(segs[1..])
  }

  lemma {:induction false} SplitOfSegment(a: string, rest: string)
    requires NoSlash(a)
    ensures Split(a) == [a] && Split(a + "/" + rest) == [a] + Split(rest)
  {
    if a == [] {
      assert (a + "/" + rest)[1..] == rest;
    } else {
      assert NoSlash(a[1..]);
      SplitOfSegment(a[1..], rest);
      assert (a + "/" + rest)[1..] == a[1..] + "/" + rest;
      assert a == [a[0]] + a[1..];
    }
  }

  lemma {:induction false} SplitOfJoin(segs: seq<string>)
    requires segs != [] && forall x | x in segs :: NoSlash(x)
    ensures Split(Join(segs)) == segs
  {
    if |segs| == 1 {
      SplitOfSegment(segs[0], "");
    } else {
      SplitOfJoin(segs[1..]);
      SplitOfSegment(segs[0], Join(segs[1..]));
      assert segs == [segs[0]] + segs[1..];
    }
  }

  predicate GoodSegment(s: string) { s != "" && s != "." && s != ".." && NoSlash(s) }

  /** One path element on top of the cleaned ones. */
  function Push(cleaned: seq<string>, rooted: bool, s: string): seq<string> {
    if s == "" || s == "." then cleaned
    else if s != ".." then cleaned + [s]
    else if cleaned != [] && cleaned[|cleaned| - 1] != ".." then cleaned[..|cleaned| - 1]
    else if rooted then cleaned
    else cleaned + [".."]
  }

  function PushAll(cleaned: seq<string>, rooted: bool, segs: seq<string>): seq<string>
    decreases |segs|
  {
    if segs == [] then cleaned else PushAll(Push(cleaned, rooted, segs[0]), rooted, segs[1..])
  }

  /** `path.Clean`. */
  function Clean(p: string): (r: string)
    ensures r != ""
  {
    var rooted := p != "" && p[0] == '/';
    var cleaned := PushAll([], rooted, Split(p));
    var text := if cleaned == [] then "" else Join(cleaned);
    if rooted then "/" + text else if text == "" then "." else text
  }

  function DropEmpty(elems: seq<string>): seq<string> {
    if elems != [] && elems[0] == "" then DropEmpty(elems[1..]) else elems
  }

  /** `path.Join`: leading empty elements are dropped, the rest is joined and cleaned. */
  function PathJoin(elems: seq<string>): string {
    var rest := DropEmpty(elems);
    if rest == [] then "" else Clean(Join(rest))
  }

  // ---------- keys ----------

  const KEY_PREFIX := "backup"
  const MAX_UNIX_TIMESTAMP: int := 253402300799

  /** `t.Unix()`: whole seconds since 1970, rounded down. */
  function Unix(t: Time): int { t / SECOND - 719162 * 86400 }

  /** `%0<w>d` of a number that may be too long. */
  function ZeroPadded(n: nat, w: nat): string {
    if n < Pow10(w) then Digits(n, w) else Decimal(n)
  }

  /** `fmt.Sprintf("%012d", MaxUnixTimestamp-modTime.Unix())`. */
  function Pad(modTime: Time): string {
    var n := MAX_UNIX_TIMESTAMP - Unix(modTime);
    if n < 0 then "-" + ZeroPadded(-n, 11) else ZeroPadded(n, 12)
  }

  function ObjectKey(lbl: string, pad: string, name: string): string {
    PathJoin([KEY_PREFIX, lbl, pad, name])
  }

  /** `objectKeyPrefix`. */
  function ObjectKeyPrefix(lbl: string): string {
    PathJoin([KEY_PREFIX, lbl]) + "/"
  }

  function PadAndName(key: string): Option<(string, string)> {
    var segs := Split(key);
    if |segs| < 2 then None else Some((segs[|segs| - 2], segs[|segs| - 1]))
  }

  // ---------- the key and its parts ----------

  lemma {:induction false} PushAllAppend(cleaned: seq<string>, rooted: bool, a: seq<string>, b: seq<string>)
    ensures PushAll(cleaned, rooted, a + b) == PushAll(PushAll(cleaned, rooted, a), rooted, b)
    decreases |a|
  {
    if a == [] {
      assert a + b == b;
    } else {
      assert (a + b)[1..] == a[1..] + b;
      PushAllAppend(Push(cleaned, rooted, a[0]), rooted, a[1..], b);
    }
  }

  lemma {:induction false} PushAllKeepsSegments(cleaned: seq<string>, rooted: bool, segs: seq<string>)
    requires forall x | x in cleaned || x in segs :: NoSlash(x)
    requires "" !in cleaned && "." !in cleaned
    ensures var r := PushAll(cleaned, rooted, segs);
            (forall x | x in r :: NoSlash(x)) && "" !in r && "." !in r
    decreases |segs|
  {
    if segs != [] {
      PushAllKeepsSegments(Push(cleaned, rooted, segs[0]), rooted, segs[1..]);
    }
  }

  lemma SplitHead(s: string)
    requires s != []
    ensures var rest := Split(s[1..]);
            Split(s) == if s[0] == '/' then [""] + rest else [[s[0]] + rest[0]] + rest[1..]
  {
  }

  /** Splitting a join whose pieces may contain slashes. */
  lemma {:induction false} SplitAppend(a: string, b: string)
    ensures Split(a + "/" + b) == Split(a) + Split(b)
  {
    hide NoSlash, Split;
    var whole := a + "/" + b;
    SplitHead(whole);
    if a == [] {
      assert whole[1..] == b;
      assert Split(a) == [""] by { SplitOfSegment("", ""); }
    } else {
      var tail := Split(a[1..]);
      SplitAppend(a[1..], b);
      SplitHead(a);
      assert whole[1..] == a[1..] + "/" + b && whole[0] == a[0];
      assert (tail + Split(b))[0] == tail[0] && (tail + Split(b))[1..] == tail[1..] + Split(b);
    }
  }

  /** The cleaned segments of a key, one part after the other. */
  function KeySegments(lbl: string, pad: string, name: string): seq<string> {
    PushAll(PushAll(PushAll([KEY_PREFIX], false, Split(lbl)), false, Split(pad)), false, Split(name))
  }

  lemma JoinKey(lbl: string, pad: string, name: string)
    ensures Join([KEY_PREFIX, lbl, pad, name]) == KEY_PREFIX + "/" + (lbl + "/" + (pad + "/" + name))
  {
    assert [KEY_PREFIX, lbl, pad, name][1..] == [lbl, pad, name];
    assert [lbl, pad, name][1..] == [pad, name];
    assert [pad, name][1..] == [name];
    assert Join([name]) == name;
    assert Join([pad, name]) == pad + "/" + name;
    assert Join([lbl, pad, name]) == lbl + "/" + (pad + "/" + name);
  }

  lemma KeySplit(lbl: string, pad: string, name: string)
    ensures Split(Join([KEY_PREFIX, lbl, pad, name])) == [KEY_PREFIX] + Split(lbl) + Split(pad) + Split(name)
  {
    hide Split, Join;
    JoinKey(lbl, pad, name);
    SplitAppend(pad, name);
    SplitAppend(lbl, pad + "/" + name);
    SplitOfSegment(KEY_PREFIX, lbl + "/" + (pad + "/" + name));
    assert [KEY_PREFIX] + (Split(lbl) + (Split(pad) + Split(name))) ==
      [KEY_PREFIX] + Split(lbl) + Split(pad) + Split(name);
  }

  lemma KeyCleans(lbl: string, pad: string, name: string)
    ensures var segs := KeySegments(lbl, pad, name);
            ObjectKey(lbl, pad, name) == if segs == [] || Join(segs) == "" then "." else Join(segs)
    ensures (forall x | x in KeySegments(lbl, pad, name) :: NoSlash(x))
    ensures "" !in KeySegments(lbl, pad, name) && "." !in KeySegments(lbl, pad, name)
  {
    hide Split, PushAll, Join;
    var elems := [KEY_PREFIX, lbl, pad, name];
    KeySplit(lbl, pad, name);
    var a, b, c := Split(lbl), Split(pad), Split(name);
    KeyStarts(elems);
    PushPrefix();
    PushAllAppend([], false, [KEY_PREFIX], a + b + c);
    PushAllAppend([KEY_PREFIX], false, a, b + c);
    PushAllAppend(PushAll([KEY_PREFIX], false, a), false, b, c);
    assert [KEY_PREFIX] + a + b + c == [KEY_PREFIX] + (a + b + c) && a + b + c == a + (b + c);
    PushAllKeepsSegments([KEY_PREFIX], false, a);
    PushAllKeepsSegments(PushAll([KEY_PREFIX], false, a), false, b);
    PushAllKeepsSegments(PushAll(PushAll([KEY_PREFIX], false, a), false, b), false, c);
  }

  lemma KeyStarts(elems: seq<string>)
    requires |elems| > 1 && elems[0] == KEY_PREFIX
    ensures DropEmpty(elems) == elems && Join(elems) != "" && Join(elems)[0] == 'b'
  {
  }

  lemma PushPrefix()
    ensures PushAll([], false, [KEY_PREFIX]) == [KEY_PREFIX]
  {
    assert PushAll([KEY_PREFIX], false, []) == [KEY_PREFIX];
  }

  lemma PushGood(cleaned: seq<string>, s: string)
    requires GoodSegment(s)
    ensures PushAll(cleaned, false, Split(s)) == cleaned + [s]
  {
    SplitOfSegment(s, "");
    assert PushAll(cleaned + [s], false, []) == cleaned + [s];
  }

  lemma KeyPlain(lbl: string, pad: string, name: string)
    requires GoodSegment(lbl) && GoodSegment(pad) && GoodSegment(name)
    ensures ObjectKey(lbl, pad, name) == KEY_PREFIX + "/" + (lbl + "/" + (pad + "/" + name))
  {
    hide Split, PushAll, ObjectKey, Join;
    KeyCleans(lbl, pad, name);
    PushGood([KEY_PREFIX], lbl);
    PushGood([KEY_PREFIX] + [lbl], pad);
    PushGood([KEY_PREFIX] + [lbl] + [pad], name);
    assert KeySegments(lbl, pad, name) == [KEY_PREFIX, lbl, pad, name];
    JoinKey(lbl, pad, name);
  }

  /** For a well-formed label and name the key is the four parts with slashes between. */
  lemma KeyText(lbl: string, pad: string, name: string)
    requires GoodSegment(lbl) && GoodSegment(pad) && GoodSegment(name)
    ensures ObjectKey(lbl, pad, name) == ObjectKeyPrefix(lbl) + pad + "/" + name
    ensures ObjectKeyPrefix(lbl) == "backup/" + lbl + "/"
  {
    hide ObjectKey, ObjectKeyPrefix, GoodSegment;
    KeyPlain(lbl, pad, name);
    PrefixText(lbl);
    assert KEY_PREFIX + "/" == "backup/";
    assert KEY_PREFIX + "/" + (lbl + "/" + (pad + "/" + name)) == ("backup/" + lbl + "/") + pad + "/" + name;
  }

  lemma PrefixText(lbl: string)
    requires GoodSegment(lbl)
    ensures ObjectKeyPrefix(lbl) == "backup/" + lbl + "/"
  {
    hide Split, PushAll, Join, ObjectKeyPrefix;
    PrefixOfFront(lbl);
    PushGood([KEY_PREFIX], lbl);
    assert [KEY_PREFIX] + [lbl] == [KEY_PREFIX, lbl];
    JoinPair(lbl);
  }

  /** The pad and the name come back out of a key exactly when the name is an ordinary
      path segment, whatever the label is. */
  lemma PadAndNameOfKey(lbl: string, pad: string, name: string)
    requires GoodSegment(pad)
    ensures PadAndName(ObjectKey(lbl, pad, name)) == Some((pad, name)) <==> GoodSegment(name)
  {
    hide Split, PushAll, Join, Push;
    var key, segs := ObjectKey(lbl, pad, name), KeySegments(lbl, pad, name);
    var front := PushAll([KEY_PREFIX], false, Split(lbl));
    KeyCleans(lbl, pad, name);
    PushGood(front, pad);
    if GoodSegment(name) {
      PushGood(front + [pad], name);
      assert segs == front + [pad] + [name];
      JoinNotEmpty(segs);
      SplitOfJoin(segs);
    } else {
      KeyParts(segs, key);
      if name == ".." { DotDotName(lbl, pad); }
    }
  }

  /** A name of two dots takes the pad away again. */
  lemma DotDotName(lbl: string, pad: string)
    requires GoodSegment(pad)
    ensures PadAndName(ObjectKey(lbl, pad, "..")) != Some((pad, ".."))
  {
    hide Split, PushAll, Join, Push;
    var front := PushAll([KEY_PREFIX], false, Split(lbl));
    KeyCleans(lbl, pad, "..");
    PushGood(front, pad);
    SplitOfSegment("..", "");
    PopOne(front, pad);
    assert KeySegments(lbl, pad, "..") == front;
    KeyParts(front, ObjectKey(lbl, pad, ".."));
    DotsFirst([KEY_PREFIX], Split(lbl));
  }

  lemma JoinNotEmpty(segs: seq<string>)
    requires segs != [] && "" !in segs
    ensures Join(segs) != ""
  {
  }

  /** A key of at least two segments has exactly the cleaned ones. */
  lemma KeyParts(segs: seq<string>, key: string)
    requires key == if segs == [] || Join(segs) == "" then "." else Join(segs)
    requires (forall x | x in segs :: NoSlash(x)) && "" !in segs
    ensures |Split(key)| >= 2 ==> segs == Split(key)
  {
    SplitOfSegment(".", "");
    if segs != [] { SplitOfJoin(segs); }
  }

  lemma PopOne(front: seq<string>, pad: string)
    requires GoodSegment(pad)
    ensures PushAll(front + [pad], false, [".."]) == front
  {
    assert Push(front + [pad], false, "..") == front;
    assert PushAll(front, false, []) == front;
  }

  /** In a cleaned relative path nothing but `..` comes before a `..`. */
  ghost predicate DotsInFront(cleaned: seq<string>) {
    forall i | 0 < i < |cleaned| && cleaned[i] == ".." :: cleaned[i - 1] == ".."
  }

  lemma {:induction false} DotsFirst(cleaned: seq<string>, segs: seq<string>)
    requires DotsInFront(cleaned)
    ensures DotsInFront(PushAll(cleaned, false, segs))
    decreases |segs|
  {
    if segs != [] {
      assert DotsInFront(Push(cleaned, false, segs[0]));
      DotsFirst(Push(cleaned, false, segs[0]), segs[1..]);
    }
  }

  /** What cleaning leaves of the prefix and the label before the pad. */
  function Front(lbl: string): seq<string> { PushAll([KEY_PREFIX], false, Split(lbl)) }

  /** For any label at all, the key is the cleaned front, the pad and the name. */
  lemma KeyOfFront(lbl: string, pad: string, name: string)
    requires GoodSegment(pad) && GoodSegment(name)
    ensures var segs := Front(lbl) + [pad, name];
            ObjectKey(lbl, pad, name) == Join(segs) && Split(Join(segs)) == segs
    ensures forall x | x in Front(lbl) :: NoSlash(x)
    ensures "" !in Front(lbl) && "." !in Front(lbl)
  {
    hide Split, PushAll, Join, Push;
    var front := Front(lbl);
    KeyCleans(lbl, pad, name);
    PushGood(front, pad);
    PushGood(front + [pad], name);
    assert front + [pad] + [name] == front + [pad, name];
    assert KeySegments(lbl, pad, name) == front + [pad, name];
    JoinNotEmpty(front + [pad, name]);
    SplitOfJoin(front + [pad, name]);
    assert forall x | x in front :: x in front + [pad, name];
  }

  /** A text has a directory prefix exactly when its segments start with the directory's. */
  lemma PrefixBySegments(dir: seq<string>, segs: seq<string>)
    requires dir != [] && (forall x | x in dir || x in segs :: NoSlash(x)) && segs != []
    ensures HasPrefix(Join(segs), Join(dir) + "/") <==> |dir| < |segs| && segs[..|dir|] == dir
  {
    hide Split, NoSlash, Join;
    var s, p := Join(segs), Join(dir) + "/";
    SplitOfJoin(segs);
    SplitOfJoin(dir);
    if HasPrefix(s, p) {
      var rest := s[|p|..];
      assert s == Join(dir) + "/" + rest;
      SplitAppend(Join(dir), rest);
      assert segs == dir + Split(rest);
    }
    if |dir| < |segs| && segs[..|dir|] == dir {
      var rest := segs[|dir|..];
      assert segs == dir + rest;
      JoinAppend(dir, rest);
      assert s[..|p|] == p;
    }
  }

  lemma {:induction false} JoinAppend(a: seq<string>, b: seq<string>)
    requires a != [] && b != []
    ensures Join(a + b) == Join(a) + "/" + Join(b)
  {
    if |a| == 1 {
      assert (a + b)[1..] == b;
    } else {
      assert (a + b)[1..] == a[1..] + b;
      JoinAppend(a[1..], b);
      assert a[0] + "/" + (Join(a[1..]) + "/" + Join(b)) == a[0] + "/" + Join(a[1..]) + "/" + Join(b);
    }
  }

  /** The prefix that recovery lists for a label, for any label. */
  lemma PrefixOfFront(lbl: string)
    ensures ObjectKeyPrefix(lbl) == if Front(lbl) == [] then "./" else Join(Front(lbl)) + "/"
  {
    hide Split, PushAll, Join;
    var elems := [KEY_PREFIX, lbl];
    KeyStarts(elems);
    JoinPair(lbl);
    SplitOfSegment(KEY_PREFIX, lbl);
    PushPrefix();
    PushAllAppend([], false, [KEY_PREFIX], Split(lbl));
    PushAllKeepsSegments([KEY_PREFIX], false, Split(lbl));
    if Front(lbl) != [] { JoinNotEmpty(Front(lbl)); }
  }

  lemma JoinPair(lbl: string)
    ensures Join([KEY_PREFIX, lbl]) == KEY_PREFIX + "/" + lbl
  {
    assert [KEY_PREFIX, lbl][1..] == [lbl];
  }

  /** Which labels keep their keys under `backup/`, and under the prefix that recovery
      lists: the code checks neither. (No pad reads `backup`.) */
  lemma LabelKeepsPrefix(lbl: string, pad: string, name: string)
    requires GoodSegment(pad) && GoodSegment(name) && pad != KEY_PREFIX
    ensures HasPrefix(ObjectKey(lbl, pad, name), "backup/") <==> Front(lbl) != [] && Front(lbl)[0] == KEY_PREFIX
    ensures HasPrefix(ObjectKey(lbl, pad, name), ObjectKeyPrefix(lbl)) <==> Front(lbl) != []
  {
    hide Split, PushAll, Join, Push, ObjectKey, ObjectKeyPrefix, Front, HasPrefix, NoSlash;
    var front := Front(lbl);
    var segs := front + [pad, name];
    KeyOfFront(lbl, pad, name);
    PrefixOfFront(lbl);
    assert Join([KEY_PREFIX]) + "/" == "backup/" by { JoinOne(KEY_PREFIX); }
    SegmentsHaveNoSlash(front, pad, name);
    PrefixBySegments([KEY_PREFIX], segs);
    assert segs[..1] == [segs[0]];
    if front == [] {
      NoFrontNoPrefix(lbl, pad, name);
    } else {
      PrefixBySegments(front, segs);
      assert segs[..|front|] == front;
    }
  }

  lemma NoFrontNoPrefix(lbl: string, pad: string, name: string)
    requires GoodSegment(pad) && GoodSegment(name) && Front(lbl) == []
    ensures !HasPrefix(ObjectKey(lbl, pad, name), ObjectKeyPrefix(lbl))
  {
    hide Split, PushAll, Join, Push, ObjectKey, ObjectKeyPrefix, Front, HasPrefix, NoSlash;
    var segs := [] + [pad, name];
    KeyOfFront(lbl, pad, name);
    PrefixOfFront(lbl);
    SegmentsHaveNoSlash([], pad, name);
    DotHasNoSlash();
    JoinOne(".");
    PrefixBySegments(["."], segs);
    assert "." + "/" == "./";
    assert segs[..1][0] == pad && pad != ".";
  }

  lemma SegmentsHaveNoSlash(front: seq<string>, pad: string, name: string)
    requires (forall x | x in front :: NoSlash(x)) && GoodSegment(pad) && GoodSegment(name)
    ensures forall x | x in front + [pad, name] || x in front || x in [KEY_PREFIX] :: NoSlash(x)
  {
  }

  lemma DotHasNoSlash()
    ensures forall x | x in ["."] :: NoSlash(x)
  {
  }

  lemma JoinOne(x: string)
    ensures Join([x]) == x
  {
  }

  /** The shortest label that leaves the prefix: recovery then lists "./" and finds nothing. */
  lemma DotLabelEscapes(pad: string, name: string)
    requires GoodSegment(pad) && GoodSegment(name)
    ensures ObjectKey("..", pad, name) == pad + "/" + name
    ensures !HasPrefix(ObjectKey("..", pad, name), ObjectKeyPrefix(".."))
  {
    hide Split, PushAll, Join;
    SplitOfSegment("..", "");
    PopOne([], KEY_PREFIX);
    assert [] + [KEY_PREFIX] == [KEY_PREFIX];
    assert Front("..") == [];
    KeyOfFront("..", pad, name);
    NoFrontNoPrefix("..", pad, name);
    assert [] + [pad, name] == [pad, name];
    JoinTwoSegments(pad, name);
  }

  lemma JoinTwoSegments(a: string, b: string)
    ensures Join([a, b]) == a + "/" + b
  {
    assert [a, b][1..] == [b];
  }

  // ---------- the order of a listing ----------

  /** Modification times whose pad has twelve digits. */
  predicate TwelveDigits(t: Time) {
    0 <= MAX_UNIX_TIMESTAMP - Unix(t) < 1_000_000_000_000
  }

  lemma PadShape(t: Time)
    requires TwelveDigits(t)
    ensures Pad(t) == Digits(MAX_UNIX_TIMESTAMP - Unix(t), 12) && |Pad(t)| == 12 && GoodSegment(Pad(t))
  {
    hide Digits, Pow10;
    Powers();
    assert Pad(t)[0] != '.';
  }

  /** A later second gives a smaller pad. */
  lemma LaterPadFirst(t: Time, u: Time)
    requires TwelveDigits(t) && TwelveDigits(u) && Unix(t) < Unix(u)
    ensures LexLess(Pad(u), Pad(t))
  {
    hide Digits, Pow10, LexLess;
    Powers();
    PadShape(t);
    PadShape(u);
    DigitsOrdered(MAX_UNIX_TIMESTAMP - Unix(u), MAX_UNIX_TIMESTAMP - Unix(t), 12);
  }

  /** Equal pads mean the same second. */
  lemma PadDecides(t: Time, u: Time)
    requires TwelveDigits(t) && TwelveDigits(u) && Pad(t) == Pad(u)
    ensures Unix(t) == Unix(u)
  {
    hide LexLess, Pad;
    LexIrreflexive(Pad(t));
    if Unix(t) < Unix(u) { LaterPadFirst(t, u); }
    if Unix(u) < Unix(t) { LaterPadFirst(u, t); }
  }

  /** `ListObjects` with MaxKeys 1: the first matching key in byte order. */
  ghost predicate FirstKey(keys: set<string>, prefix: string, key: string) {
    && key in keys && HasPrefix(key, prefix)
    && forall k | k in keys && HasPrefix(k, prefix) && k != key :: LexLess(key, k)
  }

  lemma FirstKeyUnique(keys: set<string>, prefix: string, a: string, b: string)
    requires FirstKey(keys, prefix, a) && FirstKey(keys, prefix, b)
    ensures a == b
  {
    hide LexLess;
    if a != b {
      LexTransitive(a, b, a);
      LexIrreflexive(a);
    }
  }

  lemma {:induction false} FirstKeyExists(keys: set<string>, prefix: string, some: string) returns (key: string)
    requires some in keys && HasPrefix(some, prefix)
    ensures FirstKey(keys, prefix, key)
    decreases |keys|
  {
    hide LexLess, HasPrefix;
    var rest := keys - {some};
    if k :| k in rest && HasPrefix(k, prefix) {
      var r := FirstKeyExists(rest, prefix, k);
      LexTotal(some, r);
      if LexLess(some, r) {
        key := some;
        forall x | x in keys && HasPrefix(x, prefix) && x != key
          ensures LexLess(key, x)
        {
          if x != r { LexTransitive(key, r, x); }
        }
      } else {
        key := r;
      }
    } else {
      key := some;
    }
  }

  /** An exact key that is in the bucket is the first key listed under itself. */
  lemma ExactKeyIsFirst(keys: set<string>, key: string)
    requires key in keys
    ensures FirstKey(keys, key, key)
  {
    hide LexLess;
    assert key[..|key|] == key;
    forall k | k in keys && HasPrefix(k, key) && k != key
      ensures LexLess(key, k)
    {
      LexPrefixFirst(key, k);
    }
  }

  /** The label prefix belongs to one label: its closing slash keeps longer labels out. */
  lemma PrefixIsolatesLabel(lbl: string, other: string, pad: string, name: string)
    requires GoodSegment(lbl) && GoodSegment(other) && GoodSegment(pad) && GoodSegment(name)
    requires HasPrefix(ObjectKey(other, pad, name), ObjectKeyPrefix(lbl))
    ensures lbl == other
  {
    hide Split, PushAll, ObjectKey, ObjectKeyPrefix, NoSlash;
    KeyText(other, pad, name);
    PrefixText(lbl);
    PrefixText(other);
    var a, b := "backup/" + lbl + "/", "backup/" + other + "/" + pad + "/" + name;
    var rest := b[|a|..];
    assert b == a + rest;
    assert lbl + "/" + rest == b[7..];
    assert other + "/" + (pad + "/" + name) == b[7..];
    SplitOfSegment(lbl, rest);
    SplitOfSegment(other, pad + "/" + name);
    assert [lbl] + Split(rest) == [other] + Split(pad + "/" + name);
    assert ([lbl] + Split(rest))[0] == ([other] + Split(pad + "/" + name))[0];
  }

  /** Under one label, keys sort newest second first. */
  lemma NewerKeyFirst(lbl: string, t: Time, u: Time, n: string, m: string)
    requires GoodSegment(lbl) && GoodSegment(n) && GoodSegment(m) && TwelveDigits(t) && TwelveDigits(u)
    requires Unix(t) < Unix(u)
    ensures LexLess(ObjectKey(lbl, Pad(u), m), ObjectKey(lbl, Pad(t), n))
  {
    hide Split, PushAll, ObjectKey, ObjectKeyPrefix, LexLess, Pad, NoSlash;
    PadShape(t);
    PadShape(u);
    KeyText(lbl, Pad(t), n);
    KeyText(lbl, Pad(u), m);
    LaterPadFirst(t, u);
    LexExtend(Pad(u), Pad(t), "/" + m, "/" + n);
    LexCommonPrefix(ObjectKeyPrefix(lbl), Pad(u) + ("/" + m), Pad(t) + ("/" + n));
    assert ObjectKey(lbl, Pad(u), m) == ObjectKeyPrefix(lbl) + (Pad(u) + ("/" + m));
    assert ObjectKey(lbl, Pad(t), n) == ObjectKeyPrefix(lbl) + (Pad(t) + ("/" + n));
  }

  lemma KeyHasPrefix(lbl: string, pad: string, name: string)
    requires GoodSegment(lbl) && GoodSegment(pad) && GoodSegment(name)
    ensures HasPrefix(ObjectKey(lbl, pad, name), ObjectKeyPrefix(lbl))
  {
    hide Split, PushAll, ObjectKey, ObjectKeyPrefix, NoSlash;
    KeyText(lbl, pad, name);
  }

  /** The three parts of a well-formed key are read off it. */
  lemma KeyInjective(lbl: string, pad: string, name: string, lbl': string, pad': string, name': string)
    requires GoodSegment(lbl) && GoodSegment(pad) && GoodSegment(name)
    requires GoodSegment(lbl') && GoodSegment(pad') && GoodSegment(name')
    requires ObjectKey(lbl, pad, name) == ObjectKey(lbl', pad', name')
    ensures lbl == lbl' && pad == pad' && name == name'
  {
    hide Split, PushAll, ObjectKey, ObjectKeyPrefix, NoSlash;
    KeyHasPrefix(lbl, pad, name);
    PrefixIsolatesLabel(lbl, lbl', pad', name');
    PadAndNameOfKey(lbl, pad, name);
    PadAndNameOfKey(lbl', pad', name');
  }
}
