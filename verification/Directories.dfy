/** `filepath.Dir`, `Base` and `Join` together: what the directory and the name of a path
    are to its elements. */
module Directories {
  import opened Text
  import opened S3Key
  import opened FileSystem
  import opened FileNames
  import opened Upload
  import opened Recover
  import opened EndToEnd

  /** The path names a plain file: it does not end in a slash, a dot or two dots. */
  predicate NamesFile(p: string) { p != "" && p[|p| - 1] != '/' && GoodSegment(AfterLastSlash(p)) }

  /** Read element by element, the path is the directory and one more name. */
  predicate LiesIn(p: string, dir: string, name: string) {
    Rooted(p) == Rooted(dir) && Elements(p) == Elements(dir) + [name]
  }

  // ---------- the base name ----------

  lemma {:induction false} AfterLast(x: string, b: string)
    requires NoSlash(b)
    ensures AfterLastSlash(b) == b && AfterLastSlash(x + "/" + b) == b
  {
    if b == "" {
      assert x + "/" + b == x + "/";
    } else {
      var init := b[..|b| - 1];
      AfterLast(x, init);
      assert (x + "/" + b)[..|x + "/" + b| - 1] == x + "/" + init;
      assert b == init + [b[|b| - 1]];
    }
  }

  /** The base of a path is what follows its last slash. */
  lemma BaseExactly(x: string, b: string)
    requires NoSlash(b) && b != ""
    ensures Base(b) == b && Base(x + "/" + b) == b && Base("") == "."
  {
    AfterLast(x, b);
    var p := x + "/" + b;
    assert p[|p| - 1] == b[|b| - 1];
  }

  /** Trailing slashes do not count, and a path of slashes only is its own base. */
  lemma {:induction false} BaseOfSlashes(p: string)
    ensures Base(p + "/") == if p == "" then "/" else Base(p)
  {
    assert (p + "/")[..|p|] == p;
  }

  // ---------- cleaning twice ----------

  /** What cleaning leaves: no parent steps from the root, and elsewhere only in front. */
  ghost predicate Normal(rooted: bool, elements: seq<string>) {
    && (forall x | x in elements :: NoSlash(x) && x != "" && x != ".")
    && (if rooted then ".." !in elements else DotsInFront(elements))
  }

  lemma {:induction false} PushAllNormal(cleaned: seq<string>, rooted: bool, segs: seq<string>)
    requires Normal(rooted, cleaned) && forall x | x in segs :: NoSlash(x)
    ensures Normal(rooted, PushAll(cleaned, rooted, segs))
    decreases |segs|
  {
    hide NoSlash;
    if segs != [] {
      PushNormal(cleaned, rooted, segs[0]);
      PushAllNormal(Push(cleaned, rooted, segs[0]), rooted, segs[1..]);
    }
  }

  lemma PushNormal(cleaned: seq<string>, rooted: bool, s: string)
    requires Normal(rooted, cleaned) && NoSlash(s)
    ensures Normal(rooted, Push(cleaned, rooted, s))
  {
    hide NoSlash;
    var r := Push(cleaned, rooted, s);
    assert forall x | x in r :: x in cleaned || x == s;
    if rooted { assert ".." !in r; } else { assert DotsInFront(r); }
  }

  lemma {:induction false} NormalStays(done: seq<string>, rooted: bool, rest: seq<string>)
    requires Normal(rooted, done + rest)
    ensures PushAll(done, rooted, rest) == done + rest
    decreases |rest|
  {
    if rest == [] {
      assert done + rest == done;
    } else {
      PushLastNormal(done, rooted, rest);
      assert done + [rest[0]] + rest[1..] == done + rest;
      NormalStays(done + [rest[0]], rooted, rest[1..]);
    }
  }

  lemma PushLastNormal(done: seq<string>, rooted: bool, rest: seq<string>)
    requires rest != [] && Normal(rooted, done + rest)
    ensures Push(done, rooted, rest[0]) == done + [rest[0]]
  {
    var all := done + rest;
    assert all[|done|] == rest[0] && rest[0] in all;
    if done != [] { assert all[|done| - 1] == done[|done| - 1]; }
  }

  /** The text of normal elements has those elements. */
  lemma WrittenElements(rooted: bool, elements: seq<string>)
    requires elements != [] && Normal(rooted, elements)
    ensures Rooted(Written(rooted, elements)) == rooted && Elements(Written(rooted, elements)) == elements
  {
    hide Split, Join, NoSlash;
    assert elements[0] in elements;
    JoinStarts(elements);
    SplitOfJoin(elements);
    var text := Written(rooted, elements);
    if rooted {
      assert text[1..] == Join(elements);
      SplitHead(text);
      SplitHasRoot(elements);
    } else {
      assert text == Join(elements);
    }
    NormalStays([], rooted, elements);
    assert [] + elements == elements;
  }

  lemma SplitHasRoot(elements: seq<string>)
    ensures PushAll([], true, [""] + elements) == PushAll([], true, elements)
  {
    assert ([""] + elements)[1..] == elements;
  }

  lemma ElementsAreNormal(p: string)
    ensures Normal(Rooted(p), Elements(p))
  {
    hide Split;
    PushAllNormal([], Rooted(p), Split(p));
  }

  /** Cleaning keeps the elements of a path and where it starts. */
  lemma CleanKeeps(p: string)
    ensures Rooted(Clean(p)) == Rooted(p) && Elements(Clean(p)) == Elements(p)
  {
    hide Split, PushAll, Join, Clean;
    CleanText(p);
    ElementsAreNormal(p);
    if Elements(p) != [] {
      WrittenElements(Rooted(p), Elements(p));
    } else {
      RootAndDot();
    }
  }

  lemma RootAndDot()
    ensures Elements("/") == [] && Elements(".") == []
  {
    DotElements();
    assert "/"[1..] == "" && Split("") == [""] && Split("/") == ["", ""];
    assert ["", ""][1..] == [""] && [""][1..] == [] && ["."][1..] == [];
  }

  // ---------- what a path means ----------

  /** One element of a path, followed from the directory `at`; the root is its own parent. */
  function Follow(at: seq<string>, s: string): seq<string> {
    if s == "" || s == "." then at
    else if s == ".." then (if at == [] then [] else at[..|at| - 1])
    else at + [s]
  }

  function Walk(at: seq<string>, segs: seq<string>): seq<string>
    decreases |segs|
  {
    if segs == [] then at else Walk(Follow(at, segs[0]), segs[1..])
  }

  /** Where the path leads from the working directory, if no name is a symbolic link. */
  function Resolved(cwd: seq<string>, p: string): seq<string> { Walk(if Rooted(p) then [] else cwd, Split(p)) }

  lemma {:induction false} WalkAppend(at: seq<string>, a: seq<string>, b: seq<string>)
    ensures Walk(at, a + b) == Walk(Walk(at, a), b)
    decreases |a|
  {
    if a == [] {
      assert a + b == b;
    } else {
      assert (a + b)[1..] == a[1..] + b;
      WalkAppend(Follow(at, a[0]), a[1..], b);
    }
  }

  lemma WalkOne(at: seq<string>, done: seq<string>, s: string)
    ensures Walk(at, done + [s]) == Follow(Walk(at, done), s)
  {
    WalkAppend(at, done, [s]);
    assert [s][1..] == [];
  }

  lemma PushMeans(at: seq<string>, rooted: bool, done: seq<string>, s: string)
    requires Normal(rooted, done) && (rooted ==> at == [])
    ensures Walk(at, Push(done, rooted, s)) == Follow(Walk(at, done), s)
  {
    hide NoSlash, Walk;
    WalkOne(at, done, s);
    if s == ".." && done != [] && done[|done| - 1] != ".." {
      var front, last := done[..|done| - 1], done[|done| - 1];
      assert done == front + [last] && last in done;
      WalkOne(at, front, last);
    } else if s == ".." && rooted {
      NoSteps();
    }
  }

  lemma NoSteps()
    ensures Walk([], []) == []
  {
  }

  lemma {:induction false} PushAllMeans(at: seq<string>, rooted: bool, done: seq<string>, segs: seq<string>)
    requires Normal(rooted, done) && (rooted ==> at == []) && forall x | x in segs :: NoSlash(x)
    ensures Walk(at, PushAll(done, rooted, segs)) == Walk(Walk(at, done), segs)
    decreases |segs|
  {
    hide NoSlash, Normal, Push, Follow;
    if segs != [] {
      PushMeans(at, rooted, done, segs[0]);
      PushNormal(done, rooted, segs[0]);
      PushAllMeans(at, rooted, Push(done, rooted, segs[0]), segs[1..]);
    }
  }

  /** The elements of a path lead where the path leads. */
  lemma ElementsMean(cwd: seq<string>, p: string)
    ensures Resolved(cwd, p) == Walk(if Rooted(p) then [] else cwd, Elements(p))
  {
    hide Split, PushAll, Walk;
    var at := if Rooted(p) then [] else cwd;
    PushAllMeans(at, Rooted(p), [], Split(p));
    assert Walk(at, []) == at by { WalkNothing(at); }
  }

  lemma WalkNothing(at: seq<string>)
    ensures Walk(at, []) == at
  {
  }

  /** Cleaning keeps where a path leads, from every working directory. */
  lemma CleanMeans(cwd: seq<string>, p: string)
    ensures Resolved(cwd, Clean(p)) == Resolved(cwd, p)
  {
    hide Clean, Walk, Resolved, Elements, Rooted;
    CleanKeeps(p);
    ElementsMean(cwd, p);
    ElementsMean(cwd, Clean(p));
  }

  /** A path that lies in a directory leads to that name in it. */
  lemma LiesInMeans(cwd: seq<string>, p: string, dir: string, name: string)
    requires LiesIn(p, dir, name) && GoodSegment(name)
    ensures Resolved(cwd, p) == Resolved(cwd, dir) + [name]
  {
    hide Walk, Resolved, Elements, Rooted;
    ElementsMean(cwd, p);
    ElementsMean(cwd, dir);
    WalkOne(if Rooted(p) then [] else cwd, Elements(dir), name);
  }

  // ---------- directory and name of a file ----------

  lemma {:induction false} LastSlash(p: string)
    ensures p == ThroughLastSlash(p) + AfterLastSlash(p)
    ensures ThroughLastSlash(p) != "" ==> ThroughLastSlash(p)[|ThroughLastSlash(p)| - 1] == '/'
  {
    if p != "" && p[|p| - 1] != '/' { LastSlash(p[..|p| - 1]); }
  }

  /** A path of a plain file is its directory and its base name. */
  lemma DirAndBase(p: string)
    requires NamesFile(p)
    ensures LiesIn(p, Dir(p), Base(p)) && Base(p) == AfterLastSlash(p)
  {
    hide Split, PushAll, Clean, AfterLastSlash, ThroughLastSlash;
    LastSlash(p);
    var head, name := ThroughLastSlash(p), AfterLastSlash(p);
    CleanKeeps(head);
    assert NoSlash(name);
    SplitOfSegment(name, "");
    PushLast(Elements(head), Rooted(head), name);
    if head == "" {
      NoElements(p, name);
    } else {
      var h := head[..|head| - 1];
      assert head == h + "/" + "" && p == h + "/" + name;
      ElementsOfTail(h, "");
      ElementsOfTail(h, name);
      NothingPushed(PushAll([], Rooted(p), Split(h)), Rooted(p));
      PushLast(PushAll([], Rooted(p), Split(h)), Rooted(p), name);
    }
  }

  lemma NothingPushed(elements: seq<string>, rooted: bool)
    ensures PushAll(elements, rooted, [""]) == elements
  {
    assert [""][1..] == [];
  }

  lemma NoElements(p: string, name: string)
    requires p == name && GoodSegment(name)
    ensures !Rooted(p) && !Rooted("") && Elements("") == [] && Elements(p) == [name]
  {
    SplitOfSegment(name, "");
    NothingPushed([], false);
    PushLast([], false, name);
  }

  lemma ElementsOfTail(h: string, name: string)
    requires NoSlash(name)
    ensures var p := h + "/" + name;
            Elements(p) == PushAll(PushAll([], Rooted(p), Split(h)), Rooted(p), [name])
  {
    hide Split, PushAll;
    SplitAppend(h, name);
    SplitOfSegment(name, "");
    PushAllAppend([], Rooted(h + "/" + name), Split(h), [name]);
  }

  /** Joining a directory and a name gives a path with that directory and that name. */
  lemma JoinedFile(dir: string, name: string)
    requires dir != "" && GoodSegment(name)
    ensures var p := PathJoin([dir, name]);
            NamesFile(p) && LiesIn(p, dir, name) && Base(p) == name
  {
    hide Split, PushAll, Join, PathJoin, NoSlash;
    var p, elements := Path(dir, name), Elements(dir) + [name];
    FullPathText(p);
    ElementsAreNormal(dir);
    assert Normal(Rooted(dir), elements);
    WrittenElements(Rooted(dir), elements);
    var x := TextEnds(Rooted(dir), Elements(dir), name);
    BaseExactly(x, name);
    AfterLast(x, name);
    NamesHaveNoSlash(name);
  }

  lemma TextEnds(rooted: bool, elements: seq<string>, name: string) returns (x: string)
    ensures var text := Written(rooted, elements + [name]);
            text == name || text == x + "/" + name
  {
    if elements != [] {
      JoinAppend(elements, [name]);
      x := (if rooted then "/" else "") + Join(elements);
    } else {
      assert elements + [name] == [name];
      x := "";
    }
  }

  // ---------- where a file is uploaded from and restored to ----------

  /** Regular files have the paths of plain files, and listings name single elements. */
  ghost predicate PlainSource(src: Source) {
    && (forall p | p in src.files :: NamesFile(p))
    && forall dir, i | dir in src.dirs && i in src.dirs[dir] :: GoodSegment(i.name)
  }

  /** A file selected by prefix has the prefix's elements, except that its last one may go
      on after the prefix's last one. */
  lemma SelectedByPrefix(e: UploadEntry, src: Source)
    requires PlainSource(src) && SelectFile(e, src).Some? && e.path == "" && NamesFile(e.pathPrefix)
    ensures var (p, q) := (SelectFile(e, src).value.0, e.pathPrefix);
            && Rooted(p) == Rooted(q) && |Elements(p)| == |Elements(q)| > 0
            && var n := |Elements(q)| - 1;
               Elements(p)[..n] == Elements(q)[..n] && HasPrefix(Elements(p)[n], Elements(q)[n])
  {
    hide Elements, Dir, Clean, HasPrefix, Rooted, Base, SelectFile, NamesFile;
    var (p, q) := (SelectFile(e, src).value.0, e.pathPrefix);
    var dir := Dir(q);
    SelectionExactly(e, src);
    DirNotEmpty(q);
    var i :| i in src.dirs[dir] && HasPrefix(i.name, Base(q)) && p == PathJoin([dir, i.name]);
    JoinedFile(dir, i.name);
    DirAndBase(q);
    var n := |Elements(dir)|;
    assert Elements(p)[..n] == Elements(dir) == Elements(q)[..n];
  }

  lemma DirNotEmpty(p: string)
    ensures Dir(p) != ""
  {
  }

  /** The directory that recovery uses for an entry is the one its files are uploaded from:
      whatever file the entry selects, its path is that directory and the file's name. */
  lemma SelectedLiesIn(e: UploadEntry, src: Source)
    requires PlainSource(src) && SelectFile(e, src).Some?
    ensures var p := SelectFile(e, src).value.0;
            NamesFile(p) && LiesIn(p, DestDir(e), Base(p))
  {
    hide Elements, Dir, Clean, HasPrefix, Rooted, Base, SelectFile, NamesFile;
    SelectionExactly(e, src);
    var p := SelectFile(e, src).value.0;
    if e.path != "" {
      DirAndBase(p);
    } else {
      var dir := Dir(e.pathPrefix);
      DirNotEmpty(e.pathPrefix);
      var i :| i in src.dirs[dir] && p == PathJoin([dir, i.name]);
      JoinedFile(dir, i.name);
    }
  }

  /** A restored database lies beside the file that the entry uploads: from every working
      directory the file's path leads to its base name in the database's directory. */
  ghost predicate Beside(found: Path, e: UploadEntry, src: Source) {
    PlainSource(src) && SelectFile(e, src).Some? ==>
      var p := SelectFile(e, src).value.0;
      LiesIn(p, found.dir, Base(p))
      && forall cwd: seq<string> :: Resolved(cwd, p) == Resolved(cwd, found.dir) + [Base(p)]
  }

  lemma RestoredInPlace(files: Files, log: seq<Record>, uploads: map<string, UploadEntry>, reachable: set<string>,
                        l: string, found: Path, src: Source)
    requires l in uploads && Restored(files, log, uploads, reachable, l, Some(found))
    ensures Beside(found, uploads[l], src)
  {
    hide DestDir, UploadOf, NewestUpload, SelectFile;
    hide Resolved, Elements, Rooted, Base;
    if PlainSource(src) && SelectFile(uploads[l], src).Some? {
      SelectedLiesIn(uploads[l], src);
      var p := SelectFile(uploads[l], src).value.0;
      DirAndBase(p);
      forall cwd: seq<string>
        ensures Resolved(cwd, p) == Resolved(cwd, found.dir) + [Base(p)]
      {
        LiesInMeans(cwd, p, found.dir, Base(p));
      }
    }
  }
}
