/** A file system as names, inodes and contents, with the atomic steps of POSIX.1-2024
    `open(O_CREAT|O_TRUNC)`, `unlink`, `link` and `rename`. */
module FileSystem {
  import opened Text
  import opened Calendar
  import opened BackupName
  import opened NameSpace

  datatype Path = Path(dir: string, name: string)

  /** The IDs configured for each directory. */
  type Dirs = string -> Ids

  ghost predicate GoodDirs(ids: Dirs) { forall dir :: GoodIds(ids(dir)) }

  /** What a file holds: bytes that are not known to be anything (`Partial`), a whole
      database snapshot of one backup ID taken at `at`, or the gzip stream of a content. */
  datatype Content = Partial | Snapshot(id: string, at: Time) | Gzip(inner: Content)

  /** Inodes are named by the path that created them and a generation number, so that
      the inode a path gets does not depend on what happens to other paths. */
  datatype Inode = Inode(born: Path, gen: nat)

  datatype Disk = Disk(names: map<Path, Inode>, data: map<Inode, Content>, gens: map<Path, nat>) {
    function Gen(p: Path): nat { if p in gens then gens[p] else 0 }

    predicate WF() {
      && (forall p | p in names :: names[p] in data)
      && (forall i | i in data :: i.gen < Gen(i.born))
    }

    /** The inode and content a path resolves to. */
    function At(p: Path): Option<(Inode, Content)> {
      if p in names && names[p] in data then Some((names[p], data[names[p]])) else None
    }

    /** What reading the file at `p` gives. */
    function Read(p: Path): Option<Content> {
      if p in names && names[p] in data then Some(data[names[p]]) else None
    }
  }

  /** Create the file, or truncate the one that is there. */
  function Open(d: Disk, p: Path): Disk {
    if p in d.names then d.(data := d.data[d.names[p] := Partial])
    else
      var i := Inode(p, d.Gen(p));
      Disk(d.names[p := i], d.data[i := Partial], d.gens[p := d.Gen(p) + 1])
  }

  /** Write through the name; the content of the inode changes in place. */
  function Write(d: Disk, p: Path, c: Content): Disk
    requires p in d.names
  {
    d.(data := d.data[d.names[p] := c])
  }

  function Remove(d: Disk, p: Path): Disk {
    d.(names := map q | q in d.names && q != p :: d.names[q])
  }

  /** `link` never replaces an existing name. */
  function Link(d: Disk, src: Path, dst: Path): (r: (Disk, bool)) {
    if src in d.names && dst !in d.names then (d.(names := d.names[dst := d.names[src]]), true)
    else (d, false)
  }

  /** `rename` replaces the target; when both names are the same inode it does nothing
      and still succeeds. */
  function Rename(d: Disk, src: Path, dst: Path): (r: (Disk, bool)) {
    if src !in d.names then (d, false)
    else if dst in d.names && d.names[dst] == d.names[src] then (d, true)
    else (d.(names := (map q | q in d.names && q != src :: d.names[q])[dst := d.names[src]]), true)
  }

  /** What the steps of POSIX do to one name: opening and writing keep the inode of a file
      that is there, a new file gets an inode that no name has had, `link` gives the same
      inode a second name and never replaces one, `rename` replaces the target. */
  lemma StepsOfPosix(d: Disk, p: Path, q: Path, c: Content)
    requires d.WF() && p != q
    ensures var e := Open(d, p);
            && e.Read(p) == Some(Partial)
            && (p in d.names ==> e.names == d.names)
            && (p !in d.names ==> p in e.names && e.names[p] !in d.data)
    ensures p in d.names ==> Write(d, p, c).names == d.names && Write(d, p, c).Read(p) == Some(c)
    ensures p !in Remove(d, p).names && Remove(d, p).At(q) == d.At(q)
    ensures Link(d, p, q).1 <==> p in d.names && q !in d.names
    ensures Link(d, p, q).1 ==> Link(d, p, q).0.At(q) == d.At(p) && Link(d, p, q).0.At(p) == d.At(p)
    ensures Rename(d, p, q).1 <==> p in d.names
    ensures Rename(d, p, q).1 ==> Rename(d, p, q).0.At(q) == d.At(p)
    ensures p in Rename(d, p, q).0.names <==> p in d.names && d.At(p) == d.At(q)
  {
  }

  // ---------- what every state must satisfy ----------

  /** The content a snapshot's name promises. */
  function Complete(f: BackupFile): Content {
    if f.compressed then Gzip(Snapshot(f.id, f.time)) else Snapshot(f.id, f.time)
  }

  ghost predicate SnapshotsComplete(d: Disk, ids: Dirs) {
    forall p | p in d.names && Accepted(p.name, ids(p.dir)) ::
      d.Read(p) == Some(Complete(Parse(p.name).value))
  }

  ghost predicate IsSnapshotOf(c: Option<Content>, id: string) {
    c.Some? && c.value.Snapshot? && c.value.id == id
  }

  ghost predicate LinksResolve(d: Disk, ids: Dirs) {
    forall p | p in d.names && IsLatest(p.name, ids(p.dir)) ::
      IsSnapshotOf(d.Read(p), p.name[|LATEST|..])
  }

  /** Two names share an inode only when both are snapshots or links, never when one of
      them is a staging file that a copy writes in place. */
  ghost predicate StagingPrivate(d: Disk, ids: Dirs) {
    forall p, q | p in d.names && q in d.names && d.names[p] == d.names[q] && p != q ::
      Linkable(p.name, ids(p.dir)) && Linkable(q.name, ids(q.dir))
  }

  ghost predicate Safe(d: Disk, ids: Dirs) {
    && d.WF()
    && SnapshotsComplete(d, ids)
    && LinksResolve(d, ids)
    && StagingPrivate(d, ids)
  }

  // ---------- which names a step can change ----------

  predicate SameAt(d: Disk, e: Disk, p: Path) {
    d.At(p) == e.At(p) && d.Gen(p) == e.Gen(p)
  }

  ghost predicate SameOutside(d: Disk, e: Disk, ps: set<Path>) {
    forall p | p !in ps :: SameAt(d, e, p)
  }

  lemma SameOutsideTrans(d: Disk, e: Disk, f: Disk, ps: set<Path>)
    requires SameOutside(d, e, ps) && SameOutside(e, f, ps)
    ensures SameOutside(d, f, ps)
  {
    forall p | p !in ps
      ensures SameAt(d, f, p)
    {
      assert SameAt(d, e, p) && SameAt(e, f, p);
    }
  }

  // ---------- each step keeps the state safe ----------

  lemma OpenWF(d: Disk, p: Path)
    requires d.WF()
    ensures Open(d, p).WF()
    ensures p !in d.names ==> forall q | q in d.names :: d.names[q] != Inode(p, d.Gen(p))
  {
  }

  /** A write through a name nobody shares is seen at that name only. */
  lemma OpenFrame(d: Disk, p: Path)
    requires d.WF()
    requires p in d.names ==> forall q | q != p && q in d.names :: d.names[q] != d.names[p]
    ensures SameOutside(d, Open(d, p), {p})
  {
    OpenWF(d, p);
  }

  lemma OpenPrivate(d: Disk, p: Path, ids: Dirs)
    requires d.WF() && StagingPrivate(d, ids) && !Linkable(p.name, ids(p.dir))
    ensures var e := Open(d, p);
            e.WF() && StagingPrivate(e, ids) && SameOutside(d, e, {p})
  {
    hide Linkable, SameOutside;
    OpenWF(d, p);
    OpenFrame(d, p);
  }

  // What holds of names and inodes alone, whatever the contents are.

  ghost predicate Tidy(d: Disk, ids: Dirs) { d.WF() && StagingPrivate(d, ids) }

  lemma WriteTidy(d: Disk, p: Path, c: Content, ids: Dirs)
    requires Tidy(d, ids) && !Linkable(p.name, ids(p.dir)) && p in d.names
    ensures Tidy(Write(d, p, c), ids) && SameOutside(d, Write(d, p, c), {p})
  {
    hide Linkable;
    forall q | q != p
      ensures SameAt(d, Write(d, p, c), q)
    {
      assert q in d.names ==> d.names[q] != d.names[p];
    }
  }

  lemma RemoveTidy(d: Disk, p: Path, ids: Dirs)
    requires Tidy(d, ids)
    ensures Tidy(Remove(d, p), ids) && SameOutside(d, Remove(d, p), {p})
  {
    hide Linkable;
  }

  lemma LinkTidy(d: Disk, src: Path, dst: Path, ids: Dirs)
    requires Tidy(d, ids) && Linkable(src.name, ids(src.dir)) && Linkable(dst.name, ids(dst.dir))
    ensures Tidy(Link(d, src, dst).0, ids) && SameOutside(d, Link(d, src, dst).0, {dst})
  {
    hide Linkable;
  }

  lemma RenameTidy(d: Disk, src: Path, dst: Path, ids: Dirs)
    requires Tidy(d, ids) && src != dst && Linkable(dst.name, ids(dst.dir))
    ensures Tidy(Rename(d, src, dst).0, ids) && SameOutside(d, Rename(d, src, dst).0, {src, dst})
  {
    hide Linkable, SameOutside;
    RenameFrame(d, src, dst);
    var (e, ok) := Rename(d, src, dst);
    if e != d {
      forall p, q | p in e.names && q in e.names && e.names[p] == e.names[q] && p != q
        ensures Linkable(p.name, ids(p.dir)) && Linkable(q.name, ids(q.dir))
      {
        var p', q' := if p == dst then src else p, if q == dst then src else q;
        assert d.names[p'] == d.names[q'] && p' != q';
      }
    }
  }

  lemma OpenStep(d: Disk, p: Path, ids: Dirs)
    requires Safe(d, ids) && !Linkable(p.name, ids(p.dir))
    ensures var e := Open(d, p);
            && Safe(e, ids) && p in e.names
            && SameOutside(d, e, {p})
  {
    hide Accepted, IsLatest, LinkName, Linkable, IsSnapshotOf, Parse;
    NotLinkable(p.name, ids(p.dir));
    var e := Open(d, p);
    OpenPrivate(d, p, ids);
    KeepSafe(d, e, {p}, ids);
  }

  lemma WriteStep(d: Disk, p: Path, c: Content, ids: Dirs)
    requires Safe(d, ids) && !Linkable(p.name, ids(p.dir)) && p in d.names
    ensures var e := Write(d, p, c);
            && Safe(e, ids) && e.names == d.names
            && SameOutside(d, e, {p}) && e.Read(p) == Some(c)
  {
    hide Accepted, IsLatest, LinkName, Linkable, IsSnapshotOf, Parse;
    NotLinkable(p.name, ids(p.dir));
    var e := Write(d, p, c);
    assert e.WF();
    forall q | q != p
      ensures SameAt(d, e, q)
    {
      assert q in d.names ==> d.names[q] != d.names[p];
    }
    KeepSafe(d, e, {p}, ids);
  }

  lemma NotLinkable(name: string, ids: Ids)
    requires !Linkable(name, ids)
    ensures !Accepted(name, ids) && !IsLatest(name, ids)
  {
  }

  /** Contents are kept at every name outside `ps`, and no name in `ps` promises content. */
  lemma KeepSafe(d: Disk, e: Disk, ps: set<Path>, ids: Dirs)
    requires Safe(d, ids) && e.WF()
    requires forall p | p !in ps :: SameAt(d, e, p)
    requires forall p | p in ps :: !Accepted(p.name, ids(p.dir)) && !IsLatest(p.name, ids(p.dir))
    requires StagingPrivate(e, ids)
    ensures Safe(e, ids)
  {
    hide Accepted, IsLatest, LinkName, Linkable, IsSnapshotOf, Parse;
    forall p | p in e.names && (Accepted(p.name, ids(p.dir)) || IsLatest(p.name, ids(p.dir)))
      ensures p in d.names && e.Read(p) == d.Read(p)
    {
      assert SameAt(d, e, p);
    }
  }

  lemma RemoveStep(d: Disk, p: Path, ids: Dirs)
    requires Safe(d, ids)
    ensures var e := Remove(d, p);
            Safe(e, ids) && p !in e.names && SameOutside(d, e, {p})
  {
    hide Accepted, IsLatest, LinkName, Linkable, IsSnapshotOf, Parse;
    var e := Remove(d, p);
    assert forall q | q in e.names :: e.Read(q) == d.Read(q);
  }

  lemma LinkStep(d: Disk, src: Path, dst: Path, ids: Dirs)
    requires Safe(d, ids)
    requires Linkable(src.name, ids(src.dir)) && Linkable(dst.name, ids(dst.dir))
    requires !Accepted(dst.name, ids(dst.dir)) && !IsLatest(dst.name, ids(dst.dir))
    ensures var (e, ok) := Link(d, src, dst);
            && Safe(e, ids) && SameOutside(d, e, {dst})
            && (ok ==> dst in e.names && e.At(dst) == d.At(src) == e.At(src))
  {
    hide Accepted, IsLatest, LinkName, Linkable, IsSnapshotOf, Parse;
    var (e, ok) := Link(d, src, dst);
    KeepSafe(d, e, {dst}, ids);
  }

  lemma RenameFrame(d: Disk, src: Path, dst: Path)
    requires d.WF() && src != dst
    ensures var (e, ok) := Rename(d, src, dst);
            && e.WF() && SameOutside(d, e, {src, dst})
            && (ok ==> dst in e.names && e.At(dst) == d.At(src))
            && (!ok ==> e == d)
            && forall q | q in e.names && e != d :: q != src && e.At(q) == d.At(if q == dst then src else q)
  {
  }

  lemma RenameStep(d: Disk, src: Path, dst: Path, ids: Dirs)
    requires Safe(d, ids) && src != dst
    requires src in d.names && Accepted(dst.name, ids(dst.dir)) ==> d.Read(src) == Some(Complete(Parse(dst.name).value))
    requires src in d.names && IsLatest(dst.name, ids(dst.dir)) ==> IsSnapshotOf(d.Read(src), dst.name[|LATEST|..])
    requires Linkable(dst.name, ids(dst.dir))
    ensures var (e, ok) := Rename(d, src, dst);
            && Safe(e, ids) && SameOutside(d, e, {src, dst})
            && (ok ==> dst in e.names && e.At(dst) == d.At(src))
            && (!ok ==> e == d)
  {
    hide Accepted, IsLatest, LinkName, Linkable, IsSnapshotOf, Parse, Complete, SameOutside;
    RenameFrame(d, src, dst);
    RenameTidy(d, src, dst, ids);
    var (e, ok) := Rename(d, src, dst);
    assert StagingPrivate(e, ids);
  }
}
