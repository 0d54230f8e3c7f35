/**
 Where extraction writes: with no link on its way, an entry does to the tree below the
 root what plain extraction does, and touches nothing else.
 */
module Containment {
  import opened Basics
  import opened Paths
  import opened FileTrees
  import opened Disks
  import opened Extraction
  import opened PlainExtraction

  /** The tree below a directory, by relative path. */
  function Sub(fs: FileSystem, root: Path): FileSystem {
    var below := set q | q in fs && root <= q :: q[|root|..];
    map p | p in below && root + p in fs :: fs[root + p]
  }

  lemma SubHas(fs: FileSystem, root: Path, p: Path)
    ensures p in Sub(fs, root) <==> root + p in fs
    ensures p in Sub(fs, root) ==> Sub(fs, root)[p] == fs[root + p]
  {
    if root + p in fs { assert (root + p)[|root|..] == p; }
  }

  ghost predicate SameOutside(fs: FileSystem, fs': FileSystem, root: Path) {
    forall q | !(root <= q) :: (q in fs <==> q in fs') && (q in fs ==> fs'[q] == fs[q])
  }

  /** A canonical directory. */
  ghost predicate Rooted(fs: FileSystem, root: Path) {
    Sound(fs) && root != [] && ValidPath(root) && root in fs && fs[root] == ODir
  }

  lemma SubIsSound(fs: FileSystem, root: Path)
    requires Rooted(fs, root)
    ensures Sound(Sub(fs, root))
  {
    var tree := Sub(fs, root);
    SubHas(fs, root, []);
    assert root + [] == root;
    forall p, k | p in tree && 0 <= k < |p| ensures p[..k] in tree && tree[p[..k]] == ODir {
      SubHas(fs, root, p);
      SubHas(fs, root, p[..k]);
      assert (root + p)[..|root| + k] == root + p[..k];
    }
  }

  /** Links found on the way from the root to p, other than a link entry's own. */
  ghost predicate PlainWay(fs: FileSystem, root: Path, p: Path, obj: Obj) {
    forall q | q in Sub(fs, root) && q <= p && Sub(fs, root)[q].OLink? :: obj.OLink? && q == p
  }

  /** Then a path is the place it names. */
  lemma {:induction false} PlainWhere(fs: FileSystem, root: Path, p: Path)
    requires Rooted(fs, root) && ValidPath(p)
    requires NoLinks(fs, root, p)
    ensures Exists(fs, root + p) <==> p in Sub(fs, root)
    ensures p in Sub(fs, root) ==> Where(fs, root + p) == At(root + p)
    ensures p != [] && Parent(p) in Sub(fs, root) && Sub(fs, root)[Parent(p)].ODir? ==>
        Where(fs, root + p) == At(root + p)
    decreases |p|
  {
    SubHas(fs, root, p);
    if p == [] {
      assert [] + root == root && root + [] == root;
      LocateFrom(fs, [], root, [], MAX_LINKS);
    } else {
      var up, s := Parent(p), p[|p| - 1];
      ParentOf(p);
      assert root + up + [s] == root + p;
      SubHas(fs, root, up);
      forall q | q in Sub(fs, root) && q <= up ensures !Sub(fs, root)[q].OLink? { assert up <= p; }
      PlainWhere(fs, root, up);
      if up in Sub(fs, root) && Sub(fs, root)[up].ODir? {
        LocateSnoc(fs, [], root + up, s, MAX_LINKS);
      } else {
        if Where(fs, root + p).At? { LocateNeedsDir(fs, [], root + up, s, MAX_LINKS); }
        SubIsSound(fs, root);
        assert p[..|p| - 1] == up;
      }
    }
  }

  lemma RootParent(root: Path, p: Path)
    requires p != []
    ensures Parent(root + p) == root + Parent(p)
    ensures (root + p)[|root + p| - 1] == p[|p| - 1] && root + Parent(p) + [p[|p| - 1]] == root + p
  {
    ParentOf(p);
  }

  /** Something new at p changes the tree at p and nothing outside. */
  lemma SubUpdate(fs: FileSystem, root: Path, p: Path, obj: Obj)
    ensures Sub(fs[root + p := obj], root) == Sub(fs, root)[p := obj]
    ensures SameOutside(fs, fs[root + p := obj], root)
  {
    var a, b := Sub(fs[root + p := obj], root), Sub(fs, root)[p := obj];
    forall q ensures q in a <==> q in b
      ensures q in a ==> a[q] == b[q]
    {
      SubHas(fs, root, q);
      SubHas(fs[root + p := obj], root, q);
      if root + q == root + p { assert (root + q)[|root|..] == q && (root + p)[|root|..] == p; }
    }
  }

  /** New directories bring no new links. */
  ghost predicate LinksKept(fs: FileSystem, fs': FileSystem, root: Path) {
    forall q | q in Sub(fs', root) && Sub(fs', root)[q].OLink? :: q in Sub(fs, root) && Sub(fs, root)[q].OLink?
  }

  lemma DirsKeepLinks(fs: FileSystem, fs': FileSystem, root: Path, anchor: Path)
    requires OnlyDirs(fs, fs', anchor)
    ensures LinksKept(fs, fs', root)
  {
    forall q | q in Sub(fs', root) && Sub(fs', root)[q].OLink?
      ensures q in Sub(fs, root) && Sub(fs, root)[q].OLink?
    {
      SubHas(fs', root, q);
      SubHas(fs, root, q);
    }
  }

  ghost predicate NoLinks(fs: FileSystem, root: Path, p: Path) {
    forall q | q in Sub(fs, root) && q <= p :: !Sub(fs, root)[q].OLink?
  }

  /** On a plain way os.MkdirAll is plain MkdirAll below the root. */
  lemma {:induction false} PlainMkdirs(fs: FileSystem, root: Path, p: Path)
    requires Rooted(fs, root) && ValidPath(p) && NoLinks(fs, root, p)
    ensures var o, plain := MkdirAll(fs, root + p), PlainMkdirAll(Sub(fs, root), p);
      && (o.ok <==> plain.Some?) && (o.ok ==> Sub(o.fs, root) == plain.value)
      && Rooted(o.fs, root) && SameOutside(fs, o.fs, root) && LinksKept(fs, o.fs, root)
    decreases |p|
  {
    NamesOf(root, p);
    MkdirAllMakes(fs, root + p);
    DirsKeepLinks(fs, MkdirAll(fs, root + p).fs, root, Anchor(fs, root + p));
    PlainWhere(fs, root, p);
    SubHas(fs, root, p);
    if p !in Sub(fs, root) { PlainMkdirsBelow(fs, root, p); }
  }

  lemma {:induction false} PlainMkdirsBelow(fs: FileSystem, root: Path, p: Path)
    requires Rooted(fs, root) && ValidPath(p) && NoLinks(fs, root, p) && p !in Sub(fs, root) && !Exists(fs, root + p)
    ensures var o, plain := MkdirAll(fs, root + p), PlainMkdirAll(Sub(fs, root), p);
      (o.ok <==> plain.Some?) && (o.ok ==> Sub(o.fs, root) == plain.value) && SameOutside(fs, o.fs, root)
    decreases |p|, 0
  {
    SubHas(fs, root, []);
    assert root + [] == root;
    var up := Parent(p);
    ParentOf(p);
    RootParent(root, p);
    assert NoLinks(fs, root, up) by {
      forall q | q in Sub(fs, root) && q <= up ensures !Sub(fs, root)[q].OLink? { assert up <= p; }
    }
    PlainMkdirs(fs, root, up);
    var above := MkdirAll(fs, root + up);
    NamesOf(root, up);
    MkdirAllMakes(fs, root + up);
    if above.ok {
      SubIsSound(fs, root);
      MkdirAllAdds(Sub(fs, root), up);
      hide MkdirAll, PlainMkdirAll, Where, Exists, Sub;
      assert MkdirAll(fs, root + p) == Mkdir(above.fs, root + p) by { MkdirAllIs(fs, root + p); }
      assert !(p <= up);
      assert NoLinks(above.fs, root, p);
      PlainMkdir(fs, above.fs, root, p);
      PlainMkdirAllIs(Sub(fs, root), p);
    } else {
      MkdirAllIs(fs, root + p);
      PlainMkdirAllIs(Sub(fs, root), p);
    }
  }

  lemma MkdirAllIs(fs: FileSystem, p: Path)
    requires p != [] && !Exists(fs, p)
    ensures var up := MkdirAll(fs, Parent(p)); MkdirAll(fs, p) == if up.ok then Mkdir(up.fs, p) else up
  {
  }

  lemma PlainMkdirAllIs(fs: FileSystem, p: Path)
    requires p != [] && p !in fs
    ensures var up := PlainMkdirAll(fs, Parent(p));
      PlainMkdirAll(fs, p) == if up.Some? then Some(up.value[p := ODir]) else None
  {
  }

  /** The last step of it. */
  lemma PlainMkdir(fs: FileSystem, above: FileSystem, root: Path, p: Path)
    requires Rooted(fs, root) && ValidPath(p) && p != [] && p !in Sub(fs, root) && Rooted(above, root)
    requires NoLinks(above, root, p)
    requires IsDir(above, root + Parent(p)) && SameOutside(fs, above, root)
    requires p !in Sub(above, root)
    ensures var o := Mkdir(above, root + p);
      && o.ok && Sub(o.fs, root) == Sub(above, root)[p := ODir] && SameOutside(fs, o.fs, root)
      && Rooted(o.fs, root) && o.fs == above[root + p := ODir]
  {
    var up := Parent(p);
    RootParent(root, p);
    forall q | q in Sub(above, root) && q <= up ensures !Sub(above, root)[q].OLink? { assert up <= p; }
    PlainWhere(above, root, up);
    SubHas(above, root, p);
    SubHas(above, root, up);
    SubUpdate(above, root, p, ODir);
    AddDir(above, root + up, p[|p| - 1], ODir);
  }

  /** The tree below the root after a call, the rest of the disk as it was. */
  ghost predicate Only(fs: FileSystem, root: Path, fs': FileSystem, tree: FileSystem) {
    Rooted(fs', root) && Sub(fs', root) == tree && SameOutside(fs, fs', root)
  }

  lemma PlainFile(fs: FileSystem, root: Path, p: Path, content: Bytes)
    requires Rooted(fs, root) && ValidPath(p) && p != [] && NoLinks(fs, root, p) && IsDir(fs, root + Parent(p))
    ensures var o, tree := WriteFile(fs, root + p, content), Sub(fs, root);
      && (o.ok <==> !(p in tree && !tree[p].OFile?))
      && (o.ok ==> Only(fs, root, o.fs, tree[p := OFile(content)])) && (!o.ok ==> o.fs == fs)
  {
    var up := Parent(p);
    assert NoLinks(fs, root, up) by {
      forall q | q in Sub(fs, root) && q <= up ensures !Sub(fs, root)[q].OLink? { assert up <= p; }
    }
    RootParent(root, p);
    PlainWhere(fs, root, up);
    PlainWhere(fs, root, p);
    SubHas(fs, root, p);
    SubHas(fs, root, up);
    SubUpdate(fs, root, p, OFile(content));
    if WriteFile(fs, root + p, content).ok {
      AddDir(fs, root + up, p[|p| - 1], OFile(content));
    }
  }

  lemma PlainLink(fs: FileSystem, root: Path, p: Path, target: string)
    requires Rooted(fs, root) && ValidPath(p) && p != [] && NoLinks(fs, root, Parent(p)) && IsDir(fs, root + Parent(p))
    ensures var o, tree := Symlink(fs, root + p, target), Sub(fs, root);
      && (o.ok <==> target != "" && p !in tree)
      && (o.ok ==> Only(fs, root, o.fs, tree[p := OLink(target)])) && (!o.ok ==> o.fs == fs)
  {
    var up := Parent(p);
    RootParent(root, p);
    PlainWhere(fs, root, up);
    SubHas(fs, root, p);
    SubHas(fs, root, up);
    SubUpdate(fs, root, p, OLink(target));
    if Symlink(fs, root + p, target).ok { AddDir(fs, root + up, p[|p| - 1], OLink(target)); }
  }

  /** Everything about one entry on a plain way. */
  ghost predicate MakesPlainly(fs: FileSystem, root: Path, p: Path, obj: Obj)
    requires root != []
  {
    var o, plain := Make(fs, root + p, obj), PlainMake(Sub(fs, root), p, obj);
    && (o.ok <==> plain.Some?) && (o.ok ==> Sub(o.fs, root) == plain.value)
    && Rooted(o.fs, root) && SameOutside(fs, o.fs, root)
  }

  lemma NoLinksAbove(fs: FileSystem, root: Path, p: Path)
    requires NoLinks(fs, root, p)
    ensures NoLinks(fs, root, Parent(p))
  {
    forall q | q in Sub(fs, root) && q <= Parent(p) ensures !Sub(fs, root)[q].OLink? { assert Parent(p) <= p; }
  }

  lemma NoLinksLater(fs: FileSystem, fs': FileSystem, root: Path, p: Path)
    requires NoLinks(fs, root, p) && LinksKept(fs, fs', root)
    ensures NoLinks(fs', root, p)
  {
  }

  lemma FileIs(fs: FileSystem, tree: FileSystem, root: Path, p: Path, content: Bytes)
    requires root != [] && p != []
    ensures var up := MkdirAll(fs, root + Parent(p));
      Make(fs, root + p, OFile(content)) == if up.ok then WriteFile(up.fs, root + p, content) else up
    ensures var up := PlainMkdirAll(tree, Parent(p));
      PlainMake(tree, p, OFile(content)) ==
        if up.None? || (p in up.value && !up.value[p].OFile?) then None else Some(up.value[p := OFile(content)])
  {
    RootParent(root, p);
  }

  lemma LinkIs(fs: FileSystem, tree: FileSystem, root: Path, p: Path, target: string)
    requires root != [] && p != []
    ensures var up := MkdirAll(fs, root + Parent(p));
      Make(fs, root + p, OLink(target)) ==
        if !up.ok then up else if IsAbs(target) then Outcome(up.fs, false) else Symlink(up.fs, root + p, target)
    ensures var up := PlainMkdirAll(tree, Parent(p));
      PlainMake(tree, p, OLink(target)) ==
        if up.None? || IsAbs(target) || target == "" || p in up.value then None else Some(up.value[p := OLink(target)])
  {
    RootParent(root, p);
  }

  lemma OutsideTwice(a: FileSystem, b: FileSystem, c: FileSystem, root: Path)
    requires SameOutside(a, b, root) && SameOutside(b, c, root)
    ensures SameOutside(a, c, root)
  {
  }

  lemma MakesPlainFile(fs: FileSystem, root: Path, p: Path, content: Bytes)
    requires Rooted(fs, root) && ValidPath(p) && p != [] && NoLinks(fs, root, p)
    ensures MakesPlainly(fs, root, p, OFile(content))
  {
    NoLinksAbove(fs, root, p);
    PlainMkdirs(fs, root, Parent(p));
    var up := MkdirAll(fs, root + Parent(p));
    FileIs(fs, Sub(fs, root), root, p, content);
    NamesOf(root, Parent(p));
    MkdirAllMakes(fs, root + Parent(p));
    hide *;
    if up.ok {
      NoLinksLater(fs, up.fs, root, p);
      PlainFile(up.fs, root, p, content);
      FileDone(fs, up.fs, root, p, content);
    } else {
      FileNotDone(fs, root, p, OFile(content));
    }
  }

  lemma FileDone(fs: FileSystem, above: FileSystem, root: Path, p: Path, content: Bytes)
    requires root != [] && SameOutside(fs, above, root) && Rooted(above, root)
    requires PlainMkdirAll(Sub(fs, root), Parent(p)) == Some(Sub(above, root))
    requires Make(fs, root + p, OFile(content)) == WriteFile(above, root + p, content)
    requires PlainMake(Sub(fs, root), p, OFile(content)) ==
      if p in Sub(above, root) && !Sub(above, root)[p].OFile? then None else Some(Sub(above, root)[p := OFile(content)])
    requires var o, tree := WriteFile(above, root + p, content), Sub(above, root);
      && (o.ok <==> !(p in tree && !tree[p].OFile?))
      && (o.ok ==> Only(above, root, o.fs, tree[p := OFile(content)])) && (!o.ok ==> o.fs == above)
    ensures MakesPlainly(fs, root, p, OFile(content))
  {
    hide Make, WriteFile, PlainMkdirAll, PlainMake, Sub;
  }

  lemma FileNotDone(fs: FileSystem, root: Path, p: Path, obj: Obj)
    requires root != [] && !Make(fs, root + p, obj).ok && PlainMake(Sub(fs, root), p, obj).None?
    requires Rooted(Make(fs, root + p, obj).fs, root) && SameOutside(fs, Make(fs, root + p, obj).fs, root)
    ensures MakesPlainly(fs, root, p, obj)
  {
  }

  lemma MakesPlainLink(fs: FileSystem, root: Path, p: Path, target: string)
    requires Rooted(fs, root) && ValidPath(p) && p != [] && NoLinks(fs, root, Parent(p))
    ensures MakesPlainly(fs, root, p, OLink(target))
  {
    PlainMkdirs(fs, root, Parent(p));
    var up := MkdirAll(fs, root + Parent(p));
    LinkIs(fs, Sub(fs, root), root, p, target);
    NamesOf(root, Parent(p));
    MkdirAllMakes(fs, root + Parent(p));
    hide *;
    if !up.ok || IsAbs(target) {
      FileNotDone(fs, root, p, OLink(target));
    } else {
      NoLinksLater(fs, up.fs, root, Parent(p));
      PlainLink(up.fs, root, p, target);
      LinkDone(fs, up.fs, root, p, target);
    }
  }

  lemma LinkDone(fs: FileSystem, above: FileSystem, root: Path, p: Path, target: string)
    requires root != [] && p != [] && SameOutside(fs, above, root) && Rooted(above, root)
    requires Make(fs, root + p, OLink(target)) == Symlink(above, root + p, target)
    requires PlainMake(Sub(fs, root), p, OLink(target)) ==
      if target == "" || p in Sub(above, root) then None else Some(Sub(above, root)[p := OLink(target)])
    requires var o, tree := Symlink(above, root + p, target), Sub(above, root);
      && (o.ok <==> target != "" && p !in tree)
      && (o.ok ==> Only(above, root, o.fs, tree[p := OLink(target)])) && (!o.ok ==> o.fs == above)
    ensures MakesPlainly(fs, root, p, OLink(target))
  {
    hide Make, Symlink, PlainMkdirAll, PlainMake, Sub;
  }

  /** The root's own directory, seen from outside. */
  lemma RootIsDir(fs: FileSystem, root: Path)
    requires Rooted(fs, root)
    ensures Where(fs, root) == At(root) && Where(fs, Parent(root)) == At(Parent(root))
    ensures Parent(root) in fs && fs[Parent(root)] == ODir && MkdirAll(fs, Parent(root)) == Outcome(fs, true)
  {
    assert [] + root == root && root + [] == root;
    LocateFrom(fs, [], root, [], MAX_LINKS);
    ParentOf(root);
    assert Parent(root) == root[..|root| - 1];
    assert [] + Parent(root) == Parent(root) && Parent(root) + [] == Parent(root);
    LocateFrom(fs, [], Parent(root), [], MAX_LINKS);
  }

  /** An entry for the root itself makes nothing. */
  lemma MakesPlainRoot(fs: FileSystem, root: Path, obj: Obj)
    requires Rooted(fs, root) && !obj.ODir?
    ensures MakesPlainly(fs, root, [], obj)
  {
    assert root + [] == root;
    SubHas(fs, root, []);
    RootIsDir(fs, root);
    ParentOf(root);
    hide Where, MkdirAll;
    assert Make(fs, root, obj).fs == fs;
    assert obj.OOther? || PlainMake(Sub(fs, root), [], obj).None?;
  }

  lemma PlainMakes(fs: FileSystem, root: Path, p: Path, obj: Obj)
    requires Rooted(fs, root) && ValidPath(p) && (obj.OOther? || PlainWay(fs, root, p, obj))
    ensures MakesPlainly(fs, root, p, obj)
  {
    match obj
    case ODir => PlainMkdirs(fs, root, p);
    case OFile(content) => if p == [] { MakesPlainRoot(fs, root, obj); } else { MakesPlainFile(fs, root, p, content); }
    case OLink(target) =>
      if p == [] {
        MakesPlainRoot(fs, root, obj);
      } else {
        forall q | q in Sub(fs, root) && q <= Parent(p) ensures !Sub(fs, root)[q].OLink? { assert Parent(p) <= p; }
        MakesPlainLink(fs, root, p, target);
      }
    case OOther(_) =>
  }

  lemma {:induction false} ExtractionStaysRooted(fs: FileSystem, root: Path, ts: seq<TarEntry>)
    requires Rooted(fs, root) && ExtractAll(fs, root, ts).Some?
    ensures Rooted(ExtractAll(fs, root, ts).value, root)
  {
    if ts != [] {
      var init, last := ts[..|ts| - 1], ts[|ts| - 1];
      ExtractionStaysRooted(fs, root, init);
      EntryKeepsRooted(ExtractAll(fs, root, init).value, root, last);
    }
  }

  lemma EntryKeepsRooted(fs: FileSystem, root: Path, t: TarEntry)
    requires Rooted(fs, root) && Extract(fs, root, t).Some?
    ensures Rooted(Extract(fs, root, t).value, root)
  {
    SafePathStaysInside(t.name);
    var p := SafePath(t.name).value;
    NamesOf(root, p);
    MakeFrame(fs, root + p, t.obj);
  }

  // --------------------------------------------------------- streams of entries

  ghost predicate Among(streams: seq<seq<TarEntry>>, t: TarEntry) {
    exists j, k :: 0 <= j < |streams| && 0 <= k < |streams[j]| && streams[j][k] == t
  }

  /** l is a link at or above e's path, and e would go through it. */
  predicate InTheWay(l: TarEntry, e: TarEntry) {
    && l.obj.OLink? && !e.obj.OOther? && SafePath(l.name).Some? && SafePath(e.name).Some?
    && SafePath(l.name).value <= SafePath(e.name).value
    && !(e.obj.OLink? && SafePath(l.name).value == SafePath(e.name).value)
  }

  /** No link of any stream is in the way of any entry of any stream. */
  ghost predicate NoLinkOnTheWay(streams: seq<seq<TarEntry>>) {
    forall l, e :: Among(streams, l) && Among(streams, e) ==> !InTheWay(l, e)
  }

  /** Every link below the root was named by an entry. */
  ghost predicate LinksAmong(fs: FileSystem, root: Path, streams: seq<seq<TarEntry>>) {
    forall q | q in Sub(fs, root) && Sub(fs, root)[q].OLink? ::
      exists l :: Among(streams, l) && l.obj.OLink? && SafePath(l.name) == Some(q)
  }

  lemma WayIsPlain(fs: FileSystem, root: Path, streams: seq<seq<TarEntry>>, t: TarEntry)
    requires LinksAmong(fs, root, streams) && NoLinkOnTheWay(streams) && Among(streams, t)
    requires SafePath(t.name).Some? && !t.obj.OOther?
    ensures PlainWay(fs, root, SafePath(t.name).value, t.obj)
  {
    hide SafePath, Sub;
    var p := SafePath(t.name).value;
    forall q | q in Sub(fs, root) && q <= p && Sub(fs, root)[q].OLink? ensures t.obj.OLink? && q == p {
      var l :| Among(streams, l) && l.obj.OLink? && SafePath(l.name) == Some(q);
      assert !InTheWay(l, t);
    }
  }

  /** New places are touched places; where nothing outside changed, they are below the root. */
  lemma EntryStays(fs: FileSystem, root: Path, p: Path, obj: Obj)
    requires Rooted(fs, root) && ValidPath(p) && (obj.OOther? || PlainWay(fs, root, p, obj))
    ensures StaysIn(root, Touches(fs, root + p, obj))
  {
    NamesOf(root, p);
    match obj
    case ODir =>
      PlainMkdirs(fs, root, p);
      MadeInside(fs, root, root + p);
    case OFile(content) =>
      if p == [] { RootTouchesNothing(fs, root, obj); } else { FileStays(fs, root, p, content); }
    case OLink(target) =>
      if p == [] { RootTouchesNothing(fs, root, obj); } else { LinkStays(fs, root, p, target); }
    case OOther(_) =>
  }

  lemma MadeInside(fs: FileSystem, root: Path, p: Path)
    requires SameOutside(fs, MkdirAll(fs, p).fs, root)
    ensures StaysIn(root, Made(fs, p))
  {
  }

  lemma RootTouchesNothing(fs: FileSystem, root: Path, obj: Obj)
    requires Rooted(fs, root) && !obj.ODir?
    ensures Touches(fs, root + [], obj) == {}
  {
    assert root + [] == root;
    RootIsDir(fs, root);
    ParentOf(root);
    hide Where, MkdirAll;
    assert Made(fs, Parent(root)) == {};
  }

  lemma FileStays(fs: FileSystem, root: Path, p: Path, content: Bytes)
    requires Rooted(fs, root) && ValidPath(p) && p != [] && NoLinks(fs, root, p)
    ensures StaysIn(root, Touches(fs, root + p, OFile(content)))
  {
    RootParent(root, p);
    NoLinksAbove(fs, root, p);
    PlainMkdirs(fs, root, Parent(p));
    MadeInside(fs, root, root + Parent(p));
    var up := MkdirAll(fs, root + Parent(p));
    if up.ok {
      NamesOf(root, Parent(p));
      MkdirAllMakes(fs, root + Parent(p));
      NoLinksLater(fs, up.fs, root, p);
      OpenedInside(up.fs, root, p);
    }
    hide MkdirAll, Sub, NoLinks, Where;
  }

  lemma OpenedInside(fs: FileSystem, root: Path, p: Path)
    requires Rooted(fs, root) && ValidPath(p) && p != [] && NoLinks(fs, root, p) && IsDir(fs, root + Parent(p))
    ensures StaysIn(root, Opened(fs, root + p))
  {
    NoLinksAbove(fs, root, p);
    PlainWhere(fs, root, Parent(p));
    PlainWhere(fs, root, p);
    SubHas(fs, root, Parent(p));
  }

  lemma LinkStays(fs: FileSystem, root: Path, p: Path, target: string)
    requires Rooted(fs, root) && ValidPath(p) && p != [] && PlainWay(fs, root, p, OLink(target))
    ensures StaysIn(root, Touches(fs, root + p, OLink(target)))
  {
    RootParent(root, p);
    assert NoLinks(fs, root, Parent(p)) by {
      forall q | q in Sub(fs, root) && q <= Parent(p) ensures !Sub(fs, root)[q].OLink? { assert Parent(p) <= p; }
    }
    PlainMkdirs(fs, root, Parent(p));
    MadeInside(fs, root, root + Parent(p));
    var up := MkdirAll(fs, root + Parent(p));
    if up.ok {
      NamesOf(root, Parent(p));
      MkdirAllMakes(fs, root + Parent(p));
      NoLinksLater(fs, up.fs, root, Parent(p));
      PlainWhere(up.fs, root, Parent(p));
    }
    hide MkdirAll, Sub, NoLinks, Where;
  }

  /** With no link on the way of any stream, an entry does what plain extraction does and stays inside. */
  lemma EntryIsPlain(fs: FileSystem, root: Path, streams: seq<seq<TarEntry>>, t: TarEntry)
    requires Rooted(fs, root) && LinksAmong(fs, root, streams) && NoLinkOnTheWay(streams) && Among(streams, t)
    ensures StaysIn(root, Touched(fs, root, t))
    ensures var r, plain := Extract(fs, root, t), PlainExtract(Sub(fs, root), t);
      && (r.Some? <==> plain.Some?)
      && (r.Some? ==> Only(fs, root, r.value, plain.value) && LinksAmong(r.value, root, streams))
  {
    if SafePath(t.name).Some? {
      var p := SafePath(t.name).value;
      SafePathStaysInside(t.name);
      hide SafePath;
      if !t.obj.OOther? { WayIsPlain(fs, root, streams, t); }
      PlainMakes(fs, root, p, t.obj);
      EntryStays(fs, root, p, t.obj);
      if PlainMake(Sub(fs, root), p, t.obj).Some? && !t.obj.OOther? {
        SubIsSound(fs, root);
        PlainRootOnlyDir(Sub(fs, root), p, t.obj);
        MakeAdds(Sub(fs, root), p, t.obj);
        NewLinkIsNamed(fs, Make(fs, root + p, t.obj).fs, root, streams, t, p);
      }
    }
  }

  lemma PlainRootOnlyDir(tree: FileSystem, p: Path, obj: Obj)
    requires Sound(tree) && PlainMake(tree, p, obj).Some? && !obj.OOther?
    ensures p == [] ==> obj.ODir?
  {
  }

  lemma NewLinkIsNamed(fs: FileSystem, fs': FileSystem, root: Path, streams: seq<seq<TarEntry>>, t: TarEntry, p: Path)
    requires LinksAmong(fs, root, streams) && Among(streams, t) && SafePath(t.name) == Some(p)
    requires p in Sub(fs', root) && Sub(fs', root)[p] == t.obj
    requires forall q | q in Sub(fs, root) && q != p :: q in Sub(fs', root) && Sub(fs', root)[q] == Sub(fs, root)[q]
    requires forall q | q in Sub(fs', root) && q !in Sub(fs, root) && q != p :: Sub(fs', root)[q] == ODir
    ensures LinksAmong(fs', root, streams)
  {
    hide Sub, SafePath;
  }

  /** What a failed entry leaves brings no link. */
  lemma PartialKeepsLinks(fs: FileSystem, fs': FileSystem, root: Path, streams: seq<seq<TarEntry>>, places: set<Path>)
    requires Rooted(fs, root) && LinksAmong(fs, root, streams) && Partial(fs, fs', places)
    ensures Rooted(fs', root) && LinksAmong(fs', root, streams)
  {
    forall q | q in Sub(fs', root) && Sub(fs', root)[q].OLink?
      ensures q in Sub(fs, root) && Sub(fs, root)[q].OLink?
    {
      SubHas(fs, root, q);
      SubHas(fs', root, q);
    }
  }

  /** And so does a whole sequence of entries. */
  lemma {:induction false} SequenceIsPlain(fs: FileSystem, root: Path, streams: seq<seq<TarEntry>>, ts: seq<TarEntry>)
    requires Rooted(fs, root) && LinksAmong(fs, root, streams) && NoLinkOnTheWay(streams)
    requires forall t | t in ts :: Among(streams, t)
    ensures var r, plain := ExtractAll(fs, root, ts), PlainExtractAll(Sub(fs, root), ts);
      && (r.Some? <==> plain.Some?)
      && (r.Some? ==> Only(fs, root, r.value, plain.value) && LinksAmong(r.value, root, streams))
  {
    if ts != [] {
      var init, last := ts[..|ts| - 1], ts[|ts| - 1];
      SequenceIsPlain(fs, root, streams, init);
      assert last in ts;
      hide Extract, PlainExtract, LinksAmong, NoLinkOnTheWay, Among, Sub;
      var before := ExtractAll(fs, root, init);
      if before.Some? {
        EntryIsPlain(before.value, root, streams, last);
        if Extract(before.value, root, last).Some? {
          OutsideTwice(fs, before.value, Extract(before.value, root, last).value, root);
        }
      }
    }
  }
}
