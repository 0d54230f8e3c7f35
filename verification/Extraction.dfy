/** Untar: tar entries extracted one by one below a directory of a file system with links. */
module Extraction {
  import opened Basics
  import opened Paths
  import opened FileTrees
  import opened Disks

  /** A tar entry as the stream carries it: a name, and what to make there. */
  datatype TarEntry = TarEntry(name: string, obj: Obj)

  /** The header tarTree writes: directories get a trailing slash. */
  function HeaderOf(e: Entry): TarEntry {
    TarEntry(RelName(e.path) + (if e.obj.ODir? then "/" else ""), e.obj)
  }

  function Headers(es: seq<Entry>): (hs: seq<TarEntry>)
    ensures |hs| == |es| && forall i :: 0 <= i < |es| ==> hs[i] == HeaderOf(es[i])
  {
    if es == [] then [] else Headers(es[..|es| - 1]) + [HeaderOf(es[|es| - 1])]
  }

  /** A header's name is the entry's path, with a slash at its end exactly when it is a directory. */
  lemma HeaderNames(e: Entry)
    requires e.path != [] && ValidPath(e.path)
    ensures var name := HeaderOf(e).name;
      && name != "" && (name[|name| - 1] == '/' <==> e.obj.ODir?)
      && Clean(name) == e.path && HeaderOf(e).obj == e.obj
  {
    RenderLastChar(e.path);
    CleanRendered(e.path);
    CleanRenderedDir(e.path);
    assert Render(e.path) + "" == Render(e.path);
    hide Clean, Render;
  }

  /** safeExtract after the name check, on the joined path. */
  function Make(fs: FileSystem, p: Path, obj: Obj): Outcome
    requires p != []
  {
    match obj
    case ODir => MkdirAll(fs, p)
    case OFile(content) =>
      var up := MkdirAll(fs, Parent(p));
      if up.ok then WriteFile(up.fs, p, content) else up
    case OLink(target) =>
      var up := MkdirAll(fs, Parent(p));
      if !up.ok then up
      else if IsAbs(target) then Outcome(up.fs, false)
      else Symlink(up.fs, p, target)
    case OOther(_) => Outcome(fs, true)
  }

  /** The directories that os.MkdirAll makes. */
  function Made(fs: FileSystem, p: Path): set<Path> {
    MkdirAll(fs, p).fs.Keys - fs.Keys
  }

  /** Every place that safeExtract makes or writes to, whether or not it succeeds in the end. */
  function Touches(fs: FileSystem, p: Path, obj: Obj): set<Path>
    requires p != []
  {
    match obj
    case ODir => Made(fs, p)
    case OFile(_) =>
      var up := MkdirAll(fs, Parent(p));
      Made(fs, Parent(p)) + if up.ok then Opened(up.fs, p) else {}
    case OLink(target) =>
      var up := MkdirAll(fs, Parent(p));
      Made(fs, Parent(p)) + if up.ok && !IsAbs(target) then Linked(up.fs, p, target) else {}
    case OOther(_) => {}
  }

  /** safeExtract: one entry below `root`, or None when it is rejected or fails. */
  function Extract(fs: FileSystem, root: Path, t: TarEntry): Option<FileSystem>
    requires root != []
  {
    match SafePath(t.name)
    case None => None
    case Some(p) =>
      var made := Make(fs, root + p, t.obj);
      if made.ok then Some(made.fs) else None
  }

  /** The places that one entry makes or writes to. */
  function Touched(fs: FileSystem, root: Path, t: TarEntry): set<Path>
    requires root != []
  {
    match SafePath(t.name)
    case None => {}
    case Some(p) => Touches(fs, root + p, t.obj)
  }

  /** The file system after a sequence of entries, or None once one fails. */
  function ExtractAll(fs: FileSystem, root: Path, ts: seq<TarEntry>): Option<FileSystem>
    requires root != []
  {
    if ts == [] then Some(fs)
    else
      match ExtractAll(fs, root, ts[..|ts| - 1])
      case None => None
      case Some(fs') => Extract(fs', root, ts[|ts| - 1])
  }

  /** Untar's loop over the stream's entries. */
  method Untar(fs: FileSystem, root: Path, ts: seq<TarEntry>) returns (r: Option<FileSystem>)
    requires root != []
    ensures r == ExtractAll(fs, root, ts)
  {
    hide Extract;
    var current := fs;
    assert ts[..0] == [] && ts[..|ts|] == ts;
    for i := 0 to |ts|
      invariant ExtractAll(fs, root, ts[..i]) == Some(current)
    {
      assert ts[..i + 1][..i] == ts[..i];
      var next := Extract(current, root, ts[i]);
      if next.None? {
        FailureSticks(fs, root, ts, i + 1);
        return None;
      }
      current := next.value;
    }
    return Some(current);
  }

  lemma {:induction false} FailureSticks(fs: FileSystem, root: Path, ts: seq<TarEntry>, k: nat)
    requires root != [] && k <= |ts| && ExtractAll(fs, root, ts[..k]).None?
    ensures ExtractAll(fs, root, ts).None?
  {
    if k < |ts| {
      assert ts[..|ts| - 1][..k] == ts[..k];
      FailureSticks(fs, root, ts[..|ts| - 1], k);
    } else {
      assert ts[..k] == ts;
    }
  }

  // -------------------------------------------------- what one entry can change

  /** The nearest ancestor of p that exists, p included, with every link followed. */
  function Anchor(fs: FileSystem, p: Path): Path {
    if Exists(fs, p) then Where(fs, p).place else if p == [] then [] else Anchor(fs, Parent(p))
  }

  /** os.MkdirAll has something to make: a missing component that no dangling link or file blocks. */
  predicate Makes(fs: FileSystem, p: Path) {
    && !Exists(fs, p) && p != []
    && (Makes(fs, Parent(p)) ||
        (IsDir(fs, Parent(p)) && Where(fs, Parent(p)).place + [p[|p| - 1]] !in fs))
  }

  ghost predicate Names(p: Path) {
    forall i :: 0 <= i < |p| ==> p[i] != ".."
  }

  /** fs' is fs and some new directories, all strictly below `anchor`. */
  ghost predicate OnlyDirs(fs: FileSystem, fs': FileSystem, anchor: Path) {
    && Sound(fs')
    && (forall q | q in fs :: q in fs' && fs'[q] == fs[q])
    && (forall q | q in fs' && q !in fs :: fs'[q] == ODir && anchor < q)
  }

  lemma AddDir(fs: FileSystem, d: Path, s: string, obj: Obj)
    requires Sound(fs) && d in fs && fs[d] == ODir && (d + [s] in fs ==> !fs[d + [s]].ODir?)
    ensures Sound(fs[d + [s] := obj])
  {
    var fs' := fs[d + [s] := obj];
    forall q, k | q in fs' && 0 <= k < |q| ensures q[..k] in fs' && fs'[q[..k]] == ODir {
      if q == d + [s] {
        assert q[..k] == d[..k];
        assert k == |d| ==> q[..k] == d;
      } else {
        assert q[..k] in fs && fs[q[..k]] == ODir;
      }
    }
  }

  lemma ParentOf(p: Path)
    requires p != []
    ensures Parent(p) + [p[|p| - 1]] == p
  {
  }

  /** What os.Mkdir below an existing directory does. */
  lemma MkdirMakes(fs: FileSystem, p: Path, anchor: Path)
    requires Sound(fs) && p != [] && Names(p) && IsDir(fs, Parent(p)) && anchor <= Where(fs, Parent(p)).place
    ensures OnlyDirs(fs, Mkdir(fs, p).fs, anchor)
    ensures Mkdir(fs, p).ok ==> IsDir(Mkdir(fs, p).fs, p) && anchor <= Where(Mkdir(fs, p).fs, p).place
    ensures Mkdir(fs, p).ok ==>
      Where(Mkdir(fs, p).fs, p) == At(Where(fs, Parent(p)).place + [p[|p| - 1]])
  {
    var d, s, fs' := Where(fs, Parent(p)).place, p[|p| - 1], Mkdir(fs, p).fs;
    ParentOf(p);
    if d + [s] !in fs {
      AddDir(fs, d, s, ODir);
      LocateGrows(fs, fs', [], Parent(p), MAX_LINKS);
    }
    if Mkdir(fs, p).ok { LocateSnoc(fs', [], Parent(p), s, MAX_LINKS); }
  }

  /** os.MkdirAll only adds directories below the nearest existing ancestor. */
  lemma {:induction false} MkdirAllMakes(fs: FileSystem, p: Path)
    requires Sound(fs) && Names(p)
    ensures var o := MkdirAll(fs, p);
      && OnlyDirs(fs, o.fs, Anchor(fs, p))
      && (o.ok ==> IsDir(o.fs, p) && Anchor(fs, p) <= Where(o.fs, p).place)
    decreases |p|
  {
    if !Exists(fs, p) && p != [] {
      MkdirAllMakes(fs, Parent(p));
      var up := MkdirAll(fs, Parent(p));
      if up.ok { MkdirMakes(up.fs, p, Anchor(fs, p)); }
    }
  }

  lemma NothingMade(fs: FileSystem, p: Path)
    requires Sound(fs) && Names(p) && Made(fs, p) == {}
    ensures MkdirAll(fs, p).fs == fs
  {
    MkdirAllMakes(fs, p);
    var fs' := MkdirAll(fs, p).fs;
    forall q | q in fs' ensures q in fs { assert q !in Made(fs, p); }
  }

  lemma StrictlyBelow(root: Path, d: Path, s: string)
    requires root <= d + [s] && root != d + [s]
    ensures root <= d
  {
    assert root == (d + [s])[..|root|];
    assert (d + [s])[..|d + [s]|] == d + [s];
    assert root == d[..|root|];
  }

  /** It makes something exactly when Makes says so, and the first thing stands right below the anchor. */
  lemma {:induction false} MadeIff(fs: FileSystem, p: Path) returns (first: string)
    requires Sound(fs) && Names(p)
    ensures Made(fs, p) != {} <==> Makes(fs, p)
    ensures Makes(fs, p) ==> Anchor(fs, p) + [first] in Made(fs, p)
    decreases |p|
  {
    first := "";
    if !Exists(fs, p) && p != [] {
      MkdirAllMakes(fs, Parent(p));
      first := MadeIff(fs, Parent(p));
      if Makes(fs, Parent(p)) {
        MadeAbove(fs, p, Anchor(fs, p) + [first]);
      } else {
        NothingMade(fs, Parent(p));
        first := p[|p| - 1];
        LastMade(fs, p);
      }
    }
  }

  lemma MadeAbove(fs: FileSystem, p: Path, q: Path)
    requires Sound(fs) && Names(p) && !Exists(fs, p) && p != [] && q in Made(fs, Parent(p))
    ensures q in Made(fs, p)
  {
    MkdirAllMakes(fs, Parent(p));
    var up := MkdirAll(fs, Parent(p));
    if up.ok { MkdirMakes(up.fs, p, Anchor(fs, p)); }
  }

  lemma LastMade(fs: FileSystem, p: Path)
    requires Sound(fs) && Names(p) && !Exists(fs, p) && p != []
    requires MkdirAll(fs, Parent(p)).fs == fs && !Makes(fs, Parent(p))
    ensures Made(fs, p) != {} <==> Makes(fs, p)
    ensures Makes(fs, p) ==> Anchor(fs, p) + [p[|p| - 1]] in Made(fs, p)
  {
    MkdirAllMakes(fs, Parent(p));
    if IsDir(fs, Parent(p)) {
      var q := Where(fs, Parent(p)).place + [p[|p| - 1]];
      assert MkdirAll(fs, p) == Mkdir(fs, p);
      if q !in fs { assert q in Mkdir(fs, p).fs.Keys - fs.Keys; }
    } else {
      assert MkdirAll(fs, p).fs == fs;
    }
  }

  /** Every place of the set is `root` or below it. */
  ghost predicate StaysIn(root: Path, places: set<Path>) {
    forall q | q in places :: root <= q
  }

  /** The directories made stay below root exactly when their nearest existing ancestor does. */
  lemma MadeStaysIff(fs: FileSystem, root: Path, p: Path)
    requires Sound(fs) && Names(p) && root in fs
    ensures StaysIn(root, Made(fs, p)) <==> (Makes(fs, p) ==> root <= Anchor(fs, p))
  {
    var first := MadeIff(fs, p);
    MkdirAllMakes(fs, p);
    if Makes(fs, p) && StaysIn(root, Made(fs, p)) {
      StrictlyBelow(root, Anchor(fs, p), first);
    }
  }

  /**
   The guard that decides whether an entry's writes stay below root: the nearest existing
   ancestor of its parent resolves there and, for a file whose directory exists, its own
   last segment does too.
   */
  predicate Guarded(fs: FileSystem, root: Path, p: Path, obj: Obj)
    requires p != []
  {
    match obj
    case ODir => Makes(fs, p) ==> root <= Anchor(fs, p)
    case OFile(_) =>
      if Makes(fs, Parent(p)) then root <= Anchor(fs, Parent(p))
      else IsDir(fs, Parent(p)) && Opened(fs, p) != {} ==> root <= Where(fs, p).place
    case OLink(target) =>
      if Makes(fs, Parent(p)) then root <= Anchor(fs, Parent(p))
      else !IsAbs(target) && Linked(fs, p, target) != {} ==> root <= Where(fs, Parent(p)).place
    case OOther(_) => true
  }

  /** For every entry: what it makes or writes stays below root if and only if the guard holds. */
  lemma EntryStaysIff(fs: FileSystem, root: Path, p: Path, obj: Obj)
    requires Sound(fs) && root in fs && p != [] && Names(p)
    ensures StaysIn(root, Touches(fs, p, obj)) <==> Guarded(fs, root, p, obj)
  {
    ParentOf(p);
    match obj
    case ODir => MadeStaysIff(fs, root, p);
    case OFile(_) => FileStaysIff(fs, root, p, obj);
    case OLink(_) => LinkStaysIff(fs, root, p, obj);
    case OOther(_) =>
  }

  lemma FileStaysIff(fs: FileSystem, root: Path, p: Path, obj: Obj)
    requires Sound(fs) && root in fs && p != [] && Names(p) && obj.OFile?
    ensures StaysIn(root, Touches(fs, p, obj)) <==> Guarded(fs, root, p, obj)
  {
    var up := MkdirAll(fs, Parent(p));
    MadeStaysIff(fs, root, Parent(p));
    MkdirAllMakes(fs, Parent(p));
    var first := MadeIff(fs, Parent(p));
    if Makes(fs, Parent(p)) {
      if up.ok { NewParentIsOpened(fs, p); }
    } else {
      NothingMade(fs, Parent(p));
    }
  }

  /** Where directories were made, the last of them is new and empty, so the file lands right in it. */
  lemma NewParentIsOpened(fs: FileSystem, p: Path)
    requires Sound(fs) && p != [] && Names(p) && MkdirAll(fs, Parent(p)).ok && Makes(fs, Parent(p))
    ensures var up := MkdirAll(fs, Parent(p)).fs;
      Where(up, p).At? && Anchor(fs, Parent(p)) <= Where(up, p).place
  {
    var up := MkdirAll(fs, Parent(p)).fs;
    MkdirAllMakes(fs, Parent(p));
    NewDirIsEmpty(fs, Parent(p));
    ParentOf(p);
    LocateSnoc(up, [], Parent(p), p[|p| - 1], MAX_LINKS);
  }

  lemma {:induction false} NewDirIsEmpty(fs: FileSystem, p: Path)
    requires Sound(fs) && Names(p) && MkdirAll(fs, p).ok && Makes(fs, p)
    ensures var up := MkdirAll(fs, p).fs;
      && IsDir(up, p) && Where(up, p).place !in fs
      && forall s: string :: Where(up, p).place + [s] !in up
    decreases |p|
  {
    var above := MkdirAll(fs, Parent(p));
    MkdirAllMakes(fs, Parent(p));
    var first := MadeIff(fs, Parent(p));
    MkdirMakes(above.fs, p, Anchor(fs, p));
    var d, s := Where(above.fs, Parent(p)).place, p[|p| - 1];
    if Makes(fs, Parent(p)) { NewDirIsEmpty(fs, Parent(p)); }
    assert d + [s] !in above.fs;
    forall s': string ensures d + [s] + [s'] !in MkdirAll(fs, p).fs {
      assert (d + [s] + [s'])[..|d| + 1] == d + [s];
    }
  }

  lemma LinkStaysIff(fs: FileSystem, root: Path, p: Path, obj: Obj)
    requires Sound(fs) && root in fs && p != [] && Names(p) && obj.OLink?
    ensures StaysIn(root, Touches(fs, p, obj)) <==> Guarded(fs, root, p, obj)
  {
    var up := MkdirAll(fs, Parent(p));
    MadeStaysIff(fs, root, Parent(p));
    MkdirAllMakes(fs, Parent(p));
    var first := MadeIff(fs, Parent(p));
    var s := p[|p| - 1];
    if !Makes(fs, Parent(p)) {
      NothingMade(fs, Parent(p));
      if IsDir(fs, Parent(p)) {
        var d := Where(fs, Parent(p)).place;
        if d + [s] !in fs && root <= d + [s] { StrictlyBelow(root, d, s); }
      }
    }
  }

  // ----------------------------------------------------------- frame of an entry

  /** fs' is fs after writes at some of the places: nothing is removed, only files are overwritten. */
  predicate WrittenWithin(fs: FileSystem, fs': FileSystem, places: set<Path>) {
    && Sound(fs')
    && (forall q | q in fs :: q in fs' && (fs'[q] == fs[q] || (q in places && fs[q].OFile? && fs'[q].OFile?)))
    && (forall q | q in fs' && q !in fs :: q in places)
  }

  /** What an entry that fails may leave: some of its writes, files cut short, but no link. */
  predicate Partial(fs: FileSystem, fs': FileSystem, places: set<Path>) {
    WrittenWithin(fs, fs', places) && forall q | q in fs' && q !in fs :: !fs'[q].OLink?
  }

  /** An entry, successful or not, changes only what it touches. */
  lemma MakeFrame(fs: FileSystem, p: Path, obj: Obj)
    requires Sound(fs) && p != [] && Names(p)
    ensures WrittenWithin(fs, Make(fs, p, obj).fs, Touches(fs, p, obj))
    ensures !Make(fs, p, obj).ok ==> Partial(fs, Make(fs, p, obj).fs, Touches(fs, p, obj))
  {
    MkdirAllMakes(fs, p);
    MkdirAllMakes(fs, Parent(p));
    var up := MkdirAll(fs, Parent(p));
    if up.ok {
      if obj.OFile? && Opened(up.fs, p) != {} { WriteIsSound(up.fs, p, obj); }
      if obj.OLink? && Linked(up.fs, p, obj.target) != {} {
        AddDir(up.fs, Where(up.fs, Parent(p)).place, p[|p| - 1], obj);
      }
    }
  }

  lemma WriteIsSound(fs: FileSystem, p: Path, obj: Obj)
    requires Sound(fs) && Opened(fs, p) != {}
    ensures Sound(fs[Where(fs, p).place := obj])
  {
    var q := Where(fs, p).place;
    LocateStands(fs, [], p, MAX_LINKS);
    if q !in fs {
      ParentOf(q);
      AddDir(fs, Parent(q), q[|q| - 1], obj);
    } else {
      ParentOf(q);
      assert q[..|q| - 1] in fs && fs[q[..|q| - 1]] == ODir;
      AddDir(fs, Parent(q), q[|q| - 1], obj);
    }
  }

  lemma NamesOf(root: Path, p: Path)
    requires ValidPath(root) && ValidPath(p)
    ensures Names(root + p)
  {
  }
}
