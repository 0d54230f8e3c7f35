/**
 Extraction where no link stands on the way of an entry: paths are places, and a link
 where a directory is needed is an error.  Extraction on a real file system does exactly
 this to the tree below its root, and nothing outside, when the way is free of links.
 */
module PlainExtraction {
  import opened Basics
  import opened Paths
  import opened FileTrees
  import opened Disks
  import opened Extraction

  const EMPTY_DIR: FileSystem := map[[] := ODir]

  /** A target that safeExtract and the system accept for a link. */
  predicate Linkable(target: string) {
    target != "" && !IsAbs(target)
  }

  /** os.MkdirAll: every missing ancestor is made; a non-directory in the way is an error. */
  function PlainMkdirAll(fs: FileSystem, p: Path): Option<FileSystem>
    decreases |p|
  {
    if p in fs then (if fs[p].ODir? then Some(fs) else None)
    else if p == [] then Some(fs[p := ODir])
    else
      match PlainMkdirAll(fs, Parent(p))
      case None => None
      case Some(fs') => Some(fs'[p := ODir])
  }

  /** safeExtract after the name check. */
  function PlainMake(fs: FileSystem, p: Path, obj: Obj): Option<FileSystem> {
    match obj
    case ODir => PlainMkdirAll(fs, p)
    case OFile(_) =>
      (match PlainMkdirAll(fs, Parent(p))
       case None => None
       case Some(fs') => if p in fs' && !fs'[p].OFile? then None else Some(fs'[p := obj]))
    case OLink(target) =>
      (match PlainMkdirAll(fs, Parent(p))
       case None => None
       case Some(fs') => if !Linkable(target) || p in fs' then None else Some(fs'[p := obj]))
    case OOther(_) => Some(fs)
  }

  /** safeExtract: one entry, or None when it is rejected or fails. */
  function PlainExtract(fs: FileSystem, t: TarEntry): Option<FileSystem> {
    match SafePath(t.name)
    case None => None
    case Some(p) => PlainMake(fs, p, t.obj)
  }

  /** The file system after a sequence of entries, or None once one fails. */
  function PlainExtractAll(fs: FileSystem, ts: seq<TarEntry>): Option<FileSystem> {
    if ts == [] then Some(fs)
    else
      match PlainExtractAll(fs, ts[..|ts| - 1])
      case None => None
      case Some(fs') => PlainExtract(fs', ts[|ts| - 1])
  }

  // ---------------------------------------- what any extraction leaves behind

  predicate AtOrAbove(q: Path, p: Path) {
    q <= p
  }

  lemma AboveParent(p: Path)
    requires p != []
    ensures forall q: Path :: AtOrAbove(q, p) <==> q == p || AtOrAbove(q, Parent(p))
    ensures forall k :: 0 <= k < |p| ==> AtOrAbove(p[..k], Parent(p))
  {
    forall q: Path ensures AtOrAbove(q, p) <==> q == p || AtOrAbove(q, Parent(p)) {
      if q <= p && q != p { assert q == Parent(p)[..|q|]; }
      if q <= Parent(p) { assert Parent(p) <= p; }
    }
    forall k | 0 <= k < |p| ensures AtOrAbove(p[..k], Parent(p)) {
      assert p[..k] == Parent(p)[..k];
    }
  }

  /** Adding p below an existing directory keeps the file system sound. */
  lemma AddingKeepsSound(fs: FileSystem, p: Path, obj: Obj)
    requires Sound(fs) && p != [] && Parent(p) in fs && fs[Parent(p)] == ODir
    requires p in fs && fs[p] == ODir ==> obj == ODir
    ensures Sound(fs[p := obj])
  {
    var fs' := fs[p := obj];
    forall q, k | q in fs' && 0 <= k < |q| ensures q[..k] in fs' && fs'[q[..k]] == ODir {
      if q == p {
        if k < |p| - 1 { assert Parent(p)[..k] == p[..k]; }
      } else {
        assert q[..k] in fs && fs[q[..k]] == ODir;
      }
    }
  }

  lemma {:induction false} MkdirAllAdds(fs: FileSystem, p: Path)
    requires Sound(fs) && PlainMkdirAll(fs, p).Some?
    ensures var fs' := PlainMkdirAll(fs, p).value;
      && Sound(fs') && p in fs' && fs'[p] == ODir
      && (forall q: Path :: q in fs' <==> q in fs || AtOrAbove(q, p))
      && (forall q | q in fs :: fs'[q] == fs[q])
      && (forall q | q in fs' && q !in fs :: fs'[q] == ODir)
    decreases |p|
  {
    if p in fs {
      forall q: Path | AtOrAbove(q, p) ensures q in fs {
        assert q == p[..|q|];
        assert q == p || |q| < |p|;
      }
    } else {
      MkdirAllAdds(fs, Parent(p));
      AboveParent(p);
      AddingKeepsSound(PlainMkdirAll(fs, Parent(p)).value, p, ODir);
    }
  }

  lemma {:induction false} MkdirAllSucceeds(fs: FileSystem, p: Path)
    requires forall q | q in fs && AtOrAbove(q, p) :: fs[q] == ODir
    ensures PlainMkdirAll(fs, p).Some?
    decreases |p|
  {
    if p !in fs && p != [] {
      AboveParent(p);
      MkdirAllSucceeds(fs, Parent(p));
    }
  }

  /** One successful entry adds its path and the missing ancestors, and nothing else. */
  lemma MakeAdds(fs: FileSystem, p: Path, obj: Obj)
    requires Sound(fs) && PlainMake(fs, p, obj).Some? && !obj.OOther? && (p == [] ==> obj.ODir?)
    ensures var fs' := PlainMake(fs, p, obj).value;
      && Sound(fs') && p in fs' && fs'[p] == obj
      && (forall q: Path :: q in fs' <==> q in fs || AtOrAbove(q, p))
      && (forall q | q in fs && q != p :: fs'[q] == fs[q])
      && (forall q | q in fs' && q !in fs && q != p :: fs'[q] == ODir)
  {
    if obj.ODir? {
      MkdirAllAdds(fs, p);
    } else {
      MkdirAllAdds(fs, Parent(p));
      AboveParent(p);
      AddingKeepsSound(PlainMkdirAll(fs, Parent(p)).value, p, obj);
    }
  }
}
