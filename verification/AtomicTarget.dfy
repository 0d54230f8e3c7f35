/** The scratch directory a download extracts into, and its promotion to the destination beside it. */
module AtomicTargets {
  import opened Paths
  import opened FileTrees
  import opened Disks
  import opened Containment

  /** The destination and the scratch directory are siblings; `home` is where their directory really is. */
  datatype Site = Site(home: Path, name: string, tmp: string) {
    function Dst(): Path { home + [name] }

    function Scratch(): Path { home + [tmp] }
  }

  /** The common directory exists and the two names are different names. */
  ghost predicate ValidSite(s: Site, fs: FileSystem) {
    && Sound(fs) && ValidPath(s.home) && s.home in fs && fs[s.home] == ODir
    && ValidName(s.name) && ValidName(s.tmp) && s.name != s.tmp
  }

  class Disk {
    var fs: FileSystem

    constructor (fs: FileSystem)
      ensures this.fs == fs
    {
      this.fs := fs;
    }
  }

  /** EnsureEmpty: a missing or empty destination passes, any other only with force. */
  predicate EmptyEnough(fs: FileSystem, dst: Path, force: bool) {
    force ||
    match ReadDir(fs, dst)
    case NotExist => true
    case Unlistable => false
    case Names(names) => names == {}
  }

  /** Exactly: no error other than "does not exist", no file in its place, and nothing at all below it. */
  lemma EmptyEnoughIff(fs: FileSystem, dst: Path, force: bool)
    requires Sound(fs)
    ensures EmptyEnough(fs, dst, force) <==>
      || force || Where(fs, dst).Missing?
      || (Where(fs, dst).At? &&
            var q := Where(fs, dst).place;
            q in fs ==> fs[q] == ODir && forall p | p in fs :: !(q < p))
  {
    if Where(fs, dst).At? && Where(fs, dst).place in fs && fs[Where(fs, dst).place] == ODir {
      var q := Where(fs, dst).place;
      if p :| p in fs && q < p {
        assert p[..|q| + 1][..|q|] == p[..|q|] == q;
        assert p[..|q| + 1] in fs by { assert |q| + 1 == |p| ==> p[..|q| + 1] == p; }
        assert p[..|q| + 1][|q|] in ReadDir(fs, dst).names;
      }
      if s :| s in ReadDir(fs, dst).names {
        var p :| p in fs && q <= p && |p| == |q| + 1 && p[|q|] == s;
        assert q < p;
      }
    }
  }

  // ------------------------------------------------------- removing and moving

  /** os.RemoveAll where it gets through to some of the places below p only: each goes with all below it. */
  function Pruned(fs: FileSystem, p: Path, gone: set<Path>): FileSystem {
    map q | q in fs && (p <= q ==> forall g | g in gone :: !(g <= q)) :: fs[q]
  }

  /** os.RemoveAll. */
  function Without(fs: FileSystem, p: Path): FileSystem {
    map q | q in fs && !(p <= q) :: fs[q]
  }

  /** A tree put at b, in place of what was there. */
  function Graft(fs: FileSystem, b: Path, tree: FileSystem): FileSystem {
    var keys := fs.Keys + set p | p in tree :: b + p;
    map q | q in keys && (if b <= q then q[|b|..] in tree else q in fs) :: if b <= q then tree[q[|b|..]] else fs[q]
  }

  /** os.Rename of the directory at a to b, where nothing is. */
  function Renamed(fs: FileSystem, a: Path, b: Path): FileSystem {
    Graft(Without(fs, a), b, Sub(fs, a))
  }

  lemma GraftHas(fs: FileSystem, b: Path, tree: FileSystem, q: Path)
    ensures q in Graft(fs, b, tree) <==> if b <= q then q[|b|..] in tree else q in fs
    ensures q in Graft(fs, b, tree) ==> Graft(fs, b, tree)[q] == if b <= q then tree[q[|b|..]] else fs[q]
  {
    if b <= q && q[|b|..] in tree { assert q == b + q[|b|..]; }
  }

  lemma SubOfGraft(fs: FileSystem, b: Path, tree: FileSystem)
    ensures Sub(Graft(fs, b, tree), b) == tree && SameOutside(fs, Graft(fs, b, tree), b)
  {
    var g := Graft(fs, b, tree);
    hide Graft, Sub;
    forall p ensures p in Sub(g, b) <==> p in tree
      ensures p in tree ==> Sub(g, b)[p] == tree[p]
    {
      SubHas(g, b, p);
      GraftHas(fs, b, tree, b + p);
      assert (b + p)[|b|..] == p;
    }
    forall q | !(b <= q) ensures (q in fs <==> q in g) && (q in fs ==> g[q] == fs[q]) { GraftHas(fs, b, tree, q); }
  }

  lemma SiblingsApart(s: Site, q: Path)
    requires s.name != s.tmp
    ensures !(s.Dst() <= q && s.Scratch() <= q)
  {
    if s.Dst() <= q && s.Scratch() <= q { SiblingAt(s, q); }
  }

  lemma SiblingAt(s: Site, q: Path)
    requires s.Dst() <= q || s.Scratch() <= q
    ensures |q| > |s.home| && (s.Dst() <= q ==> q[|s.home|] == s.name) && (s.Scratch() <= q ==> q[|s.home|] == s.tmp)
  {
  }

  lemma PrunedIsSound(fs: FileSystem, p: Path, gone: set<Path>)
    requires Sound(fs) && p != []
    ensures Sound(Pruned(fs, p, gone)) && SameOutside(fs, Pruned(fs, p, gone), p)
  {
    var rest := Pruned(fs, p, gone);
    forall q, k | q in rest && 0 <= k < |q| ensures q[..k] in rest && rest[q[..k]] == ODir {
      if p <= q[..k] {
        assert q[..k] <= q;
        forall g | g in gone ensures !(g <= q[..k]) { assert g <= q[..k] ==> g <= q; }
      }
    }
  }

  lemma WithoutIsSound(fs: FileSystem, p: Path)
    requires Sound(fs) && p != []
    ensures Sound(Without(fs, p)) && SameOutside(fs, Without(fs, p), p) && forall q | p <= q :: q !in Without(fs, p)
  {
    var rest := Without(fs, p);
    forall q, k | q in rest && 0 <= k < |q| ensures q[..k] in rest && rest[q[..k]] == ODir {
      assert p <= q[..k] ==> p <= q;
    }
  }

  lemma PrunedNothing(fs: FileSystem, p: Path)
    ensures Pruned(fs, p, {}) == fs
  {
  }

  lemma PrunedAll(fs: FileSystem, p: Path)
    ensures Pruned(fs, p, {p}) == Without(fs, p)
  {
  }

  lemma BelowIsIn(fs: FileSystem, p: Path, q: Path)
    requires Sound(fs) && q in fs && p <= q
    ensures p in fs
  {
    assert q[..|p|] == p;
    assert |p| < |q| || p == q;
  }

  lemma NothingToRemove(fs: FileSystem, p: Path)
    requires Sound(fs) && p !in fs
    ensures Without(fs, p) == fs
  {
    forall q | q in fs ensures !(p <= q) {
      if p <= q { BelowIsIn(fs, p, q); }
    }
  }

  lemma GraftIsSound(fs: FileSystem, d: Path, s: string, tree: FileSystem)
    requires Sound(fs) && d in fs && fs[d] == ODir && Sound(tree) && d + [s] !in fs
    ensures Sound(Graft(fs, d + [s], tree))
  {
    var b, g := d + [s], Graft(fs, d + [s], tree);
    SubOfGraft(fs, b, tree);
    forall q, k | q in g && 0 <= k < |q| ensures q[..k] in g && g[q[..k]] == ODir {
      if b <= q && |b| <= k {
        assert q[..k][|b|..] == q[|b|..][..k - |b|];
        assert q[..k] == b + q[..k][|b|..];
      } else if b <= q {
        assert q[..k] == d[..k];
        assert k == |d| ==> d[..k] == d;
        assert !(b <= q[..k]);
      } else {
        assert b <= q[..k] ==> b <= q;
      }
    }
  }

  // ------------------------------------------------------------ the target itself

  /** What a failed Commit leaves: no scratch, and of the destination what was not removed. */
  ghost predicate LeftBehind(before: FileSystem, after: FileSystem, site: Site, gone: set<Path>) {
    && after == Without(Pruned(before, site.Dst(), gone), site.Scratch())
    && (!Exists(before, site.Dst()) ==> gone == {})
  }

  class AtomicTarget {
    const disk: Disk
    const site: Site
    var done: bool

    constructor (disk: Disk, site: Site)
      ensures this.disk == disk && this.site == site && !done
    {
      this.disk, this.site, done := disk, site, false;
    }

    /** Promotes the scratch directory; on failure the scratch is removed and the destination may be gone. */
    method Commit() returns (err: bool)
      requires !done ==> ValidSite(site, disk.fs) && site.Scratch() in disk.fs
      modifies this, disk
      ensures done
      ensures old(done) ==> !err && disk.fs == old(disk.fs)
      ensures !old(done) && !err ==>
        disk.fs == Renamed(Without(old(disk.fs), site.Dst()), site.Scratch(), site.Dst())
      ensures !old(done) && err ==> exists gone: set<Path> :: LeftBehind(old(disk.fs), disk.fs, site, gone)
    {
      if done { return false; }
      done := true;
      PrunedNothing(disk.fs, site.Dst());
      PrunedAll(disk.fs, site.Dst());
      if Exists(disk.fs, site.Dst()) {
        var cleared: bool := *;
        if !cleared {
          ghost var before := disk.fs;
          var gone: set<Path> :| gone <= disk.fs.Keys;
          disk.fs := Without(Pruned(disk.fs, site.Dst(), gone), site.Scratch());
          assert before == old(disk.fs) && LeftBehind(before, disk.fs, site, gone);
          return true;
        }
        disk.fs := Without(disk.fs, site.Dst());
      } else if site.Dst() !in disk.fs {
        NothingToRemove(disk.fs, site.Dst());
      }
      var renamed: bool := *;
      if !renamed || site.Dst() in disk.fs {
        ghost var gone := if Exists(old(disk.fs), site.Dst()) then {site.Dst()} else {};
        disk.fs := Without(disk.fs, site.Scratch());
        assert LeftBehind(old(disk.fs), disk.fs, site, gone);
        return true;
      }
      disk.fs := Renamed(disk.fs, site.Scratch(), site.Dst());
      return false;
    }

    /** Removes the scratch directory; after Commit or Abort it does nothing. */
    method Abort()
      modifies this, disk
      ensures done && disk.fs == if old(done) then old(disk.fs) else Without(old(disk.fs), site.Scratch())
    {
      if done { return; }
      done := true;
      disk.fs := Without(disk.fs, site.Scratch());
    }
  }

  /** Where the destination is not a link it is the place it names. */
  lemma DstIsItself(site: Site, fs: FileSystem)
    requires ValidSite(site, fs) && (site.Dst() in fs ==> !fs[site.Dst()].OLink?)
    ensures Where(fs, site.Dst()) == At(site.Dst())
  {
    assert [] + site.home == site.home && site.home + [] == site.home;
    LocateFrom(fs, [], site.home, [], MAX_LINKS);
    LocateSnoc(fs, [], site.home, site.name, MAX_LINKS);
  }

  /**
   PrepareAtomic: refuses before making any scratch state, or makes an empty one; `made`
   says whether the system lets it.  Without force it refuses exactly where the
   destination leads to something other than an empty directory.
   */
  method PrepareAtomic(disk: Disk, site: Site, force: bool, made: bool) returns (target: AtomicTarget?, err: bool)
    requires ValidSite(site, disk.fs) && site.Scratch() !in disk.fs
    modifies disk
    ensures err <==> target == null
    ensures err ==> disk.fs == old(disk.fs)
    ensures !err ==> fresh(target) && target.disk == disk && target.site == site && !target.done
                     && disk.fs == old(disk.fs)[site.Scratch() := ODir]
    ensures err <==> !made || !EmptyEnough(old(disk.fs), site.Dst(), force)
    ensures !force && Where(old(disk.fs), site.Dst()).Refused? ==> err
    ensures !force && Where(old(disk.fs), site.Dst()).At? && Where(old(disk.fs), site.Dst()).place in old(disk.fs) ==>
      var q := Where(old(disk.fs), site.Dst()).place;
      && (old(disk.fs)[q] != ODir ==> err)
      && ((exists p :: p in old(disk.fs) && q < p) ==> err)
      && (made && old(disk.fs)[q] == ODir && (forall p | p in old(disk.fs) :: !(q < p)) ==> !err)
    ensures made && (force || Where(old(disk.fs), site.Dst()).Missing? || site.Dst() !in old(disk.fs)) ==> !err
  {
    EmptyEnoughIff(disk.fs, site.Dst(), force);
    if site.Dst() !in disk.fs { DstIsItself(site, disk.fs); }
    if !EmptyEnough(disk.fs, site.Dst(), force) { return null, true; }
    if !made { return null, true; }
    target := new AtomicTarget(disk, site);
    disk.fs := disk.fs[site.Scratch() := ODir];
    err := false;
  }
}
