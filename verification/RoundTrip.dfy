/** Splitting a datadir into parts and extracting them together, in any interleaving. */
module RoundTrip {
  import opened Basics
  import opened Paths
  import opened FileTrees
  import opened SnapshotPlan
  import opened Disks
  import opened Extraction
  import opened PlainExtraction
  import opened Containment
  import opened Schedules

  /** e is the entry of a node the snapshot carries. */
  ghost predicate Describes(tree: Node, e: Entry) {
    InScope(tree, e.path) && e.obj == ObjOf(Lookup(tree, e.path).value)
  }

  /** Everything in fs below the root is as in the tree. */
  ghost predicate Agrees(fs: FileSystem, tree: Node) {
    forall p | p in fs && p != [] :: Lookup(tree, p).Some? && fs[p] == ObjOf(Lookup(tree, p).value)
  }

  /** p is an extracted path or an ancestor of one. */
  ghost predicate Covered(es: seq<Entry>, p: Path) {
    exists e :: e in es && !e.obj.OOther? && AtOrAbove(p, e.path)
  }

  ghost predicate LinksRelative(es: seq<Entry>) {
    forall e :: e in es && e.obj.OLink? ==> Linkable(e.obj.target)
  }

  lemma HeaderNameComesBack(tree: Node, e: Entry)
    requires ValidTree(tree) && Describes(tree, e)
    ensures e.path != [] && SafePath(HeaderOf(e).name) == Some(e.path)
  {
    LookupValid(tree, e.path);
    assert e.path[0] == "chaindata" || e.path[0] == "triedb";
    assert e.path[0][0] == 'c' || e.path[0][0] == 't';
    SafePathOfRendered(e.path);
    assert Render(e.path) + "" == Render(e.path);
  }

  lemma CoveredSnoc(es: seq<Entry>, e: Entry, p: Path)
    ensures Covered(es + [e], p) <==> Covered(es, p) || (!e.obj.OOther? && AtOrAbove(p, e.path))
  {
    assert forall x :: x in es + [e] <==> x in es || x == e;
  }

  /** A node that is not a directory is not an ancestor of another node. */
  lemma LeafIsNotAbove(tree: Node, e: Entry, d: Entry)
    requires Describes(tree, e) && Describes(tree, d) && !e.obj.ODir? && AtOrAbove(e.path, d.path)
    ensures e.path == d.path
  {
    assert d.path[..|e.path|] == e.path;
    if |e.path| < |d.path| { AncestorIsDir(tree, d.path, |e.path|); }
  }

  /** One more entry of the tree: it fails only for an absolute link, and keeps agreement. */
  lemma OneMore(tree: Node, es: seq<Entry>, e: Entry, fs: FileSystem)
    requires ValidTree(tree) && tree.Dir? && Describes(tree, e)
    requires forall d | d in es :: Describes(tree, d) && d.path != e.path
    requires Sound(fs) && Agrees(fs, tree) && forall p :: p in fs <==> p == [] || Covered(es, p)
    ensures PlainExtract(fs, HeaderOf(e)).Some? <==> !(e.obj.OLink? && !Linkable(e.obj.target))
    ensures PlainExtract(fs, HeaderOf(e)).Some? ==>
      && Sound(PlainExtract(fs, HeaderOf(e)).value) && Agrees(PlainExtract(fs, HeaderOf(e)).value, tree)
      && forall p :: p in PlainExtract(fs, HeaderOf(e)).value <==> p == [] || Covered(es + [e], p)
  {
    HeaderNameComesBack(tree, e);
    if e.obj.OOther? {
      forall p ensures Covered(es + [e], p) <==> Covered(es, p) { CoveredSnoc(es, e, p); }
    } else {
      AncestorsAreDirs(tree, e.path, fs);
      AboveParent(e.path);
      MkdirAllSucceeds(fs, Parent(e.path));
      MkdirAllAdds(fs, Parent(e.path));
      if e.path in fs && !e.obj.ODir? {
        var d :| d in es && !d.obj.OOther? && AtOrAbove(e.path, d.path);
        LeafIsNotAbove(tree, e, d);
        assert false;
      }
      if e.obj.ODir? { MkdirAllSucceeds(fs, e.path); }
      if PlainExtract(fs, HeaderOf(e)).Some? {
        MakeAdds(fs, e.path, e.obj);
        var fs' := PlainMake(fs, e.path, e.obj).value;
        forall p ensures p in fs' <==> p == [] || Covered(es + [e], p) { CoveredSnoc(es, e, p); }
        forall p | p in fs' && p != [] ensures Lookup(tree, p).Some? && fs'[p] == ObjOf(Lookup(tree, p).value) {
          if p !in fs && p != e.path {
            AncestorIsDir(tree, e.path, |p|);
            assert e.path[..|p|] == p;
          }
        }
      }
    }
  }

  lemma AncestorsAreDirs(tree: Node, p: Path, fs: FileSystem)
    requires Agrees(fs, tree) && Sound(fs) && p != [] && Lookup(tree, p).Some?
    ensures forall q | q in fs && AtOrAbove(q, Parent(p)) :: fs[q] == ODir
    ensures ObjOf(Lookup(tree, p).value).ODir? ==> forall q | q in fs && AtOrAbove(q, p) :: fs[q] == ODir
  {
    forall q | q in fs && AtOrAbove(q, p) && q != p && q != [] ensures fs[q] == ODir {
      AncestorIsDir(tree, p, |q|);
      assert p[..|q|] == q;
    }
    AboveParent(p);
    assert !(AtOrAbove(p, Parent(p)));
  }

  /** Extracting distinct entries of a tree, in any order. */
  lemma {:induction false} ExtractEntries(tree: Node, es: seq<Entry>)
    requires ValidTree(tree) && tree.Dir? && DistinctPaths(es)
    requires forall e | e in es :: Describes(tree, e)
    ensures PlainExtractAll(EMPTY_DIR, Headers(es)).Some? <==> LinksRelative(es)
    ensures PlainExtractAll(EMPTY_DIR, Headers(es)).Some? ==>
      && Sound(PlainExtractAll(EMPTY_DIR, Headers(es)).value)
          && Agrees(PlainExtractAll(EMPTY_DIR, Headers(es)).value, tree)
      && forall p :: p in PlainExtractAll(EMPTY_DIR, Headers(es)).value <==> p == [] || Covered(es, p)
  {
    if es != [] {
      var rest, e := es[..|es| - 1], es[|es| - 1];
      ExtractEntries(tree, rest);
      RestIsDistinct(es);
      LinksRelativeSnoc(rest, e);
      assert Headers(es)[..|es| - 1] == Headers(rest);
      assert PlainExtractAll(EMPTY_DIR, Headers(es)) ==
        (if LinksRelative(rest) then PlainExtract(PlainExtractAll(EMPTY_DIR, Headers(rest)).value,
            HeaderOf(e)) else None);
      hide PlainExtractAll, PlainExtract, HeaderOf, LinksRelative, Agrees, Sound, Covered;
      assert es == rest + [e];
      if LinksRelative(rest) {
        OneMore(tree, rest, e, PlainExtractAll(EMPTY_DIR, Headers(rest)).value);
      }
    }
  }

  lemma LinksRelativeSnoc(es: seq<Entry>, e: Entry)
    ensures LinksRelative(es + [e]) <==> LinksRelative(es) && !(e.obj.OLink? && !Linkable(e.obj.target))
  {
    assert forall x :: x in es + [e] <==> x in es || x == e;
  }

  lemma RestIsDistinct(es: seq<Entry>)
    requires es != [] && DistinctPaths(es)
    ensures es == es[..|es| - 1] + [es[|es| - 1]] && DistinctPaths(es[..|es| - 1])
    ensures forall d | d in es[..|es| - 1] :: d in es && d.path != es[|es| - 1].path
  {
  }

  // ---------------------------------------------------- the parts of a snapshot

  /** The entries of a planned part of a tree without links on the way. */
  lemma DirectPart(tree: Node, beyond: Beyond, j: nat)
    requires Direct(tree) && Tarred(tree, beyond).Some? && j < |PlanParts(tree, beyond)|
    ensures |Tarred(tree, beyond).value| == |PlanParts(tree, beyond)|
    ensures var spec := PlanParts(tree, beyond)[j];
      Lookup(tree, spec.sub).Some?
      && Tarred(tree, beyond).value[j] == Walk(Lookup(tree, spec.sub).value, spec.sub, SkipOf(spec))
  {
    var specs := PlanParts(tree, beyond);
    EntriesOfAllAt(tree, specs, beyond, j);
    assert specs[j] == LIVE || specs[j] == CHAIN_FREEZER || specs[j] == STATE_FREEZER || specs[j] == JOURNAL;
    SubsAreDirect(tree, beyond, specs[j].sub);
  }

  lemma MergedEntry(tree: Node, beyond: Beyond, sched: Schedule, a: nat)
    requires ValidTree(tree) && Direct(tree) && Tarred(tree, beyond).Some?
    requires Fits(Tarred(tree, beyond).value, sched) && a < |sched|
    ensures |Tarred(tree, beyond).value| == |PlanParts(tree, beyond)|
    ensures Belongs(tree, PlanParts(tree, beyond)[sched[a]], Merge(Tarred(tree, beyond).value, sched)[a])
    ensures Describes(tree, Merge(Tarred(tree, beyond).value, sched)[a])
  {
    var parts, specs := Tarred(tree, beyond).value, PlanParts(tree, beyond);
    var j := sched[a];
    DirectPart(tree, beyond, 0);
    DirectPart(tree, beyond, j);
    CountPrefix(sched, a, j);
    var e := Merge(parts, sched)[a];
    assert e in parts[j];
    PartHolds(tree, specs[j], e);
    var sub := specs[j].sub;
    assert specs[j] == LIVE || specs[j] == CHAIN_FREEZER || specs[j] == STATE_FREEZER || specs[j] == JOURNAL;
    assert CHAINDATA <= sub || TRIEDB <= sub;
  }

  lemma MergedDistinct(tree: Node, beyond: Beyond, sched: Schedule)
    requires ValidTree(tree) && Direct(tree) && Tarred(tree, beyond).Some? && Fits(Tarred(tree, beyond).value, sched)
    ensures DistinctPaths(Merge(Tarred(tree, beyond).value, sched))
  {
    var parts, specs := Tarred(tree, beyond).value, PlanParts(tree, beyond);
    var m := Merge(parts, sched);
    forall a, b | 0 <= a < b < |m| ensures m[a].path != m[b].path {
      MergedEntry(tree, beyond, sched, a);
      MergedEntry(tree, beyond, sched, b);
      var i, j := sched[a], sched[b];
      if i == j {
        DirectPart(tree, beyond, i);
        LookupValid(tree, specs[i].sub);
        WalkDistinct(Lookup(tree, specs[i].sub).value, specs[i].sub, SkipOf(specs[i]));
        TakenOnce(sched, a, b);
        CountPrefix(sched, b, i);
      } else {
        PartsDisjoint(tree, beyond, if i < j then i else j, if i < j then j else i, m[a].path);
      }
    }
  }

  lemma MergedHasAll(tree: Node, beyond: Beyond, sched: Schedule, spec: PartSpec, e: Entry)
    requires ValidTree(tree) && Direct(tree) && Tarred(tree, beyond).Some?
        && Complete(Tarred(tree, beyond).value, sched)
    requires spec in PlanParts(tree, beyond) && Belongs(tree, spec, e)
    ensures e in Merge(Tarred(tree, beyond).value, sched)
  {
    var parts, specs := Tarred(tree, beyond).value, PlanParts(tree, beyond);
    var j :| 0 <= j < |specs| && specs[j] == spec;
    DirectPart(tree, beyond, j);
    PartHolds(tree, spec, e);
    var k :| 0 <= k < |parts[j]| && parts[j][k] == e;
    MergeTakesAll(parts, sched, j, k);
  }

  // ------------------------------------------------------------- main theorem

  /** fs is the root directory with chaindata/ and triedb/ exactly as in the tree. */
  ghost predicate Rebuilds(fs: FileSystem, tree: Node) {
    && (forall p: Path :: p in fs <==> p == [] || InScope(tree, p))
    && [] in fs && fs[[]] == ODir && Agrees(fs, tree)
  }

  /**
   What a snapshot can carry: no special files, relative links only, no dangling optional
   directory, and a chaindata/ and an ancient/ that are not links.
   */
  ghost predicate Portable(tree: Node, beyond: Beyond) {
    && !IsLink(tree, CHAINDATA) && !IsLink(tree, ANCIENT) && OptionalResolve(tree, beyond)
    && forall p | InScope(tree, p) :: PortableObj(ObjOf(Lookup(tree, p).value))
  }

  predicate PortableObj(obj: Obj) {
    !obj.OOther? && (obj.OLink? ==> Linkable(obj.target))
  }

  lemma CoversWhenPortable(tree: Node, beyond: Beyond, sched: Schedule, p: Path)
    requires ValidTree(tree) && Direct(tree) && Tarred(tree, beyond).Some?
        && Complete(Tarred(tree, beyond).value, sched)
    requires Portable(tree, beyond) && InScope(tree, p)
    ensures Covered(Merge(Tarred(tree, beyond).value, sched), p)
  {
    // ancient/ itself is in no part: it comes back as the parent of ancient/chain.
    var q := if p == ANCIENT then CHAIN else p;
    assert Lookup(tree, CHAIN).Some? by { DirectPart(tree, beyond, 1); }
    var e := Entry(q, ObjOf(Lookup(tree, q).value));
    PartsCover(tree, beyond, q);
    var spec :| spec in PlanParts(tree, beyond) && Belongs(tree, spec, e);
    MergedHasAll(tree, beyond, sched, spec, e);
    assert PortableObj(e.obj) && AtOrAbove(p, e.path);
  }

  /** The entry that covers a path, and the part it came from. */
  lemma CoveringEntry(tree: Node, beyond: Beyond, sched: Schedule, p: Path) returns (spec: PartSpec, e: Entry)
    requires ValidTree(tree) && Direct(tree) && Tarred(tree, beyond).Some? && Fits(Tarred(tree, beyond).value, sched)
    requires Covered(Merge(Tarred(tree, beyond).value, sched), p)
    ensures spec in PlanParts(tree, beyond) && Belongs(tree, spec, e) && Describes(tree, e)
    ensures e in Merge(Tarred(tree, beyond).value, sched) && !e.obj.OOther? && AtOrAbove(p, e.path)
  {
    var m := Merge(Tarred(tree, beyond).value, sched);
    e :| e in m && !e.obj.OOther? && AtOrAbove(p, e.path);
    var a :| 0 <= a < |m| && m[a] == e;
    MergedEntry(tree, beyond, sched, a);
    spec := PlanParts(tree, beyond)[sched[a]];
  }

  lemma PortableIfRebuilt(tree: Node, beyond: Beyond, sched: Schedule, p: Path)
    requires ValidTree(tree) && Direct(tree) && Tarred(tree, beyond).Some? && Fits(Tarred(tree, beyond).value, sched)
    requires LinksRelative(Merge(Tarred(tree, beyond).value, sched))
    requires InScope(tree, p) && Covered(Merge(Tarred(tree, beyond).value, sched), p)
    ensures PortableObj(ObjOf(Lookup(tree, p).value))
  {
    var spec, e := CoveringEntry(tree, beyond, sched, p);
    var here := Entry(p, ObjOf(Lookup(tree, p).value));
    if !here.obj.ODir? { LeafIsNotAbove(tree, here, e); }
  }

  lemma PlannedIfRebuilt(tree: Node, beyond: Beyond, sched: Schedule, p: Path)
    requires ValidTree(tree) && Direct(tree) && Tarred(tree, beyond).Some? && Fits(Tarred(tree, beyond).value, sched)
    requires p == STATE || p == TRIEDB
    requires Covered(Merge(Tarred(tree, beyond).value, sched), p)
    ensures Stat(tree, p, beyond)
  {
    var spec, e := CoveringEntry(tree, beyond, sched, p);
    SubsAreDirect(tree, beyond, p);
    assert spec == LIVE || spec == CHAIN_FREEZER || spec == STATE_FREEZER || spec == JOURNAL;
    assert e.path[0] == p[0];
    if p == STATE {
      assert ANCIENT <= e.path && e.path[2] == "state";
      assert CHAIN[2] != "state" && TRIEDB[0] != "chaindata";
      assert spec == STATE_FREEZER;
      assert |LIVE.sub| == 1 && |JOURNAL.sub| == 1 && CHAIN_FREEZER.sub[2] != STATE_FREEZER.sub[2];
    } else {
      assert CHAINDATA[0] != "triedb";
      assert spec == JOURNAL;
      assert LIVE.live && |CHAIN_FREEZER.sub| == 3 && |STATE_FREEZER.sub| == 3;
    }
  }

  lemma MergedIsOfTree(tree: Node, beyond: Beyond, sched: Schedule)
    requires ValidTree(tree) && Direct(tree) && Tarred(tree, beyond).Some? && Fits(Tarred(tree, beyond).value, sched)
    ensures forall e | e in Merge(Tarred(tree, beyond).value, sched) :: Describes(tree, e)
    ensures DistinctPaths(Merge(Tarred(tree, beyond).value, sched))
  {
    var m := Merge(Tarred(tree, beyond).value, sched);
    forall e | e in m ensures Describes(tree, e) {
      var a :| 0 <= a < |m| && m[a] == e;
      MergedEntry(tree, beyond, sched, a);
    }
    MergedDistinct(tree, beyond, sched);
  }

  lemma PortableRebuilds(tree: Node, beyond: Beyond, sched: Schedule)
    requires ValidTree(tree) && Direct(tree) && Tarred(tree, beyond).Some?
    requires Complete(Tarred(tree, beyond).value, sched) && Portable(tree, beyond)
    ensures var r := PlainExtractAll(EMPTY_DIR, Headers(Merge(Tarred(tree, beyond).value, sched)));
      r.Some? && Rebuilds(r.value, tree)
  {
    var m := Merge(Tarred(tree, beyond).value, sched);
    MergedIsOfTree(tree, beyond, sched);
    forall e | e in m && e.obj.OLink? ensures Linkable(e.obj.target) { assert PortableObj(e.obj); }
    ExtractEntries(tree, m);
    var fs := PlainExtractAll(EMPTY_DIR, Headers(m)).value;
    forall p: Path ensures p in fs <==> p == [] || InScope(tree, p) {
      if InScope(tree, p) { CoversWhenPortable(tree, beyond, sched, p); }
      if Covered(m, p) && p != [] { CoveredInScope(tree, m, p); }
    }
  }

  lemma RebuiltIsPortable(tree: Node, beyond: Beyond, sched: Schedule, fs: FileSystem)
    requires ValidTree(tree) && Direct(tree) && Tarred(tree, beyond).Some?
    requires Complete(Tarred(tree, beyond).value, sched)
    requires PlainExtractAll(EMPTY_DIR, Headers(Merge(Tarred(tree, beyond).value, sched))) == Some(fs)
    requires Rebuilds(fs, tree)
    ensures Portable(tree, beyond)
  {
    var m := Merge(Tarred(tree, beyond).value, sched);
    MergedIsOfTree(tree, beyond, sched);
    ExtractEntries(tree, m);
    assert LinksRelative(m);
    forall p | InScope(tree, p) ensures Covered(m, p) { ScopeIsNotRoot(tree, p); }
    hide *;
    forall p | InScope(tree, p)
      ensures Lookup(tree, p).Some? && PortableObj(ObjOf(Lookup(tree, p).value))
      ensures p == STATE || p == TRIEDB ==> Stat(tree, p, beyond)
    {
      ScopeIsNotRoot(tree, p);
      PathIsPortable(tree, beyond, sched, p);
    }
    AllPathsPortable(tree, beyond);
  }

  lemma ScopeIsNotRoot(tree: Node, p: Path)
    requires InScope(tree, p)
    ensures p != [] && Lookup(tree, p).Some?
  {
  }

  lemma AllPathsPortable(tree: Node, beyond: Beyond)
    requires Direct(tree)
    requires forall p | InScope(tree, p) :: Lookup(tree, p).Some? && PortableObj(ObjOf(Lookup(tree, p).value))
    requires forall p | InScope(tree, p) :: p == STATE || p == TRIEDB ==> Stat(tree, p, beyond)
    ensures Portable(tree, beyond)
  {
    hide Lookup, Stat, PortableObj;
    assert CHAINDATA <= STATE;
  }

  lemma PathIsPortable(tree: Node, beyond: Beyond, sched: Schedule, p: Path)
    requires ValidTree(tree) && Direct(tree) && Tarred(tree, beyond).Some? && Fits(Tarred(tree, beyond).value, sched)
    requires LinksRelative(Merge(Tarred(tree, beyond).value, sched))
    requires InScope(tree, p) && Covered(Merge(Tarred(tree, beyond).value, sched), p)
    ensures PortableObj(ObjOf(Lookup(tree, p).value))
    ensures p == STATE || p == TRIEDB ==> Stat(tree, p, beyond)
  {
    hide PortableObj, Covered, Lookup, Stat, Merge, Tarred;
    PortableIfRebuilt(tree, beyond, sched, p);
    if p == STATE || p == TRIEDB { PlannedIfRebuilt(tree, beyond, sched, p); }
  }

  // ------------------------------------------------ ancient/ kept on another volume

  /** What an extraction holds: directories, and objects its entries named. */
  ghost predicate Named(fs: FileSystem, es: seq<Entry>) {
    forall p | p in fs :: fs[p] == ODir || Entry(p, fs[p]) in es
  }

  lemma MakeKeepsNamed(fs: FileSystem, es: seq<Entry>, e: Entry)
    requires Sound(fs) && Named(fs, es) && ValidPath(e.path) && e.path != []
    requires PlainMake(fs, e.path, e.obj).Some?
    ensures Sound(PlainMake(fs, e.path, e.obj).value) && Named(PlainMake(fs, e.path, e.obj).value, es + [e])
  {
    if !e.obj.OOther? { MakeAdds(fs, e.path, e.obj); }
  }

  /** Entries of the four parts, whatever stands behind their links. */
  ghost predicate UnderRoots(e: Entry) {
    ValidPath(e.path) && (CHAINDATA <= e.path || TRIEDB <= e.path)
  }

  lemma RootedNameComesBack(e: Entry)
    requires UnderRoots(e)
    ensures e.path != [] && SafePath(HeaderOf(e).name) == Some(e.path)
  {
    assert e.path[0] == "chaindata" || e.path[0] == "triedb";
    assert e.path[0][0] == 'c' || e.path[0][0] == 't';
    SafePathOfRendered(e.path);
    assert Render(e.path) + "" == Render(e.path);
  }

  /** The last entry of a successful extraction. */
  lemma {:induction false} LastEntry(es: seq<Entry>)
    requires es != [] && UnderRoots(es[|es| - 1]) && PlainExtractAll(EMPTY_DIR, Headers(es)).Some?
    ensures var before := PlainExtractAll(EMPTY_DIR, Headers(es[..|es| - 1]));
      before.Some? && PlainExtractAll(EMPTY_DIR, Headers(es)) ==
          PlainMake(before.value, es[|es| - 1].path, es[|es| - 1].obj)
  {
    assert Headers(es)[..|es| - 1] == Headers(es[..|es| - 1]);
    RootedNameComesBack(es[|es| - 1]);
  }

  lemma NamedPath(e: Entry)
    requires UnderRoots(e)
    ensures ValidPath(e.path) && e.path != []
  {
  }

  lemma NothingIsNamed()
    ensures PlainExtractAll(EMPTY_DIR, Headers([])) == Some(EMPTY_DIR) && Sound(EMPTY_DIR) && Named(EMPTY_DIR, [])
  {
  }

  lemma {:induction false} ExtractedIsNamed(es: seq<Entry>)
    requires (forall e | e in es :: UnderRoots(e)) && PlainExtractAll(EMPTY_DIR, Headers(es)).Some?
    ensures Sound(PlainExtractAll(EMPTY_DIR, Headers(es)).value)
        && Named(PlainExtractAll(EMPTY_DIR, Headers(es)).value, es)
  {
    if es == [] {
      NothingIsNamed();
    } else {
      var rest, e := es[..|es| - 1], es[|es| - 1];
      assert es == rest + [e];
      assert e in es && forall d | d in rest :: d in es;
      LastEntry(es);
      NamedPath(e);
      hide *;
      ExtractedIsNamed(rest);
      MakeKeepsNamed(PlainExtractAll(EMPTY_DIR, Headers(rest)).value, rest, e);
    }
  }

  /** No part lists ancient/ itself, and every entry is under chaindata/ or triedb/. */
  lemma NoPartListsAncient(tree: Node, beyond: Beyond, sched: Schedule, e: Entry)
    requires ValidTree(tree) && ValidBeyond(beyond) && Tarred(tree, beyond).Some?
    requires Fits(Tarred(tree, beyond).value, sched) && e in Merge(Tarred(tree, beyond).value, sched)
    ensures UnderRoots(e) && e.path != ANCIENT
  {
    var parts, specs := Tarred(tree, beyond).value, PlanParts(tree, beyond);
    var a :| 0 <= a < |sched| && Merge(parts, sched)[a] == e;
    var j := sched[a];
    CountPrefix(sched, a, j);
    EntriesOfAllAt(tree, specs, beyond, j);
    PartIsRooted(tree, beyond, specs[j], e);
  }

  lemma PartIsRooted(tree: Node, beyond: Beyond, spec: PartSpec, e: Entry)
    requires ValidTree(tree) && ValidBeyond(beyond) && spec in {LIVE, CHAIN_FREEZER, STATE_FREEZER, JOURNAL}
    requires PartEntries(tree, spec, beyond).Some? && e in PartEntries(tree, spec, beyond).value
    ensures UnderRoots(e) && e.path != ANCIENT
  {
    var n := Reach(tree, [], spec.sub, beyond).value;
    ReachValid(tree, [], spec.sub, beyond);
    WalkStaysBelow(n, spec.sub, SkipOf(spec));
    WalkSkips(n, spec.sub, SkipOf(spec));
    WalkEmits(n, spec.sub, SkipOf(spec), e);
    LookupValid(n, e.path[|spec.sub|..]);
    assert e.path == spec.sub + e.path[|spec.sub|..];
    assert ValidPath(e.path);
    SkipAncientIff(e.path);
  }

  /** A link at ancient/ is skipped by the live part and comes back as a directory, or not at all. */
  lemma LinkedAncientIsLost(tree: Node, beyond: Beyond, sched: Schedule)
    requires ValidTree(tree) && ValidBeyond(beyond) && Tarred(tree, beyond).Some?
    requires Fits(Tarred(tree, beyond).value, sched) && IsLink(tree, ANCIENT)
    ensures var r := PlainExtractAll(EMPTY_DIR, Headers(Merge(Tarred(tree, beyond).value, sched)));
      r.Some? ==> (ANCIENT in r.value ==> r.value[ANCIENT] == ODir) && !Rebuilds(r.value, tree)
  {
    var m := Merge(Tarred(tree, beyond).value, sched);
    forall e | e in m ensures UnderRoots(e) && e.path != ANCIENT { NoPartListsAncient(tree, beyond, sched, e); }
    hide *;
    if PlainExtractAll(EMPTY_DIR, Headers(m)).Some? {
      ExtractedIsNamed(m);
      NotRebuilt(PlainExtractAll(EMPTY_DIR, Headers(m)).value, m, tree);
    }
  }

  lemma NotRebuilt(fs: FileSystem, es: seq<Entry>, tree: Node)
    requires Named(fs, es) && IsLink(tree, ANCIENT) && forall e | e in es :: e.path != ANCIENT
    ensures ANCIENT in fs ==> fs[ANCIENT] == ODir
    ensures !Rebuilds(fs, tree)
  {
    assert InScope(tree, ANCIENT);
    assert ANCIENT != [];
  }

  /** Plain extraction of the parts rebuilds the tree exactly when it is portable. */
  lemma PlainRebuildsIff(tree: Node, beyond: Beyond, sched: Schedule)
    requires ValidTree(tree) && tree.Dir? && ValidBeyond(beyond) && !IsLink(tree, CHAINDATA)
    requires Tarred(tree, beyond).Some? && Complete(Tarred(tree, beyond).value, sched)
    ensures var r := PlainExtractAll(EMPTY_DIR, Headers(Merge(Tarred(tree, beyond).value, sched)));
      r.Some? && Rebuilds(r.value, tree) <==> Portable(tree, beyond)
  {
    var r := PlainExtractAll(EMPTY_DIR, Headers(Merge(Tarred(tree, beyond).value, sched)));
    if IsLink(tree, ANCIENT) {
      LinkedAncientIsLost(tree, beyond, sched);
    } else {
      if Portable(tree, beyond) { PortableRebuilds(tree, beyond, sched); }
      if r.Some? && Rebuilds(r.value, tree) { RebuiltIsPortable(tree, beyond, sched, r.value); }
    }
  }


  // ------------------------------------------------------------ on a real disk

  /** The tar streams of the parts. */
  function HeaderStreams(parts: seq<seq<Entry>>): (streams: seq<seq<TarEntry>>)
    ensures |streams| == |parts| && forall j :: 0 <= j < |parts| ==> streams[j] == Headers(parts[j])
  {
    if parts == [] then [] else HeaderStreams(parts[..|parts| - 1]) + [Headers(parts[|parts| - 1])]
  }

  /** What an entry of a part says about it, whatever stands behind links. */
  ghost predicate FromPart(tree: Node, beyond: Beyond, spec: PartSpec, e: Entry) {
    && UnderRoots(e) && spec in {LIVE, CHAIN_FREEZER, STATE_FREEZER, JOURNAL}
    && spec.sub <= e.path && (spec.live ==> !(ANCIENT <= e.path))
    && Reach(tree, [], spec.sub, beyond).Some?
    && var n := Lookup(Reach(tree, [], spec.sub, beyond).value, e.path[|spec.sub|..]);
       n.Some? && e.obj == ObjOf(n.value)
  }

  lemma PartEntryFrom(tree: Node, beyond: Beyond, spec: PartSpec, e: Entry)
    requires ValidTree(tree) && ValidBeyond(beyond) && spec in {LIVE, CHAIN_FREEZER, STATE_FREEZER, JOURNAL}
    requires PartEntries(tree, spec, beyond).Some? && e in PartEntries(tree, spec, beyond).value
    ensures FromPart(tree, beyond, spec, e)
  {
    var n := Reach(tree, [], spec.sub, beyond).value;
    PartIsRooted(tree, beyond, spec, e);
    ReachValid(tree, [], spec.sub, beyond);
    WalkEmits(n, spec.sub, SkipOf(spec), e);
    WalkSkips(n, spec.sub, SkipOf(spec));
    SkipAncientIff(e.path);
  }

  /** A link of one part is never on the way of an entry, unless chaindata/ itself is the link. */
  lemma PartLinkIsLeaf(tree: Node, beyond: Beyond, a: PartSpec, l: Entry, b: PartSpec, e: Entry)
    requires tree.Dir? && (a == LIVE ==> !IsLink(tree, CHAINDATA))
    requires FromPart(tree, beyond, a, l) && FromPart(tree, beyond, b, e) && l.obj.OLink? && l.path <= e.path
    ensures l.path == e.path && e.obj.OLink?
  {
    if a == b {
      var n := Reach(tree, [], a.sub, beyond).value;
      var lp, ep := l.path[|a.sub|..], e.path[|a.sub|..];
      assert ep[..|lp|] == lp;
      if |lp| < |ep| { AncestorIsDir(n, ep, |lp|); }
      assert lp == ep;
      assert l.path == a.sub + lp && e.path == a.sub + ep;
    } else {
      LinkAcrossParts(tree, beyond, a, l, b, e);
    }
  }

  lemma OnlyChaindataIsAbove(p: Path, q: Path)
    requires CHAINDATA <= p && !(ANCIENT <= p) && ANCIENT <= q && p <= q
    ensures p == CHAINDATA
  {
    if |p| >= 2 { AncientOnTheWay(p, q); }
  }

  lemma AncientOnTheWay(p: Path, q: Path)
    requires ANCIENT <= q && p <= q && |p| >= 2
    ensures ANCIENT <= p
  {
    assert p[..2] == q[..2];
  }

  lemma LinkAtChaindata(tree: Node, beyond: Beyond, l: Entry)
    requires tree.Dir? && FromPart(tree, beyond, LIVE, l) && l.obj.OLink? && l.path == CHAINDATA
    ensures IsLink(tree, CHAINDATA)
  {
    assert LIVE.sub == CHAINDATA && l.path[|CHAINDATA|..] == [] && CHAINDATA[..0] == [];
    assert Lookup(tree, []) == Some(tree);
    forall k | 0 <= k < |CHAINDATA|
        && Lookup(tree, CHAINDATA[..k]).Some? ensures !Lookup(tree, CHAINDATA[..k]).value.Link? {
      assert k == 0;
    }
    ReachDirect(tree, [], CHAINDATA, beyond);
  }

  /** Only a link at chaindata/ could be above an entry of another part. */
  lemma LinkAcrossParts(tree: Node, beyond: Beyond, a: PartSpec, l: Entry, b: PartSpec, e: Entry)
    requires tree.Dir? && (a == LIVE ==> !IsLink(tree, CHAINDATA)) && a != b
    requires FromPart(tree, beyond, a, l) && FromPart(tree, beyond, b, e) && l.obj.OLink?
    ensures !(l.path <= e.path)
  {
    if l.path <= e.path && a == LIVE && (b == CHAIN_FREEZER || b == STATE_FREEZER) {
      OnlyChaindataIsAbove(l.path, e.path);
      LinkAtChaindata(tree, beyond, l);
    }
    PartRoots(a, l.path);
    PartRoots(b, e.path);
  }

  /** What the first segments say about the part. */
  lemma PartRoots(spec: PartSpec, p: Path)
    requires spec in {LIVE, CHAIN_FREEZER, STATE_FREEZER, JOURNAL} && spec.sub <= p
    ensures p[0] == (if spec == JOURNAL then "triedb" else "chaindata")
    ensures spec == CHAIN_FREEZER || spec == STATE_FREEZER ==>
      ANCIENT <= p && |p| > 2 && p[2] == if spec == CHAIN_FREEZER then "chain" else "state"
  {
    assert LIVE.sub[0] == "chaindata" && JOURNAL.sub[0] == "triedb";
  }

  /** The streams of every accepted upload have no link on the way, unless chaindata/ is one. */
  lemma UploadedStreamsArePlain(tree: Node, beyond: Beyond)
    requires ValidTree(tree) && tree.Dir? && ValidBeyond(beyond) && !IsLink(tree, CHAINDATA)
        && Tarred(tree, beyond).Some?
    ensures NoLinkOnTheWay(HeaderStreams(Tarred(tree, beyond).value))
  {
    var streams := HeaderStreams(Tarred(tree, beyond).value);
    forall l, e | Among(streams, l) && Among(streams, e) ensures !InTheWay(l, e) {
      var a, le := EntryOf(tree, beyond, l);
      var b, ee := EntryOf(tree, beyond, e);
      hide *;
      HeaderFacts(tree, beyond, a, le);
      HeaderFacts(tree, beyond, b, ee);
      NotInTheWay(tree, beyond, a, le, b, ee);
    }
  }

  lemma HeaderFacts(tree: Node, beyond: Beyond, spec: PartSpec, e: Entry)
    requires FromPart(tree, beyond, spec, e)
    ensures HeaderOf(e).obj == e.obj && SafePath(HeaderOf(e).name) == Some(e.path)
  {
    RootedNameComesBack(e);
  }

  lemma NotInTheWay(tree: Node, beyond: Beyond, a: PartSpec, l: Entry, b: PartSpec, e: Entry)
    requires tree.Dir? && (a == LIVE ==> !IsLink(tree, CHAINDATA))
    requires FromPart(tree, beyond, a, l) && FromPart(tree, beyond, b, e)
    requires HeaderOf(l).obj == l.obj && SafePath(HeaderOf(l).name) == Some(l.path)
    requires HeaderOf(e).obj == e.obj && SafePath(HeaderOf(e).name) == Some(e.path)
    ensures !InTheWay(HeaderOf(l), HeaderOf(e))
  {
    hide HeaderOf, SafePath;
    if l.obj.OLink? && l.path <= e.path { PartLinkIsLeaf(tree, beyond, a, l, b, e); }
  }

  /** The part and the tree entry behind a tar entry. */
  lemma EntryOf(tree: Node, beyond: Beyond, t: TarEntry) returns (spec: PartSpec, e: Entry)
    requires ValidTree(tree) && ValidBeyond(beyond) && Tarred(tree, beyond).Some?
    requires Among(HeaderStreams(Tarred(tree, beyond).value), t)
    ensures FromPart(tree, beyond, spec, e) && t == HeaderOf(e)
  {
    var parts := Tarred(tree, beyond).value;
    var j, k :| 0 <= j < |parts| && 0 <= k < |HeaderStreams(parts)[j]| && HeaderStreams(parts)[j][k] == t;
    PartAt(tree, beyond, j);
    spec, e := PlanParts(tree, beyond)[j], parts[j][k];
    hide *;
    assert e in parts[j];
    PartEntryFrom(tree, beyond, spec, e);
  }

  lemma PartAt(tree: Node, beyond: Beyond, j: nat)
    requires Tarred(tree, beyond).Some? && j < |Tarred(tree, beyond).value|
    ensures j < |PlanParts(tree, beyond)|
    ensures PlanParts(tree, beyond)[j] in {LIVE, CHAIN_FREEZER, STATE_FREEZER, JOURNAL}
    ensures PartEntries(tree, PlanParts(tree, beyond)[j], beyond) == Some(Tarred(tree, beyond).value[j])
  {
    EntriesOfAllAt(tree, PlanParts(tree, beyond), beyond, j);
  }

  /** The tree is back and so is everything the parts carried: nothing went through a link to somewhere else. */
  ghost predicate ComesBack(fs: FileSystem, tree: Node, parts: seq<seq<Entry>>) {
    Rebuilds(fs, tree) && forall j: nat, e: Entry | j < |parts| && e in parts[j] :: e.path in fs
  }

  /** With chaindata/ a link, the freezer cannot be back under it. */
  lemma LinkedChaindataIsNotBack(tree: Node, beyond: Beyond, fs: FileSystem)
    requires Tarred(tree, beyond).Some? && IsLink(tree, CHAINDATA) && Sound(fs)
    ensures !ComesBack(fs, tree, Tarred(tree, beyond).value)
  {
    var parts := Tarred(tree, beyond).value;
    EntriesOfAllAt(tree, PlanParts(tree, beyond), beyond, 1);
    var n := Reach(tree, [], CHAIN, beyond).value;
    assert parts[1] == Walk(n, CHAIN, NoSkip);
    assert parts[1][0] == Entry(CHAIN, ObjOf(n));
    assert parts[1][0] in parts[1] && CHAIN[..1] == CHAINDATA && InScope(tree, CHAINDATA);
  }

  /** Where no link is on the way to a part, a rebuilt tree has everything that the parts carried. */
  lemma DirectRebuildIsBack(tree: Node, beyond: Beyond, fs: FileSystem)
    requires ValidTree(tree) && Direct(tree) && Tarred(tree, beyond).Some? && Rebuilds(fs, tree)
    ensures ComesBack(fs, tree, Tarred(tree, beyond).value)
  {
    var parts, specs := Tarred(tree, beyond).value, PlanParts(tree, beyond);
    DirectPart(tree, beyond, 0);
    forall j: nat, e: Entry | j < |parts| && e in parts[j] ensures e.path in fs {
      DirectPart(tree, beyond, j);
      PartHolds(tree, specs[j], e);
      assert specs[j] == LIVE || specs[j] == CHAIN_FREEZER || specs[j] == STATE_FREEZER || specs[j] == JOURNAL;
      assert InScope(tree, e.path);
    }
  }

  /** Every entry of the merged streams is among them. */
  lemma MergedAmong(parts: seq<seq<Entry>>, sched: Schedule)
    requires Fits(parts, sched)
    ensures forall t | t in Headers(Merge(parts, sched)) :: Among(HeaderStreams(parts), t)
  {
    var m := Merge(parts, sched);
    forall t | t in Headers(m) ensures Among(HeaderStreams(parts), t) {
      var a :| 0 <= a < |sched| && Headers(m)[a] == t;
      CountPrefix(sched, a, sched[a]);
      assert m[a] == parts[sched[a]][Count(sched[..a], sched[a])];
      assert HeaderStreams(parts)[sched[a]][Count(sched[..a], sched[a])] == t;
    }
  }

  lemma EmptyHasNoLinks(fs: FileSystem, root: Path, streams: seq<seq<TarEntry>>)
    requires Sub(fs, root) == EMPTY_DIR
    ensures LinksAmong(fs, root, streams)
  {
  }

  /** On a real disk the parts of an upload extract as they do plainly, unless chaindata/ is a link. */
  lemma PartsExtractPlainly(tree: Node, beyond: Beyond, sched: Schedule, fs: FileSystem, root: Path)
    requires ValidTree(tree) && tree.Dir? && ValidBeyond(beyond) && !IsLink(tree, CHAINDATA)
        && Tarred(tree, beyond).Some?
    requires Fits(Tarred(tree, beyond).value, sched) && Rooted(fs, root) && Sub(fs, root) == EMPTY_DIR
    ensures var ts := Headers(Merge(Tarred(tree, beyond).value, sched));
      var r, plain := ExtractAll(fs, root, ts), PlainExtractAll(EMPTY_DIR, ts);
      (r.Some? <==> plain.Some?) && (r.Some? ==> Only(fs, root, r.value, plain.value))
  {
    UploadedStreamsArePlain(tree, beyond);
    MergedAmong(Tarred(tree, beyond).value, sched);
    EmptyHasNoLinks(fs, root, HeaderStreams(Tarred(tree, beyond).value));
    hide *;
    SequenceIsPlain(fs, root, HeaderStreams(Tarred(tree, beyond).value), Headers(Merge(Tarred(tree,
        beyond).value, sched)));
  }

  /**
   The datadir round trip.  For every tree an upload accepts, every interleaving of the
   parts' entries and every disk with an empty directory to extract into: extraction
   succeeds and chaindata/ and triedb/ come back exactly, with all that the parts carried,
   if and only if the tree is portable.  Nothing outside that directory changes, unless
   chaindata/ is itself a link.
   */
  lemma RebuildsExactlyWhenPortable(tree: Node, beyond: Beyond, sched: Schedule, fs: FileSystem, root: Path)
    requires ValidTree(tree) && tree.Dir? && ValidBeyond(beyond)
    requires Tarred(tree, beyond).Some? && Complete(Tarred(tree, beyond).value, sched)
    requires Rooted(fs, root) && Sub(fs, root) == EMPTY_DIR
    ensures var r := ExtractAll(fs, root, Headers(Merge(Tarred(tree, beyond).value, sched)));
      && (r.Some? && ComesBack(Sub(r.value, root), tree, Tarred(tree, beyond).value) <==> Portable(tree, beyond))
      && (r.Some? && !IsLink(tree, CHAINDATA) ==>
            SameOutside(fs, r.value, root) && (Rebuilds(Sub(r.value, root), tree) <==> Portable(tree, beyond)))
  {
    var parts := Tarred(tree, beyond).value;
    var ts := Headers(Merge(parts, sched));
    var r := ExtractAll(fs, root, ts);
    if IsLink(tree, CHAINDATA) {
      if r.Some? {
        ExtractionStaysRooted(fs, root, ts);
        SubIsSound(r.value, root);
        LinkedChaindataIsNotBack(tree, beyond, Sub(r.value, root));
      }
    } else {
      PartsExtractPlainly(tree, beyond, sched, fs, root);
      PlainRebuildsIff(tree, beyond, sched);
      if r.Some? && Portable(tree, beyond) { DirectRebuildIsBack(tree, beyond, Sub(r.value, root)); }
    }
  }

  // ------------------------------------------------ chaindata/ kept on another volume

  /** The streams of the parts other than the live one are plain among themselves, whatever chaindata/ is. */
  lemma OtherStreamsArePlain(tree: Node, beyond: Beyond)
    requires ValidTree(tree) && tree.Dir? && ValidBeyond(beyond) && Tarred(tree, beyond).Some?
    requires |Tarred(tree, beyond).value| > 0
    ensures NoLinkOnTheWay(HeaderStreams(Tarred(tree, beyond).value[1..]))
  {
    var parts := Tarred(tree, beyond).value;
    var streams := HeaderStreams(parts[1..]);
    forall l, e | Among(streams, l) && Among(streams, e) ensures !InTheWay(l, e) {
      var a, le := OtherEntryOf(tree, beyond, l);
      var b, ee := OtherEntryOf(tree, beyond, e);
      hide *;
      HeaderFacts(tree, beyond, a, le);
      HeaderFacts(tree, beyond, b, ee);
      NotInTheWay(tree, beyond, a, le, b, ee);
    }
  }

  lemma OtherEntryOf(tree: Node, beyond: Beyond, t: TarEntry) returns (spec: PartSpec, e: Entry)
    requires ValidTree(tree) && ValidBeyond(beyond) && Tarred(tree, beyond).Some? && |Tarred(tree, beyond).value| > 0
    requires Among(HeaderStreams(Tarred(tree, beyond).value[1..]), t)
    ensures FromPart(tree, beyond, spec, e) && t == HeaderOf(e) && spec != LIVE
  {
    var parts := Tarred(tree, beyond).value;
    var others := parts[1..];
    var j, k :| 0 <= j < |others| && 0 <= k < |HeaderStreams(others)[j]| && HeaderStreams(others)[j][k] == t;
    PartAt(tree, beyond, j + 1);
    LaterPartsAreNotLive(tree, beyond, j + 1);
    spec, e := PlanParts(tree, beyond)[j + 1], others[j][k];
    assert others[j] == parts[j + 1];
    hide *;
    assert e in parts[j + 1];
    PartEntryFrom(tree, beyond, spec, e);
  }

  lemma LaterPartsAreNotLive(tree: Node, beyond: Beyond, j: nat)
    requires 0 < j < |PlanParts(tree, beyond)|
    ensures PlanParts(tree, beyond)[j] != LIVE
  {
  }

  /** The live part of a tree whose chaindata/ is a link is that link alone. */
  lemma LinkedChaindataIsOneEntry(tree: Node, beyond: Beyond)
    requires tree.Dir? && IsLink(tree, CHAINDATA) && Tarred(tree, beyond).Some?
    ensures var parts := Tarred(tree, beyond).value;
      |parts| > 1 && |parts[0]| <= 1 && forall e | e in parts[0] :: e.path == CHAINDATA && e.obj.OLink?
  {
    EntriesOfAllAt(tree, PlanParts(tree, beyond), beyond, 0);
    assert Lookup(tree, []) == Some(tree) && CHAINDATA[..0] == [];
    forall k | 0 <= k < |CHAINDATA|
        && Lookup(tree, CHAINDATA[..k]).Some? ensures !Lookup(tree, CHAINDATA[..k]).value.Link? {
      assert k == 0;
    }
    ReachDirect(tree, [], CHAINDATA, beyond);
  }

  lemma InitAndLast<T>(s: seq<T>)
    requires s != []
    ensures forall x | x in s[..|s| - 1] :: x in s
    ensures forall x | x in s :: x in s[..|s| - 1] || x == s[|s| - 1]
    ensures s[|s| - 1] in s
  {
    assert s == s[..|s| - 1] + [s[|s| - 1]];
  }

  /** What plain extraction was asked to make is there. */
  lemma {:induction false} ExtractedIsThere(es: seq<Entry>, e: Entry)
    requires (forall d | d in es :: UnderRoots(d)) && PlainExtractAll(EMPTY_DIR, Headers(es)).Some?
    requires e in es && !e.obj.OOther?
    ensures e.path in PlainExtractAll(EMPTY_DIR, Headers(es)).value
  {
    hide *;
    var rest, last := es[..|es| - 1], es[|es| - 1];
    InitAndLast(es);
    LastEntry(es);
    NamedPath(last);
    ExtractedIsNamed(rest);
    StaysThere(PlainExtractAll(EMPTY_DIR, Headers(rest)).value, last);
    if e != last { ExtractedIsThere(rest, e); }
  }

  lemma StaysThere(fs: FileSystem, e: Entry)
    requires Sound(fs) && PlainMake(fs, e.path, e.obj).Some? && e.path != []
    ensures forall q | q in fs :: q in PlainMake(fs, e.path, e.obj).value
    ensures !e.obj.OOther? ==> e.path in PlainMake(fs, e.path, e.obj).value
  {
    if !e.obj.OOther? { MakeAdds(fs, e.path, e.obj); }
  }

  /**
   Where chaindata/ is a link, the parts are not independent: an interleaving that takes a
   freezer entry first makes a directory there, and then the link of the live part fails.
   */
  lemma {:induction false} DirectoryFirstFails(tree: Node, beyond: Beyond, sched: Schedule, fs: FileSystem,
      root: Path, a: nat, b: nat)
    requires ValidTree(tree) && tree.Dir? && ValidBeyond(beyond) && IsLink(tree, CHAINDATA)
        && Tarred(tree, beyond).Some?
    requires Fits(Tarred(tree, beyond).value, sched) && Rooted(fs, root) && Sub(fs, root) == EMPTY_DIR
    requires b < a < |sched| && sched[a] == 0 && sched[b] == 1
    requires !Merge(Tarred(tree, beyond).value, sched)[b].obj.OOther?
    ensures ExtractAll(fs, root, Headers(Merge(Tarred(tree, beyond).value, sched))).None?
  {
    var parts := Tarred(tree, beyond).value;
    var m := Merge(parts, sched);
    LinkedChaindataIsOneEntry(tree, beyond);
    BeforeTheLink(tree, beyond, sched, a);
    TakenFrom(parts, sched, a);
    TakenFrom(parts, sched, b);
    assert m[b] == m[..a][b];
    PartAt(tree, beyond, 1);
    PartEntryFrom(tree, beyond, CHAIN_FREEZER, m[b]);
    OtherStreamsArePlain(tree, beyond);
    EmptyHasNoLinks(fs, root, HeaderStreams(parts[1..]));
    HeadersPrefix(m, a);
    CarriedBelow(tree, beyond, m[b]);
    hide *;
    LinkHasNoRoom(fs, root, HeaderStreams(parts[1..]), m[..a], m[a], m[b]);
    FailsAt(fs, root, Headers(m), a);
  }

  lemma CarriedBelow(tree: Node, beyond: Beyond, e: Entry)
    requires FromPart(tree, beyond, CHAIN_FREEZER, e)
    ensures CHAIN <= e.path
  {
  }

  lemma TakenFrom(parts: seq<seq<Entry>>, sched: Schedule, a: nat)
    requires Fits(parts, sched) && a < |sched|
    ensures sched[a] < |parts| && Merge(parts, sched)[a] in parts[sched[a]]
  {
    CountPrefix(sched, a, sched[a]);
  }

  lemma {:induction false} HeadersPrefix(m: seq<Entry>, a: nat)
    requires a < |m|
    ensures Headers(m)[..a] == Headers(m[..a]) && Headers(m)[a] == HeaderOf(m[a])
  {
    hide Headers, HeaderOf;
    assert Headers(m)[..a] == Headers(m[..a]);
  }

  /** Before its only entry is taken, everything comes from the other parts. */
  lemma {:induction false} BeforeTheLink(tree: Node, beyond: Beyond, sched: Schedule, a: nat)
    requires ValidTree(tree) && ValidBeyond(beyond) && Tarred(tree, beyond).Some? && |Tarred(tree, beyond).value| > 1
    requires Fits(Tarred(tree, beyond).value, sched) && a < |sched| && sched[a] == 0
        && |Tarred(tree, beyond).value[0]| <= 1
    ensures forall e | e in Merge(Tarred(tree, beyond).value, sched)[..a] ::
      UnderRoots(e) && Among(HeaderStreams(Tarred(tree, beyond).value[1..]), HeaderOf(e))
  {
    var parts := Tarred(tree, beyond).value;
    var m := Merge(parts, sched);
    CountPrefix(sched, a, 0);
    forall e | e in m[..a] ensures UnderRoots(e) && Among(HeaderStreams(parts[1..]), HeaderOf(e)) {
      var x :| 0 <= x < a && m[x] == e;
      CountPrefix(sched, x, sched[x]);
      if sched[x] == 0 { TakenOnce(sched, x, a); }
      var j, k := sched[x], Count(sched[..x], sched[x]);
      assert parts[j][k] == e && parts[1..][j - 1] == parts[j];
      assert HeaderStreams(parts[1..])[j - 1][k] == HeaderOf(e);
      PartAt(tree, beyond, j);
      PartIsRooted(tree, beyond, PlanParts(tree, beyond)[j], e);
    }
  }

  /** A sequence fails where its next entry does. */
  lemma {:induction false} FailsAt(fs: FileSystem, root: Path, ts: seq<TarEntry>, a: nat)
    requires root != [] && a < |ts|
    requires ExtractAll(fs, root, ts[..a]).Some? ==> Extract(ExtractAll(fs, root, ts[..a]).value, root, ts[a]).None?
    ensures ExtractAll(fs, root, ts).None?
  {
    if ExtractAll(fs, root, ts[..a]).Some? {
      assert ts[..a + 1][..a] == ts[..a];
      FailureSticks(fs, root, ts, a + 1);
    } else {
      FailureSticks(fs, root, ts, a);
    }
  }

  /** With something extracted below chaindata/, a link at chaindata/ can no longer be made. */
  lemma {:induction false} LinkHasNoRoom(fs: FileSystem, root: Path, streams: seq<seq<TarEntry>>,
                                         pre: seq<Entry>, link: Entry, below: Entry)
    requires Rooted(fs, root) && Sub(fs, root) == EMPTY_DIR && LinksAmong(fs, root, streams) && NoLinkOnTheWay(streams)
    requires forall e | e in pre :: UnderRoots(e) && Among(streams, HeaderOf(e))
    requires link.path == CHAINDATA && link.obj.OLink? && below in pre && !below.obj.OOther? && CHAIN <= below.path
    ensures root != []
    ensures ExtractAll(fs, root, Headers(pre)).Some? ==>
      Extract(ExtractAll(fs, root, Headers(pre)).value, root, HeaderOf(link)).None?
  {
    HeadersAmong(streams, pre);
    RootIsNonEmpty(fs, root);
    hide *;
    SequenceIsPlain(fs, root, streams, Headers(pre));
    var r := ExtractAll(fs, root, Headers(pre));
    if r.Some? {
      ExtractedIsThere(pre, below);
      ExtractedIsNamed(pre);
      OnlyIsRooted(fs, root, r.value, PlainExtractAll(EMPTY_DIR, Headers(pre)).value);
      ChaindataIsDir(Sub(r.value, root), below.path);
      OccupiedLinkFails(r.value, root, link);
    }
  }

  lemma RootIsNonEmpty(fs: FileSystem, root: Path)
    requires Rooted(fs, root)
    ensures root != []
  {
  }

  lemma OnlyIsRooted(fs: FileSystem, root: Path, fs': FileSystem, tree: FileSystem)
    requires Only(fs, root, fs', tree)
    ensures Rooted(fs', root) && Sub(fs', root) == tree
  {
  }

  lemma {:induction false} HeadersAmong(streams: seq<seq<TarEntry>>, es: seq<Entry>)
    requires forall e | e in es :: Among(streams, HeaderOf(e))
    ensures forall t | t in Headers(es) :: Among(streams, t)
  {
    hide Headers, HeaderOf, Among;
    forall t | t in Headers(es) ensures Among(streams, t) {
      var x :| 0 <= x < |es| && Headers(es)[x] == t;
      assert es[x] in es;
    }
  }

  lemma ChaindataIsDir(tree: FileSystem, p: Path)
    requires Sound(tree) && p in tree && CHAIN <= p
    ensures CHAINDATA in tree && tree[CHAINDATA] == ODir
  {
    assert p[..1] == CHAINDATA;
  }

  lemma OccupiedLinkFails(fs: FileSystem, root: Path, e: Entry)
    requires Rooted(fs, root) && e.path == CHAINDATA && e.obj.OLink?
    requires CHAINDATA in Sub(fs, root) && Sub(fs, root)[CHAINDATA] == ODir
    ensures Extract(fs, root, HeaderOf(e)).None?
  {
    assert ValidPath(e.path);
    RootedNameComesBack(e);
    SubIsSound(fs, root);
    assert PlainWay(fs, root, CHAINDATA, e.obj) by {
      forall q | q in Sub(fs, root) && q <= CHAINDATA ensures !Sub(fs, root)[q].OLink? { assert q == []
          || q == CHAINDATA; }
    }
    PlainMakes(fs, root, CHAINDATA, e.obj);
    MkdirRoot(Sub(fs, root));
    hide Make, PlainMkdirAll, Sub;
  }

  lemma MkdirRoot(tree: FileSystem)
    requires Sound(tree)
    ensures PlainMkdirAll(tree, Parent(CHAINDATA)) == Some(tree)
  {
    assert Parent(CHAINDATA) == [];
  }

  lemma CoveredInScope(tree: Node, m: seq<Entry>, p: Path)
    requires (forall e | e in m :: Describes(tree, e)) && Covered(m, p) && p != []
    ensures InScope(tree, p)
  {
    var e :| e in m && !e.obj.OOther? && AtOrAbove(p, e.path);
    AncestorHasNode(tree, e.path, |p|);
    assert e.path[..|p|] == p && p[0] == e.path[0];
  }

  // -------------------------------------------- what the condition keeps out

  /** A path-scheme datadir whose ancient/state is a link to a volume that is not mounted. */
  function UnmountedState(): Node {
    Dir([Kid("chaindata", Dir([Kid("ancient", Dir([Kid("chain", Dir([])), Kid("state", Link("../../vol/state"))]))]))])
  }

  function Nowhere(p: Path): Option<Node> { None }

  lemma UnmountedStateLookups()
    ensures var tree := UnmountedState();
      && Lookup(tree, CHAINDATA) == Some(tree.kids[0].node)
      && Lookup(tree, ANCIENT) == Some(tree.kids[0].node.kids[0].node)
      && Lookup(tree, CHAIN) == Some(Dir([])) && Lookup(tree, STATE) == Some(Link("../../vol/state"))
      && Lookup(tree, TRIEDB).None?
  {
    var tree := UnmountedState();
    var chaindata := tree.kids[0].node;
    var ancient := chaindata.kids[0].node;
    assert Find(tree.kids, "chaindata") == Some(chaindata) && Find(chaindata.kids, "ancient") == Some(ancient);
    assert Find(ancient.kids[1..], "state") == Some(Link("../../vol/state"));
    assert Find(tree.kids[1..], "triedb").None?;
    assert CHAINDATA[1..] == [] && ANCIENT[1..] == ["ancient"] && ["ancient"][1..] == [];
    assert ["chain"][1..] == [] && ["state"][1..] == [];
    LookupSplit(tree, ANCIENT, ["chain"]);
    LookupSplit(tree, ANCIENT, ["state"]);
    assert ANCIENT + ["chain"] == CHAIN && ANCIENT + ["state"] == STATE;
  }

  lemma UnmountedStateTars()
    ensures EntriesOfAll(UnmountedState(), [LIVE, CHAIN_FREEZER], Nowhere).Some?
  {
    var tree := UnmountedState();
    UnmountedStateLookups();
    SubsAreDirect(tree, Nowhere, CHAINDATA);
    SubsAreDirect(tree, Nowhere, CHAIN);
    hide Lookup, Reach;
    assert !HasOther(tree.kids[0].node.kids[0].node) && !HasOther(tree.kids[0].node);
    NoSocketBelow(tree.kids[0].node, CHAINDATA, SkipAncient);
    NoSocketBelow(Dir([]), CHAIN, NoSkip);
    assert PartEntries(tree, LIVE, Nowhere).Some? && PartEntries(tree, CHAIN_FREEZER, Nowhere).Some?;
    assert [CHAIN_FREEZER][1..] == [] && [LIVE, CHAIN_FREEZER][1..] == [CHAIN_FREEZER];
    assert EntriesOfAll(tree, [CHAIN_FREEZER], Nowhere).Some?;
  }

  /** The upload accepts it and plans no part for state/, so the link is silently dropped. */
  lemma UnmountedStateIsDropped()
    ensures Tarred(UnmountedState(), Nowhere).Some? && AncientLayoutOk(UnmountedState(), Nowhere)
    ensures !Portable(UnmountedState(), Nowhere) && InScope(UnmountedState(), STATE)
    ensures PlanParts(UnmountedState(), Nowhere) == [LIVE, CHAIN_FREEZER]
  {
    UnmountedStateLookups();
    UnmountedStateTars();
    SubsAreDirect(UnmountedState(), Nowhere, ANCIENT);
    SubsAreDirect(UnmountedState(), Nowhere, STATE);
    SubsAreDirect(UnmountedState(), Nowhere, TRIEDB);
    hide Lookup, Reach, EntriesOfAll;
    assert CHAINDATA <= STATE;
    assert !Stat(UnmountedState(), STATE, Nowhere) && !Stat(UnmountedState(), TRIEDB, Nowhere);
    assert PlanParts(UnmountedState(), Nowhere) == [LIVE, CHAIN_FREEZER];
  }

  /** A datadir whose ancient/ is a link to a volume that is mounted and holds an empty chain freezer. */
  function LinkedAncient(): Node {
    Dir([Kid("chaindata", Dir([Kid("ancient", Link("../../vol/ancient"))]))])
  }

  function Volume(p: Path): Option<Node> {
    if p == ANCIENT then Some(Dir([Kid("chain", Dir([]))])) else None
  }

  lemma LinkedAncientReach()
    ensures var tree := LinkedAncient();
      && Reach(tree, [], CHAINDATA, Volume) == Some(tree.kids[0].node)
      && Reach(tree, [], ANCIENT, Volume) == Some(Link("../../vol/ancient"))
      && Reach(tree, [], CHAIN, Volume) == Some(Dir([]))
      && Reach(tree, [], STATE, Volume).None? && Reach(tree, [], TRIEDB, Volume).None?
      && Lookup(tree, ANCIENT) == Some(Link("../../vol/ancient"))
  {
    var tree, volume := LinkedAncient(), Dir([Kid("chain", Dir([]))]);
    var chaindata := tree.kids[0].node;
    assert Find(tree.kids, "chaindata") == Some(chaindata) && Find(tree.kids[1..], "triedb").None?;
    assert Find(chaindata.kids, "ancient") == Some(Link("../../vol/ancient"));
    assert Find(volume.kids, "chain") == Some(Dir([])) && Find(volume.kids[1..], "state").None?;
    assert CHAINDATA[1..] == [] && ANCIENT[1..] == ["ancient"] && ["ancient"][1..] == [];
    assert CHAIN[1..] == ["ancient", "chain"] && STATE[1..] == ["ancient", "state"];
    assert ["ancient", "chain"][1..] == ["chain"] && ["ancient", "state"][1..] == ["state"];
    assert ["chain"][1..] == [] && [] + ["chaindata"] == CHAINDATA && CHAINDATA + ["ancient"] == ANCIENT;
  }

  /** The upload follows the link and tars the freezer, but no download puts the link back. */
  lemma LinkedAncientIsAcceptedAndLost(sched: Schedule)
    ensures Tarred(LinkedAncient(), Volume).Some? && !Portable(LinkedAncient(), Volume)
    ensures Complete(Tarred(LinkedAncient(), Volume).value, sched) ==>
      var r := PlainExtractAll(EMPTY_DIR, Headers(Merge(Tarred(LinkedAncient(), Volume).value, sched)));
      r.Some? ==> !Rebuilds(r.value, LinkedAncient())
  {
    LinkedAncientTars();
    LinkedAncientIsTree();
    assert Complete(Tarred(LinkedAncient(), Volume).value, sched) ==>
        Fits(Tarred(LinkedAncient(), Volume).value, sched);
    hide *;
    LinkedIsNotPortable(LinkedAncient(), Volume);
    if Complete(Tarred(LinkedAncient(), Volume).value, sched) { LinkedAncientIsLost(LinkedAncient(), Volume, sched); }
  }

  lemma LinkedIsNotPortable(tree: Node, beyond: Beyond)
    requires IsLink(tree, ANCIENT)
    ensures !Portable(tree, beyond)
  {
  }

  lemma LinkedAncientIsTree()
    ensures ValidTree(LinkedAncient()) && ValidBeyond(Volume) && IsLink(LinkedAncient(), ANCIENT)
  {
    LinkedAncientReach();
    hide Lookup, Reach;
  }

  lemma LinkedAncientTars()
    ensures Tarred(LinkedAncient(), Volume).Some?
  {
    var tree := LinkedAncient();
    LinkedAncientReach();
    hide Reach, Lookup;
    assert !HasOther(tree.kids[0].node.kids[0].node) && !HasOther(tree.kids[0].node);
    NoSocketBelow(tree.kids[0].node, CHAINDATA, SkipAncient);
    NoSocketBelow(Dir([]), CHAIN, NoSkip);
    assert PartEntries(tree, LIVE, Volume).Some? && PartEntries(tree, CHAIN_FREEZER, Volume).Some?;
    assert PlanParts(tree, Volume) == [LIVE, CHAIN_FREEZER];
    assert [CHAIN_FREEZER][1..] == [] && [LIVE, CHAIN_FREEZER][1..] == [CHAIN_FREEZER];
    assert EntriesOfAll(tree, [CHAIN_FREEZER], Volume).Some?;
  }

  predicate HasOther(n: Node) {
    n.Other? || (n.Dir? && exists k | k in n.kids :: HasOther(k.node))
  }

  lemma {:induction false} NoSocketBelow(n: Node, path: Path, skip: Skip)
    requires !HasOther(n)
    ensures forall e | e in Walk(n, path, skip) :: e.obj != OOther(Socket)
    decreases n, 1
  {
    if n.Dir? { NoSocketInKids(n.kids, path, skip); }
  }

  lemma {:induction false} NoSocketInKids(kids: seq<Kid>, path: Path, skip: Skip)
    requires forall k | k in kids :: !HasOther(k.node)
    ensures forall e | e in WalkKids(kids, path, skip) :: e.obj != OOther(Socket)
    decreases kids, 0
  {
    if kids != [] {
      assert kids[0] in kids;
      NoSocketBelow(kids[0].node, path + [kids[0].name], skip);
      NoSocketInKids(kids[1..], path, skip);
    }
  }
}
