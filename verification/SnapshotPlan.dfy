/** Which parts a snapshot of a geth directory has, and which entries go into each. */
module SnapshotPlan {
  import opened Basics
  import opened Paths
  import opened FileTrees

  const CHAINDATA: Path := ["chaindata"]
  const ANCIENT: Path := ["chaindata", "ancient"]
  const CHAIN: Path := ["chaindata", "ancient", "chain"]
  const STATE: Path := ["chaindata", "ancient", "state"]
  const TRIEDB: Path := ["triedb"]

  const CHAINDATA_LIVE_PART := "parts/chaindata-live.tar.zst"
  const ANCIENT_CHAIN_PART := "parts/ancient-chain.tar.zst"
  const ANCIENT_STATE_PART := "parts/ancient-state.tar.zst"
  const TRIEDB_PART := "parts/triedb.tar.zst"

  /** A part's key below the snapshot, its source directory, and whether ancient/ is left out. */
  datatype PartSpec = PartSpec(partPath: string, sub: Path, live: bool)

  predicate SkipAncient(rel: string) {
    rel == "chaindata/ancient" || "chaindata/ancient/" <= rel
  }

  function SkipOf(spec: PartSpec): Skip {
    if spec.live then SkipAncient else NoSkip
  }

  const LIVE := PartSpec(CHAINDATA_LIVE_PART, CHAINDATA, true)
  const CHAIN_FREEZER := PartSpec(ANCIENT_CHAIN_PART, CHAIN, false)
  const STATE_FREEZER := PartSpec(ANCIENT_STATE_PART, STATE, false)
  const JOURNAL := PartSpec(TRIEDB_PART, TRIEDB, false)

  /** os.Stat: every link is followed, the last one too. */
  predicate Stat(tree: Node, p: Path, beyond: Beyond) {
    match Reach(tree, [], p, beyond)
    case None => false
    case Some(n) => Followed(n, p, beyond).Some?
  }

  /** planParts: the two required parts, then the optional ones whose directory exists. */
  function PlanParts(tree: Node, beyond: Beyond): seq<PartSpec> {
    [LIVE, CHAIN_FREEZER]
    + (if Stat(tree, STATE, beyond) then [STATE_FREEZER] else [])
    + (if Stat(tree, TRIEDB, beyond) then [JOURNAL] else [])
  }

  /** validateAncientLayout: os.ReadDir follows links; a missing ancient/ passes, an unknown entry does not. */
  predicate AncientLayoutOk(tree: Node, beyond: Beyond) {
    match Reach(tree, [], ANCIENT, beyond)
    case None => true
    case Some(n) =>
      match Followed(n, ANCIENT, beyond)
      case None => true
      case Some(d) => d.Dir? && forall k | k in d.kids :: k.name == "chain" || k.name == "state"
  }

  /** What tarTree writes for a part; None when the walk or a tar header fails. */
  function PartEntries(tree: Node, spec: PartSpec, beyond: Beyond): Option<seq<Entry>> {
    match Reach(tree, [], spec.sub, beyond)
    case None => None
    case Some(n) =>
      var entries := Walk(n, spec.sub, SkipOf(spec));
      if exists e :: e in entries && e.obj == OOther(Socket) then None else Some(entries)
  }

  function EntriesOfAll(tree: Node, specs: seq<PartSpec>, beyond: Beyond): Option<seq<seq<Entry>>> {
    if specs == [] then Some([])
    else
      match (PartEntries(tree, specs[0], beyond), EntriesOfAll(tree, specs[1..], beyond))
      case (Some(first), Some(rest)) => Some([first] + rest)
      case _ => None
  }

  /** The entry sequences of an upload, part by part; None when the upload refuses or fails. */
  function Tarred(tree: Node, beyond: Beyond): Option<seq<seq<Entry>>> {
    if AncientLayoutOk(tree, beyond) then EntriesOfAll(tree, PlanParts(tree, beyond), beyond) else None
  }

  lemma {:induction false} EntriesOfAllAt(tree: Node, specs: seq<PartSpec>, beyond: Beyond, j: nat)
    requires EntriesOfAll(tree, specs, beyond).Some?
    ensures |EntriesOfAll(tree, specs, beyond).value| == |specs|
    ensures j < |specs| ==> Some(EntriesOfAll(tree, specs, beyond).value[j]) == PartEntries(tree, specs[j], beyond)
  {
    if specs != [] {
      EntriesOfAllAt(tree, specs[1..], beyond, if j == 0 then 0 else j - 1);
    }
  }

  // ------------------------------------------------------------ skip predicate

  lemma {:induction false} RenderAppend(p: Path, q: Path)
    requires p != [] && q != []
    ensures Render(p + q) == Render(p) + "/" + Render(q)
  {
    if |p| == 1 {
      assert (p + q)[1..] == q;
    } else {
      RenderAppend(p[1..], q);
      assert (p + q)[1..] == p[1..] + q;
      assert p[0] + "/" + (Render(p[1..]) + "/" + Render(q)) == Render(p) + "/" + Render(q);
    }
  }

  lemma PrefixWhenTested(p: Path, q: Path)
    requires p != [] && q != [] && ValidPath(p) && ValidPath(q)
    requires Render(p) == Render(q) || Render(q) + "/" <= Render(p)
    ensures q <= p
  {
    SplitRender(p);
    SplitRender(q);
    if Render(q) + "/" <= Render(p) {
      var rest := Render(p)[|Render(q) + "/"|..];
      SplitRenderThen(q, rest);
      hide Render, Split, ValidPath;
      assert Render(p) == Render(q) + "/" + rest;
      assert p == q + Split(rest);
    }
  }

  lemma TestedWhenPrefix(p: Path, q: Path)
    requires q != [] && q <= p
    ensures Render(p) == Render(q) || Render(q) + "/" <= Render(p)
  {
    var rest := p[|q|..];
    assert q + rest == p;
    hide Render;
    if rest != [] {
      RenderAppend(q, rest);
      assert Render(p) == Render(q) + "/" + Render(rest);
    }
  }

  /** Testing the rendered string is testing the path prefix: "ancient.bak" is not skipped. */
  lemma PrefixTestIsExact(p: Path, q: Path)
    requires p != [] && q != [] && ValidPath(p) && ValidPath(q)
    ensures Render(p) == Render(q) || Render(q) + "/" <= Render(p) <==> q <= p
  {
    hide Render, ValidPath;
    if Render(p) == Render(q) || Render(q) + "/" <= Render(p) { PrefixWhenTested(p, q); }
    if q <= p { TestedWhenPrefix(p, q); }
  }

  lemma AncientRendered()
    ensures Render(ANCIENT) == "chaindata/ancient" && Render(ANCIENT) + "/" == "chaindata/ancient/"
  {
    assert ANCIENT[1..] == ["ancient"] && Render(["ancient"]) == "ancient";
    assert "chaindata" + "/" + "ancient" == "chaindata/ancient";
  }

  lemma SkipAncientIff(p: Path)
    requires ValidPath(p)
    ensures SkipAncient(RelName(p)) <==> ANCIENT <= p
  {
    hide Render, Split;
    AncientRendered();
    if p != [] { PrefixTestIsExact(p, ANCIENT); }
  }

  // ---------------------------------------------------------- entries of a part

  /** e is a node of the tree that belongs to the part. */
  ghost predicate Belongs(tree: Node, spec: PartSpec, e: Entry) {
    && spec.sub <= e.path && (spec.live ==> !(ANCIENT <= e.path))
    && Lookup(tree, e.path).Some? && e.obj == ObjOf(Lookup(tree, e.path).value)
  }

  lemma PartHolds(tree: Node, spec: PartSpec, e: Entry)
    requires ValidTree(tree) && Lookup(tree, spec.sub).Some?
    ensures e in Walk(Lookup(tree, spec.sub).value, spec.sub, SkipOf(spec)) <==> Belongs(tree, spec, e)
  {
    var n := Lookup(tree, spec.sub).value;
    LookupValid(tree, spec.sub);
    WalkEmits(n, spec.sub, SkipOf(spec), e);
    if spec.sub <= e.path {
      LookupSplit(tree, spec.sub, e.path[|spec.sub|..]);
      assert spec.sub + e.path[|spec.sub|..] == e.path;
      if Lookup(tree, e.path).Some? && spec.live {
        LookupValid(tree, e.path);
        forall k | |spec.sub| <= k <= |e.path| ensures SkipAncient(RelName(e.path[..k])) <==> ANCIENT <= e.path[..k] {
          SkipAncientIff(e.path[..k]);
        }
        if ANCIENT <= e.path {
          assert e.path[..|e.path|] == e.path;
        } else {
          assert forall k :: |spec.sub| <= k <= |e.path| ==> !(ANCIENT <= e.path[..k]);
        }
      }
    }
  }

  /** Two different parts of a plan never share a path. */
  lemma PartsDisjoint(tree: Node, beyond: Beyond, i: nat, j: nat, p: Path)
    requires i < j < |PlanParts(tree, beyond)|
    ensures var a, b := PlanParts(tree, beyond)[i], PlanParts(tree, beyond)[j];
      !(a.sub <= p && (a.live ==> !(ANCIENT <= p)) && b.sub <= p && (b.live ==> !(ANCIENT <= p)))
  {
    var a, b := PlanParts(tree, beyond)[i], PlanParts(tree, beyond)[j];
    assert b == CHAIN_FREEZER || b == STATE_FREEZER || b == JOURNAL;
    assert a == LIVE || a == CHAIN_FREEZER || a == STATE_FREEZER;
    if CHAIN <= p || STATE <= p {
      assert p[..2] == ANCIENT;
    }
  }

  /** No link stands on the way to a part: neither chaindata/ nor ancient/ is one. */
  ghost predicate Direct(tree: Node) {
    tree.Dir? && !IsLink(tree, CHAINDATA) && !IsLink(tree, ANCIENT)
  }

  predicate IsLink(tree: Node, p: Path) {
    Lookup(tree, p).Some? && Lookup(tree, p).value.Link?
  }

  lemma SubsAreDirect(tree: Node, beyond: Beyond, p: Path)
    requires Direct(tree) && p in {CHAINDATA, ANCIENT, CHAIN, STATE, TRIEDB}
    ensures Reach(tree, [], p, beyond) == Lookup(tree, p)
  {
    forall k | 0 <= k < |p| ensures !IsLink(tree, p[..k]) {
      assert p[..k] == [] || p[..k] == CHAINDATA || p[..k] == ANCIENT;
    }
    ReachDirect(tree, [], p, beyond);
  }

  /** A path the snapshot is meant to carry. */
  ghost predicate InScope(tree: Node, p: Path) {
    (CHAINDATA <= p || TRIEDB <= p) && Lookup(tree, p).Some?
  }

  /** The optional directories are not links that lead nowhere. */
  ghost predicate OptionalResolve(tree: Node, beyond: Beyond) {
    && (Lookup(tree, STATE).Some? ==> Stat(tree, STATE, beyond))
    && (Lookup(tree, TRIEDB).Some? ==> Stat(tree, TRIEDB, beyond))
  }

  /** Every path in scope is in some part, except ancient/ itself, which no part lists. */
  lemma PartsCover(tree: Node, beyond: Beyond, p: Path)
    requires ValidTree(tree) && Direct(tree) && AncientLayoutOk(tree, beyond) && OptionalResolve(tree, beyond)
    requires InScope(tree, p) && p != ANCIENT
    ensures exists spec :: spec in PlanParts(tree, beyond) &&
              Belongs(tree, spec, Entry(p, ObjOf(Lookup(tree, p).value)))
  {
    var e := Entry(p, ObjOf(Lookup(tree, p).value));
    var plan := PlanParts(tree, beyond);
    assert plan[0] == LIVE && plan[1] == CHAIN_FREEZER;
    if TRIEDB <= p {
      AncestorHasNode(tree, p, 1);
      assert p[..1] == TRIEDB;
      assert JOURNAL in plan && Belongs(tree, JOURNAL, e);
    } else if !(ANCIENT <= p) {
      assert LIVE in plan && Belongs(tree, LIVE, e);
    } else {
      ThirdSegment(tree, beyond, p);
      AncestorHasNode(tree, p, 3);
      if p[2] == "chain" {
        assert p[..3] == CHAIN;
        assert CHAIN_FREEZER in plan && Belongs(tree, CHAIN_FREEZER, e);
      } else {
        assert p[..3] == STATE;
        assert STATE_FREEZER in plan && Belongs(tree, STATE_FREEZER, e);
      }
    }
  }

  lemma AncestorHasNode(tree: Node, p: Path, k: nat)
    requires Lookup(tree, p).Some? && k <= |p|
    ensures Lookup(tree, p[..k]).Some?
  {
    LookupSplit(tree, p[..k], p[k..]);
    assert p[..k] + p[k..] == p;
  }

  lemma ThirdSegment(tree: Node, beyond: Beyond, p: Path)
    requires ValidTree(tree) && Direct(tree) && AncientLayoutOk(tree, beyond) && Lookup(tree, p).Some? && ANCIENT < p
    ensures p[2] == "chain" || p[2] == "state"
  {
    SubsAreDirect(tree, beyond, ANCIENT);
    AncestorHasNode(tree, p, 2);
    assert p[..2] == ANCIENT;
    LookupValid(tree, ANCIENT);
    var n := Lookup(tree, ANCIENT).value;
    LookupSplit(tree, ANCIENT, p[2..]);
    assert ANCIENT + p[2..] == p;
    FindFacts(n.kids, p[2]);
  }

  /**
   The layout check, exactly: where no link stands on the way it passes if and only if
   everything below ancient/ goes into one of the two freezer parts.
   */
  lemma LayoutOkIff(tree: Node, beyond: Beyond)
    requires ValidTree(tree) && Direct(tree)
    ensures AncientLayoutOk(tree, beyond) <==>
      && (Lookup(tree, ANCIENT).Some? ==> Lookup(tree, ANCIENT).value.Dir?)
      && forall p | Lookup(tree, p).Some? && ANCIENT < p :: CHAIN <= p || STATE <= p
  {
    SubsAreDirect(tree, beyond, ANCIENT);
    if AncientLayoutOk(tree, beyond) {
      forall p | Lookup(tree, p).Some? && ANCIENT < p ensures CHAIN <= p || STATE <= p {
        ThirdSegment(tree, beyond, p);
        assert p[..3] == ANCIENT + [p[2]];
      }
    } else if Lookup(tree, ANCIENT).value.Dir? {
      StrayEntry(tree);
    }
  }

  /** A name that belongs in no part stands at a path of its own. */
  lemma StrayEntry(tree: Node)
    requires ValidTree(tree) && Lookup(tree, ANCIENT).Some? && Lookup(tree, ANCIENT).value.Dir?
    requires exists k :: k in Lookup(tree, ANCIENT).value.kids && k.name != "chain" && k.name != "state"
    ensures exists p :: Lookup(tree, p).Some? && ANCIENT < p && !(CHAIN <= p) && !(STATE <= p)
  {
    var n := Lookup(tree, ANCIENT).value;
    LookupValid(tree, ANCIENT);
    var k :| k in n.kids && k.name != "chain" && k.name != "state";
    var p := ANCIENT + [k.name];
    LookupSplit(tree, ANCIENT, [k.name]);
    FindFacts(n.kids, k.name);
    assert p[2] == k.name && Lookup(tree, p).Some?;
  }

  // -------------------------------------------------------------- object names

  /** tocPathFor: the sidecar's key; TrimSuffix leaves other names alone. */
  function TocPathFor(partPath: string): string {
    var suffix := ".tar.zst";
    if |partPath| >= |suffix| && partPath[|partPath| - |suffix|..] == suffix then
      partPath[..|partPath| - |suffix|] + ".toc.zst"
    else partPath + ".toc.zst"
  }

  lemma LiveTocPath()
    ensures TocPathFor(CHAINDATA_LIVE_PART) == "parts/chaindata-live.toc.zst"
  {
    assert CHAINDATA_LIVE_PART[..20] == "parts/chaindata-live" && CHAINDATA_LIVE_PART[20..] == ".tar.zst";
  }

  lemma ChainTocPath()
    ensures TocPathFor(ANCIENT_CHAIN_PART) == "parts/ancient-chain.toc.zst"
  {
    assert ANCIENT_CHAIN_PART[..19] == "parts/ancient-chain" && ANCIENT_CHAIN_PART[19..] == ".tar.zst";
  }

  lemma StateTocPath()
    ensures TocPathFor(ANCIENT_STATE_PART) == "parts/ancient-state.toc.zst"
  {
    assert ANCIENT_STATE_PART[..19] == "parts/ancient-state" && ANCIENT_STATE_PART[19..] == ".tar.zst";
  }

  lemma TriedbTocPath()
    ensures TocPathFor(TRIEDB_PART) == "parts/triedb.toc.zst"
  {
    assert TRIEDB_PART[..12] == "parts/triedb" && TRIEDB_PART[12..] == ".tar.zst";
  }

  lemma TocPaths()
    ensures TocPathFor(CHAINDATA_LIVE_PART) == "parts/chaindata-live.toc.zst"
    ensures TocPathFor(ANCIENT_CHAIN_PART) == "parts/ancient-chain.toc.zst"
    ensures TocPathFor(ANCIENT_STATE_PART) == "parts/ancient-state.toc.zst"
    ensures TocPathFor(TRIEDB_PART) == "parts/triedb.toc.zst"
  {
    hide TocPathFor;
    LiveTocPath();
    ChainTocPath();
    StateTocPath();
    TriedbTocPath();
  }

  /** Letters that tell object names apart: "tar" or "toc", and the part. */
  predicate Letters(name: string, six: char, kind: char) {
    |name| >= 20 && name[6] == six && name[|name| - 6] == kind
  }

  lemma PartNameLetters()
    ensures Letters(CHAINDATA_LIVE_PART, 'c', 'a') && Letters(ANCIENT_CHAIN_PART, 'a', 'a')
    ensures Letters(ANCIENT_STATE_PART, 'a', 'a') && Letters(TRIEDB_PART, 't', 'a')
    ensures ANCIENT_CHAIN_PART[14] == 'c' && ANCIENT_STATE_PART[14] == 's'
  {
  }

  lemma TocLiteralLetters()
    ensures Letters("parts/chaindata-live.toc.zst", 'c', 'o') && Letters("parts/ancient-chain.toc.zst", 'a', 'o')
    ensures Letters("parts/ancient-state.toc.zst", 'a', 'o') && Letters("parts/triedb.toc.zst", 't', 'o')
    ensures "parts/ancient-chain.toc.zst"[14] == 'c' && "parts/ancient-state.toc.zst"[14] == 's'
  {
  }

  lemma TocNameLetters()
    ensures Letters(TocPathFor(CHAINDATA_LIVE_PART), 'c', 'o') && Letters(TocPathFor(ANCIENT_CHAIN_PART), 'a', 'o')
    ensures Letters(TocPathFor(ANCIENT_STATE_PART), 'a', 'o') && Letters(TocPathFor(TRIEDB_PART), 't', 'o')
    ensures TocPathFor(ANCIENT_CHAIN_PART)[14] == 'c' && TocPathFor(ANCIENT_STATE_PART)[14] == 's'
  {
    hide TocPathFor;
    TocPaths();
    TocLiteralLetters();
  }

  predicate IsPart(spec: PartSpec) {
    spec == LIVE || spec == CHAIN_FREEZER || spec == STATE_FREEZER || spec == JOURNAL
  }

  lemma SpecLetters(spec: PartSpec)
    requires IsPart(spec)
    ensures var six := if spec == LIVE then 'c' else if spec == JOURNAL then 't' else 'a';
      Letters(spec.partPath, six, 'a') && Letters(TocPathFor(spec.partPath), six, 'o')
    ensures spec == CHAIN_FREEZER ==> spec.partPath[14] == TocPathFor(spec.partPath)[14] == 'c'
    ensures spec == STATE_FREEZER ==> spec.partPath[14] == TocPathFor(spec.partPath)[14] == 's'
  {
    PartNameLetters();
    TocNameLetters();
  }

  lemma PlanSpecs(tree: Node, beyond: Beyond, i: nat, j: nat)
    requires i < |PlanParts(tree, beyond)| && j < |PlanParts(tree, beyond)|
    ensures IsPart(PlanParts(tree, beyond)[i]) && IsPart(PlanParts(tree, beyond)[j])
    ensures i != j ==> PlanParts(tree, beyond)[i] != PlanParts(tree, beyond)[j]
  {
    assert LIVE.live && |CHAIN_FREEZER.sub| == |STATE_FREEZER.sub| == 3 && |JOURNAL.sub| == 1;
    assert CHAIN_FREEZER.sub[2] != STATE_FREEZER.sub[2];
  }

  lemma SpecNamesDistinct(a: PartSpec, b: PartSpec)
    requires IsPart(a) && IsPart(b)
    ensures a.partPath != "" && a.partPath != TocPathFor(b.partPath)
    ensures a != b ==> a.partPath != b.partPath && TocPathFor(a.partPath) != TocPathFor(b.partPath)
  {
    SpecLetters(a);
    SpecLetters(b);
  }

  /** No two objects of a plan share a name. */
  lemma ObjectNamesDistinct(tree: Node, beyond: Beyond, i: nat, j: nat)
    requires i < |PlanParts(tree, beyond)| && j < |PlanParts(tree, beyond)|
    ensures var a, b := PlanParts(tree, beyond)[i].partPath, PlanParts(tree, beyond)[j].partPath;
      && a != "" && a != TocPathFor(b)
      && (i != j ==> a != b && TocPathFor(a) != TocPathFor(b))
  {
    PlanSpecs(tree, beyond, i, j);
    SpecNamesDistinct(PlanParts(tree, beyond)[i], PlanParts(tree, beyond)[j]);
  }
}
