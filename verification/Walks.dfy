/**
 The three walks over a part's source: the dry run, the planning pass and the tar
 stream.  Each passes its skip predicate paths of a different shape.
 */
module Walks {
  import opened Basics
  import opened Paths
  import opened FileTrees
  import opened SnapshotPlan
  import opened Extraction

  /** A line of the table of contents: a regular file's name and size. */
  datatype TocEntry = TocEntry(name: string, size: nat)

  /** What the regular files of a walk hold, file by file, in walk order. */
  function Contents(es: seq<Entry>): seq<Bytes> {
    if es == [] then []
    else
      var e, before := es[|es| - 1], Contents(es[..|es| - 1]);
      if e.obj.OFile? then before + [e.obj.content] else before
  }

  /** Regular files of a walk, by path below the walk's root, with what they hold. */
  function FileList(es: seq<Entry>, drop: nat): seq<(Path, Bytes)> {
    if es == [] then []
    else
      var e, before := es[|es| - 1], FileList(es[..|es| - 1], drop);
      if e.obj.OFile? && drop <= |e.path| then before + [(e.path[drop..], e.obj.content)] else before
  }

  function Toc(es: seq<Entry>): seq<TocEntry> {
    if es == [] then []
    else
      var e, before := es[|es| - 1], Toc(es[..|es| - 1]);
      if e.obj.OFile? then before + [TocEntry(RelName(e.path), |e.obj.content|)] else before
  }

  lemma {:induction false} FileListAppend(a: seq<Entry>, b: seq<Entry>, drop: nat)
    ensures FileList(a + b, drop) == FileList(a, drop) + FileList(b, drop)
  {
    if b == [] {
      assert a + b == a;
    } else {
      FileListAppend(a, b[..|b| - 1], drop);
      assert (a + b)[..|a + b| - 1] == a + b[..|b| - 1];
    }
  }

  lemma {:induction false} TocAppend(a: seq<Entry>, b: seq<Entry>)
    ensures Toc(a + b) == Toc(a) + Toc(b)
  {
    if b == [] {
      assert a + b == a;
    } else {
      TocAppend(a, b[..|b| - 1]);
      assert (a + b)[..|a + b| - 1] == a + b[..|b| - 1];
    }
  }

  lemma {:induction false} ContentsAppend(a: seq<Entry>, b: seq<Entry>)
    ensures Contents(a + b) == Contents(a) + Contents(b)
  {
    if b == [] {
      assert a + b == a;
    } else {
      ContentsAppend(a, b[..|b| - 1]);
      assert (a + b)[..|a + b| - 1] == a + b[..|b| - 1];
    }
  }

  lemma {:induction false} ConcatAppend<T>(a: seq<seq<T>>, b: seq<seq<T>>)
    ensures Concat(a + b) == Concat(a) + Concat(b)
  {
    if b == [] {
      assert a + b == a;
    } else {
      ConcatAppend(a, b[..|b| - 1]);
      assert (a + b)[..|a + b| - 1] == a + b[..|b| - 1];
    }
  }

  lemma {:induction false} WalkKidsSnoc(kids: seq<Kid>, i: nat, path: Path, skip: Skip)
    requires i < |kids|
    ensures WalkKids(kids[..i + 1], path, skip)
         == WalkKids(kids[..i], path, skip) + Walk(kids[i].node, path + [kids[i].name], skip)
  {
    if i == 0 {
      assert kids[..1][1..] == [];
    } else {
      WalkKidsSnoc(kids[1..], i - 1, path, skip);
      assert kids[..i + 1][1..] == kids[1..][..i] && kids[..i][1..] == kids[1..][..i - 1];
    }
  }

  // ------------------------------------------------------- the walks themselves

  /** The totals of two walks, one after the other. */
  lemma TotalsAppend(a: seq<Entry>, b: seq<Entry>)
    ensures |Contents(a + b)| == |Contents(a)| + |Contents(b)|
    ensures |Concat(Contents(a + b))| == |Concat(Contents(a))| + |Concat(Contents(b))|
  {
    ContentsAppend(a, b);
    ConcatAppend(Contents(a), Contents(b));
  }

  lemma TotalsOfOne(e: Entry)
    ensures |Contents([e])| == if e.obj.OFile? then 1 else 0
    ensures |Concat(Contents([e]))| == if e.obj.OFile? then |e.obj.content| else 0
  {
    assert [e][..0] == [];
    if e.obj.OFile? { assert Contents([e]) == [e.obj.content] && [e.obj.content][..0] == []; }
  }

  /** walkSize: the number of regular files and the length of all they hold, added to the running totals. */
  method WalkSize(n: Node, path: Path, skip: Skip, count0: nat, bytes0: nat) returns (count: nat, bytes: nat)
    ensures count == count0 + |Contents(Walk(n, path, skip))|
    ensures bytes == bytes0 + |Concat(Contents(Walk(n, path, skip)))|
    decreases n
  {
    count, bytes := count0, bytes0;
    if skip(RelName(path)) { return; }
    ghost var here := Entry(path, ObjOf(n));
    TotalsOfOne(here);
    if n.File? { count, bytes := count + 1, bytes + |n.content|; }
    if n.Dir? {
      assert n.kids[..0] == [] && n.kids[..|n.kids|] == n.kids;
      for i := 0 to |n.kids|
        invariant count == count0 + |Contents(WalkKids(n.kids[..i], path, skip))|
        invariant bytes == bytes0 + |Concat(Contents(WalkKids(n.kids[..i], path, skip)))|
      {
        count, bytes := WalkSize(n.kids[i].node, path + [n.kids[i].name], skip, count, bytes);
        WalkKidsSnoc(n.kids, i, path, skip);
        TotalsAppend(WalkKids(n.kids[..i], path, skip), Walk(n.kids[i].node, path + [n.kids[i].name], skip));
      }
      TotalsAppend([here], WalkKids(n.kids, path, skip));
    } else {
      assert [here] + [] == [here];
    }
  }

  /** A tar stream under construction, and the part's table of contents beside it. */
  class TarSink {
    var entries: seq<TarEntry>
    var toc: seq<TocEntry>

    constructor ()
      ensures entries == [] && toc == []
    {
      entries, toc := [], [];
    }
  }

  ghost predicate HasSocket(es: seq<Entry>) {
    exists e :: e in es && e.obj == OOther(Socket)
  }

  lemma HeadersAppend(a: seq<Entry>, b: seq<Entry>)
    ensures Headers(a + b) == Headers(a) + Headers(b)
  {
    var whole, parts := Headers(a + b), Headers(a) + Headers(b);
    assert |whole| == |parts|;
    forall i | 0 <= i < |whole| ensures whole[i] == parts[i] {
      assert whole[i] == HeaderOf((a + b)[i]);
    }
  }

  /** The sink went from (e0, t0) to (e1, t1) by writing the entries es. */
  ghost predicate Wrote(e0: seq<TarEntry>, t0: seq<TocEntry>, e1: seq<TarEntry>, t1: seq<TocEntry>, es: seq<Entry>) {
    e1 == e0 + Headers(es) && t1 == t0 + Toc(es)
  }

  lemma WroteBoth(e0: seq<TarEntry>, t0: seq<TocEntry>, e1: seq<TarEntry>, t1: seq<TocEntry>,
                  e2: seq<TarEntry>, t2: seq<TocEntry>, a: seq<Entry>, b: seq<Entry>)
    requires Wrote(e0, t0, e1, t1, a) && Wrote(e1, t1, e2, t2, b)
    ensures Wrote(e0, t0, e2, t2, a + b)
  {
    HeadersAppend(a, b);
    TocAppend(a, b);
    AppendAssoc(e0, Headers(a), Headers(b));
    AppendAssoc(t0, Toc(a), Toc(b));
  }

  lemma AppendAssoc<T>(a: seq<T>, b: seq<T>, c: seq<T>)
    ensures a + (b + c) == a + b + c
  {
  }

  lemma SocketAppend(a: seq<Entry>, b: seq<Entry>)
    ensures HasSocket(a + b) <==> HasSocket(a) || HasSocket(b)
  {
    assert forall e :: e in a + b <==> e in a || e in b;
  }

  /** One header, with its TOC line when it is a regular file. */
  method WriteEntry(sink: TarSink, e: Entry)
    modifies sink
    ensures Wrote(old(sink.entries), old(sink.toc), sink.entries, sink.toc, [e])
  {
    assert [e][..0] == [] && Headers([e]) == [HeaderOf(e)];
    sink.entries := sink.entries + [HeaderOf(e)];
    if e.obj.OFile? { sink.toc := sink.toc + [TocEntry(RelName(e.path), |e.obj.content|)]; }
  }

  /** tarTree: headers in walk order, a TOC line per regular file; a socket is an error. */
  method TarTree(sink: TarSink, n: Node, path: Path, skip: Skip) returns (err: bool)
    modifies sink
    ensures err <==> HasSocket(Walk(n, path, skip))
    ensures !err ==> Wrote(old(sink.entries), old(sink.toc), sink.entries, sink.toc, Walk(n, path, skip))
    decreases n, 1
  {
    if skip(RelName(path)) { return false; }
    var e := Entry(path, ObjOf(n));
    ghost var below := if n.Dir? then WalkKids(n.kids, path, skip) else [];
    assert Walk(n, path, skip) == [e] + below;
    SocketAppend([e], below);
    if n == Other(Socket) {
      assert e in [e];
      return true;
    }
    WriteEntry(sink, e);
    ghost var e1, t1 := sink.entries, sink.toc;
    err := false;
    if n.Dir? { err := TarKids(sink, n.kids, path, skip); }
    if !err { WroteBoth(old(sink.entries), old(sink.toc), e1, t1, sink.entries, sink.toc, [e], below); }
  }

  method TarKids(sink: TarSink, kids: seq<Kid>, path: Path, skip: Skip) returns (err: bool)
    modifies sink
    ensures err <==> HasSocket(WalkKids(kids, path, skip))
    ensures !err ==> Wrote(old(sink.entries), old(sink.toc), sink.entries, sink.toc, WalkKids(kids, path, skip))
    decreases kids, 0
  {
    assert kids[..0] == [] && kids[..|kids|] == kids;
    for i := 0 to |kids|
      invariant !HasSocket(WalkKids(kids[..i], path, skip))
      invariant Wrote(old(sink.entries), old(sink.toc), sink.entries, sink.toc, WalkKids(kids[..i], path, skip))
    {
      ghost var before := WalkKids(kids[..i], path, skip);
      ghost var kid := Walk(kids[i].node, path + [kids[i].name], skip);
      ghost var e1, t1 := sink.entries, sink.toc;
      WalkKidsSnoc(kids, i, path, skip);
      SocketAppend(before, kid);
      err := TarTree(sink, kids[i].node, path + [kids[i].name], skip);
      if err {
        KidInWalk(kids, i, path, skip);
        return true;
      }
      WroteBoth(old(sink.entries), old(sink.toc), e1, t1, sink.entries, sink.toc, before, kid);
    }
    return false;
  }

  lemma {:induction false} KidInWalk(kids: seq<Kid>, i: nat, path: Path, skip: Skip)
    requires i < |kids|
    ensures forall e :: e in Walk(kids[i].node, path + [kids[i].name], skip) ==> e in WalkKids(kids, path, skip)
  {
    if i > 0 { KidInWalk(kids[1..], i - 1, path, skip); }
  }

  // ------------------------------------------------------- the walks agree

  /** Two bases and predicates that skip the same relative paths. */
  ghost predicate SameSkips(base1: Path, skip1: Skip, base2: Path, skip2: Skip) {
    forall q: Path :: ValidPath(q) ==> skip1(RelName(base1 + q)) == skip2(RelName(base2 + q))
  }

  lemma {:induction false} WalkShift(n: Node, q: Path, base1: Path, skip1: Skip, base2: Path, skip2: Skip)
    requires ValidTree(n) && ValidPath(q) && SameSkips(base1, skip1, base2, skip2)
    ensures FileList(Walk(n, base1 + q, skip1), |base1|) == FileList(Walk(n, base2 + q, skip2), |base2|)
    decreases n, 1
  {
    if !skip1(RelName(base1 + q)) {
      var here1, here2 := [Entry(base1 + q, ObjOf(n))], [Entry(base2 + q, ObjOf(n))];
      assert here1[..0] == [] && here2[..0] == [];
      assert FileList(here1, |base1|) == FileList(here2, |base2|);
      if n.Dir? {
        WalkKidsShift(n.kids, q, base1, skip1, base2, skip2);
        FileListAppend(here1, WalkKids(n.kids, base1 + q, skip1), |base1|);
        FileListAppend(here2, WalkKids(n.kids, base2 + q, skip2), |base2|);
      } else {
        assert here1 + [] == here1 && here2 + [] == here2;
      }
    }
  }

  lemma KidsFileList(kids: seq<Kid>, path: Path, skip: Skip, drop: nat)
    requires kids != []
    ensures FileList(WalkKids(kids, path, skip), drop)
         == FileList(Walk(kids[0].node, path + [kids[0].name], skip), drop)
          + FileList(WalkKids(kids[1..], path, skip), drop)
  {
    FileListAppend(Walk(kids[0].node, path + [kids[0].name], skip), WalkKids(kids[1..], path, skip), drop);
  }

  lemma FirstKidIsValid(kids: seq<Kid>, q: Path)
    requires ValidKids(kids) && ValidPath(q) && kids != []
    ensures ValidTree(kids[0].node) && ValidPath(q + [kids[0].name]) && ValidKids(kids[1..])
  {
    assert kids[0] in kids;
  }

  lemma NoKids(path: Path, skip: Skip, drop: nat)
    ensures FileList(WalkKids([], path, skip), drop) == []
  {
  }

  lemma {:induction false} WalkKidsShift(kids: seq<Kid>, q: Path, base1: Path, skip1: Skip, base2: Path, skip2: Skip)
    requires ValidKids(kids) && ValidPath(q) && SameSkips(base1, skip1, base2, skip2)
    ensures FileList(WalkKids(kids, base1 + q, skip1), |base1|) == FileList(WalkKids(kids, base2 + q, skip2), |base2|)
    decreases kids, 0
  {
    NoKids(base1 + q, skip1, |base1|);
    NoKids(base2 + q, skip2, |base2|);
    if kids != [] {
      FirstKidIsValid(kids, q);
      hide *;
      var first := kids[0];
      WalkShift(first.node, q + [first.name], base1, skip1, base2, skip2);
      WalkKidsShift(kids[1..], q, base1, skip1, base2, skip2);
      AppendAssoc(base1, q, [first.name]);
      AppendAssoc(base2, q, [first.name]);
      KidsFileList(kids, base1 + q, skip1, |base1|);
      KidsFileList(kids, base2 + q, skip2, |base2|);
    }
  }

  /** The dry run's predicate sees paths relative to chaindata/. */
  predicate DrySkipAncient(rel: string) {
    rel == "ancient" || "ancient/" <= rel
  }

  function DrySkipOf(spec: PartSpec): Skip {
    if spec.live then DrySkipAncient else NoSkip
  }

  /** The planning pass sees paths relative to the parent of the part's directory. */
  function PlanningBase(spec: PartSpec): Path
    requires spec.sub != []
  {
    [spec.sub[|spec.sub| - 1]]
  }

  lemma DrySkipIff(q: Path)
    requires ValidPath(q)
    ensures DrySkipAncient(RelName(q)) <==> SkipAncient(RelName(CHAINDATA + q))
  {
    SkipAncientIff(CHAINDATA + q);
    assert Render(["ancient"]) == "ancient";
    if q != [] { PrefixTestIsExact(q, ["ancient"]); }
    assert ["ancient"] <= q <==> ANCIENT <= CHAINDATA + q;
  }

  /**
   For each planned part the dry run, the planning walk and the tar walk list the same
   regular files with the same contents.
   */
  lemma ThreeWalksAgree(tree: Node, beyond: Beyond, spec: PartSpec)
    requires ValidTree(tree) && ValidBeyond(beyond) && spec in PlanParts(tree, beyond)
    requires Reach(tree, [], spec.sub, beyond).Some?
    ensures var n := Reach(tree, [], spec.sub, beyond).value;
      var tar := FileList(Walk(n, spec.sub, SkipOf(spec)), |spec.sub|);
      && FileList(Walk(n, PlanningBase(spec), SkipOf(spec)), 1) == tar
      && FileList(Walk(n, [], DrySkipOf(spec)), 0) == tar
  {
    var n, base := Reach(tree, [], spec.sub, beyond).value, PlanningBase(spec);
    ReachValid(tree, [], spec.sub, beyond);
    assert SameSkips(spec.sub, SkipOf(spec), [], DrySkipOf(spec)) by {
      forall q: Path | ValidPath(q)
        ensures SkipOf(spec)(RelName(spec.sub + q)) == DrySkipOf(spec)(RelName([] + q))
      {
        assert [] + q == q;
        if spec.live { DrySkipIff(q); }
      }
    }
    WalkShift(n, [], spec.sub, SkipOf(spec), [], DrySkipOf(spec));
    if spec.live { assert base == spec.sub; }
    WalkShift(n, [], spec.sub, SkipOf(spec), base, SkipOf(spec));
    assert spec.sub + [] == spec.sub && base + [] == base;
  }

  /** The list names exactly the walk's regular files, and what they hold does not depend on the drop. */
  lemma {:induction false} FileListHolds(es: seq<Entry>, drop: nat)
    requires forall e | e in es :: drop <= |e.path|
    ensures |FileList(es, drop)| == |Contents(es)|
    ensures forall i :: 0 <= i < |Contents(es)| ==> FileList(es, drop)[i].1 == Contents(es)[i]
    ensures forall q, content :: (q, content) in FileList(es, drop) <==>
              exists e :: e in es && e.obj == OFile(content) && drop <= |e.path| && e.path[drop..] == q
  {
    if es != [] {
      FileListHolds(es[..|es| - 1], drop);
      assert es == es[..|es| - 1] + [es[|es| - 1]];
    }
  }

  /** Walks that list the same files hold the same. */
  lemma SameFilesSameContents(a: seq<Entry>, drop1: nat, b: seq<Entry>, drop2: nat)
    requires (forall e | e in a :: drop1 <= |e.path|) && forall e | e in b :: drop2 <= |e.path|
    requires FileList(a, drop1) == FileList(b, drop2)
    ensures Contents(a) == Contents(b)
  {
    FileListHolds(a, drop1);
    FileListHolds(b, drop2);
  }

  /** One line of the table of contents per regular file, with its length. */
  lemma {:induction false} TocHolds(es: seq<Entry>)
    ensures |Toc(es)| == |Contents(es)|
    ensures forall i :: 0 <= i < |Toc(es)| ==> Toc(es)[i].size == |Contents(es)[i]|
  {
    if es != [] { TocHolds(es[..|es| - 1]); }
  }

  lemma WalkPathsBelow(n: Node, path: Path, skip: Skip)
    requires ValidTree(n)
    ensures forall e | e in Walk(n, path, skip) :: |path| <= |e.path|
  {
    forall e | e in Walk(n, path, skip) ensures |path| <= |e.path| { WalkEmits(n, path, skip, e); }
  }

  /**
   What the dry run and the planning walk measure is what is sent, file by file, and the
   table of contents gives each file's length.
   */
  lemma TotalsAgree(tree: Node, beyond: Beyond, spec: PartSpec)
    requires ValidTree(tree) && ValidBeyond(beyond) && spec in PlanParts(tree, beyond)
    requires Reach(tree, [], spec.sub, beyond).Some?
    ensures var n := Reach(tree, [], spec.sub, beyond).value;
      var sent := Walk(n, spec.sub, SkipOf(spec));
      && Contents(Walk(n, [], DrySkipOf(spec))) == Contents(Walk(n, PlanningBase(spec), SkipOf(spec))) == Contents(sent)
      && |Toc(sent)| == |Contents(sent)|
      && forall i :: 0 <= i < |Toc(sent)| ==> Toc(sent)[i].size == |Contents(sent)[i]|
  {
    var n := Reach(tree, [], spec.sub, beyond).value;
    var dry, planned, sent := Walk(n, [], DrySkipOf(spec)), Walk(n, PlanningBase(spec), SkipOf(spec)),
                              Walk(n, spec.sub, SkipOf(spec));
    ReachValid(tree, [], spec.sub, beyond);
    ThreeWalksAgree(tree, beyond, spec);
    WalkPathsBelow(n, PlanningBase(spec), SkipOf(spec));
    WalkPathsBelow(n, spec.sub, SkipOf(spec));
    SameFilesSameContents(dry, 0, sent, |spec.sub|);
    SameFilesSameContents(planned, 1, sent, |spec.sub|);
    TocHolds(sent);
  }

  /** The table of contents names exactly the part's files, as the archive names them. */
  lemma {:induction false} TocListsFiles(es: seq<Entry>, name: string, size: nat)
    ensures TocEntry(name, size) in Toc(es) <==>
            exists e :: e in es && e.obj.OFile? && RelName(e.path) == name && |e.obj.content| == size
  {
    if es != [] {
      TocListsFiles(es[..|es| - 1], name, size);
      assert es == es[..|es| - 1] + [es[|es| - 1]];
    }
  }

  // ---------------------------------------------------------------- the dry run

  /** One line of the dry run's plan; its numbers are filled in by a goroutine of its own. */
  datatype DryPart = DryPart(spec: PartSpec, skipped: bool, files: nat, bytes: nat)

  const ALL_PARTS: seq<PartSpec> := [LIVE, CHAIN_FREEZER, STATE_FREEZER, JOURNAL]

  /** printPlan's pre-check: an optional part that cannot be statted is skipped. */
  predicate DrySkipped(tree: Node, spec: PartSpec, beyond: Beyond) {
    (spec == STATE_FREEZER || spec == JOURNAL) && !Stat(tree, spec.sub, beyond)
  }

  /** What a dry-run walk meets; a root that is missing holds nothing. */
  function DryWalk(tree: Node, spec: PartSpec, beyond: Beyond): seq<Entry> {
    match Reach(tree, [], spec.sub, beyond)
    case None => []
    case Some(n) => Walk(n, [], DrySkipOf(spec))
  }

  /** The dry-run walks of several parts, one after the other. */
  function DryWalks(tree: Node, specs: seq<PartSpec>, beyond: Beyond): seq<Entry> {
    if specs == [] then []
    else DryWalks(tree, specs[..|specs| - 1], beyond) + DryWalk(tree, specs[|specs| - 1], beyond)
  }

  /** The parts of a list that the dry run does not skip. */
  function Kept(tree: Node, specs: seq<PartSpec>, beyond: Beyond): seq<PartSpec> {
    if specs == [] then []
    else
      var last := specs[|specs| - 1];
      Kept(tree, specs[..|specs| - 1], beyond) + if DrySkipped(tree, last, beyond) then [] else [last]
  }

  /** The dry run keeps exactly the parts that an upload plans, in the same order. */
  lemma KeptIsPlanned(tree: Node, beyond: Beyond)
    ensures Kept(tree, ALL_PARTS, beyond) == PlanParts(tree, beyond)
  {
    assert ALL_PARTS[..3][..2] == ALL_PARTS[..2] && ALL_PARTS[..2][..1] == ALL_PARTS[..1] && ALL_PARTS[..1][..0] == [];
    assert Kept(tree, ALL_PARTS[..1], beyond) == [LIVE];
    assert Kept(tree, ALL_PARTS[..2], beyond) == [LIVE, CHAIN_FREEZER];
    assert STATE_FREEZER.sub == STATE && JOURNAL.sub == TRIEDB;
  }

  /** A finished line of the plan. */
  function LineOf(tree: Node, spec: PartSpec, beyond: Beyond): DryPart {
    if DrySkipped(tree, spec, beyond) then DryPart(spec, true, 0, 0)
    else
      var held := Contents(DryWalk(tree, spec, beyond));
      DryPart(spec, false, |held|, |Concat(held)|)
  }

  /** One goroutine of printPlan: the numbers of one line. */
  method CountPart(tree: Node, spec: PartSpec, beyond: Beyond) returns (line: DryPart)
    requires !DrySkipped(tree, spec, beyond)
    ensures line == LineOf(tree, spec, beyond)
  {
    var count, size := 0, 0;
    match Reach(tree, [], spec.sub, beyond) {
      case None =>
      case Some(n) => count, size := WalkSize(n, [], DrySkipOf(spec), 0, 0);
    }
    line := DryPart(spec, false, count, size);
  }

  method FillIn(tree: Node, beyond: Beyond, lines: array<DryPart>)
    requires lines.Length == |ALL_PARTS|
    requires forall j :: 0 <= j < lines.Length ==>
      lines[j] == DryPart(ALL_PARTS[j], DrySkipped(tree, ALL_PARTS[j], beyond), 0, 0)
    modifies lines
    ensures forall j :: 0 <= j < lines.Length ==> lines[j] == LineOf(tree, ALL_PARTS[j], beyond)
  {
    hide DrySkipped, DryWalk;
    for i := 0 to lines.Length
      invariant forall j :: 0 <= j < i ==> lines[j] == LineOf(tree, ALL_PARTS[j], beyond)
      invariant forall j :: i <= j < lines.Length ==> lines[j] == old(lines[j])
    {
      if !lines[i].skipped { lines[i] := CountPart(tree, lines[i].spec, beyond); }
    }
  }

  /** One more line adds itself to the plan and its numbers to the totals, unless it is skipped. */
  lemma KeptSnoc(tree: Node, specs: seq<PartSpec>, i: nat, beyond: Beyond)
    requires i < |specs|
    ensures var before := Kept(tree, specs[..i], beyond);
      Kept(tree, specs[..i + 1], beyond) == if DrySkipped(tree, specs[i], beyond) then before else before + [specs[i]]
  {
    var upto := specs[..i + 1];
    assert upto[..|upto| - 1] == specs[..i] && upto[|upto| - 1] == specs[i];
  }

  /** The keys and totals of a plan with these parts. */
  ghost predicate Totals(tree: Node, beyond: Beyond, kept: seq<PartSpec>, keys: seq<string>, files: nat, bytes: nat) {
    && |keys| == |kept| && (forall j :: 0 <= j < |keys| ==> keys[j] == kept[j].partPath)
    && files == |Contents(DryWalks(tree, kept, beyond))|
    && bytes == |Concat(Contents(DryWalks(tree, kept, beyond)))|
  }

  lemma TotalsSnoc(tree: Node, beyond: Beyond, kept: seq<PartSpec>, keys: seq<string>, files: nat, bytes: nat,
                   spec: PartSpec)
    requires Totals(tree, beyond, kept, keys, files, bytes)
    ensures var held := Contents(DryWalk(tree, spec, beyond));
      Totals(tree, beyond, kept + [spec], keys + [spec.partPath], files + |held|, bytes + |Concat(held)|)
  {
    var all := kept + [spec];
    assert all[..|all| - 1] == kept && all[|all| - 1] == spec;
    TotalsAppend(DryWalks(tree, kept, beyond), DryWalk(tree, spec, beyond));
  }

  lemma LineIs(tree: Node, spec: PartSpec, beyond: Beyond)
    ensures var line, held := LineOf(tree, spec, beyond), Contents(DryWalk(tree, spec, beyond));
      && line.spec == spec && line.skipped == DrySkipped(tree, spec, beyond)
      && (!line.skipped ==> line.files == |held| && line.bytes == |Concat(held)|)
  {
  }

  /** The kept keys and the totals of finished lines. */
  method SumUp(tree: Node, beyond: Beyond, specs: seq<PartSpec>, lines: seq<DryPart>)
    returns (keys: seq<string>, files: nat, bytes: nat)
    requires |lines| == |specs| && forall j :: 0 <= j < |lines| ==> lines[j] == LineOf(tree, specs[j], beyond)
    ensures Totals(tree, beyond, Kept(tree, specs, beyond), keys, files, bytes)
  {
    keys, files, bytes := [], 0, 0;
    assert specs[..0] == [] && specs[..|specs|] == specs;
    assert Kept(tree, specs[..0], beyond) == [] && Totals(tree, beyond, [], keys, files, bytes);
    hide *;
    for i := 0 to |lines|
      invariant Totals(tree, beyond, Kept(tree, specs[..i], beyond), keys, files, bytes)
    {
      KeptSnoc(tree, specs, i, beyond);
      LineIs(tree, specs[i], beyond);
      if !lines[i].skipped {
        TotalsSnoc(tree, beyond, Kept(tree, specs[..i], beyond), keys, files, bytes, specs[i]);
        keys, files, bytes := keys + [lines[i].spec.partPath], files + lines[i].files, bytes + lines[i].bytes;
      }
    }
  }

  lemma TotalsAre(tree: Node, beyond: Beyond, kept: seq<PartSpec>, keys: seq<string>, files: nat, bytes: nat)
    requires Totals(tree, beyond, kept, keys, files, bytes)
    ensures files == |Contents(DryWalks(tree, kept, beyond))|
    ensures bytes == |Concat(Contents(DryWalks(tree, kept, beyond)))|
  {
  }

  /** printPlan: the keys the dry run announces are the planned parts', and its totals are theirs. */
  method PrintPlan(tree: Node, beyond: Beyond) returns (keys: seq<string>, files: nat, bytes: nat)
    ensures Totals(tree, beyond, PlanParts(tree, beyond), keys, files, bytes)
    ensures ValidTree(tree) && ValidBeyond(beyond) && Tarred(tree, beyond).Some? ==>
      && files == |Contents(Concat(Tarred(tree, beyond).value))|
      && bytes == |Concat(Contents(Concat(Tarred(tree, beyond).value)))|
  {
    var lines := new DryPart[|ALL_PARTS|](i requires 0 <= i < |ALL_PARTS| =>
      DryPart(ALL_PARTS[i], DrySkipped(tree, ALL_PARTS[i], beyond), 0, 0));
    FillIn(tree, beyond, lines);
    KeptIsPlanned(tree, beyond);
    if ValidTree(tree) && ValidBeyond(beyond) && Tarred(tree, beyond).Some? { DryRunIsExact(tree, beyond); }
    hide *;
    keys, files, bytes := SumUp(tree, beyond, ALL_PARTS, lines[..]);
    TotalsAre(tree, beyond, PlanParts(tree, beyond), keys, files, bytes);
  }

  lemma {:induction false} DryMatchesSent(tree: Node, beyond: Beyond, specs: seq<PartSpec>, parts: seq<seq<Entry>>)
    requires ValidTree(tree) && ValidBeyond(beyond) && forall spec | spec in specs :: spec in PlanParts(tree, beyond)
    requires |parts| == |specs| && forall j :: 0 <= j < |parts| ==>
        PartEntries(tree, specs[j], beyond) == Some(parts[j])
    ensures Contents(DryWalks(tree, specs, beyond)) == Contents(Concat(parts))
  {
    if specs != [] {
      var n := |specs| - 1;
      DryMatchesSent(tree, beyond, specs[..n], parts[..n]);
      assert specs[n] in specs;
      TotalsAgree(tree, beyond, specs[n]);
      ContentsAppend(DryWalks(tree, specs[..n], beyond), DryWalk(tree, specs[n], beyond));
      ContentsAppend(Concat(parts[..n]), parts[n]);
    }
  }

  /**
   For every tree an upload accepts, the files that the dry run measures are the files that
   the parts carry, content by content: its count and its byte total are exact.
   */
  lemma DryRunIsExact(tree: Node, beyond: Beyond)
    requires ValidTree(tree) && ValidBeyond(beyond) && Tarred(tree, beyond).Some?
    ensures Contents(DryWalks(tree, PlanParts(tree, beyond), beyond)) == Contents(Concat(Tarred(tree, beyond).value))
  {
    var specs, parts := PlanParts(tree, beyond), Tarred(tree, beyond).value;
    EntriesOfAllAt(tree, specs, beyond, 0);
    forall j | 0 <= j < |parts| ensures PartEntries(tree, specs[j], beyond) == Some(parts[j]) {
      EntriesOfAllAt(tree, specs, beyond, j);
    }
    DryMatchesSent(tree, beyond, specs, parts);
  }
}
