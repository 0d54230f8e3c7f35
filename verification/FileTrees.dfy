/** Directory trees, and the walk that turns a subtree into tar entries. */
module FileTrees {
  import opened Basics
  import opened Paths

  /** Sockets cannot be archived; other special files are archived but not extracted. */
  datatype Special = Socket | Device

  datatype Node =
    | Dir(kids: seq<Kid>)
    | File(content: Bytes)
    | Link(target: string)
    | Other(kind: Special)

  datatype Kid = Kid(name: string, node: Node)

  /** Names are file names, and a directory holds each name once. */
  ghost predicate ValidTree(n: Node) {
    n.Dir? ==>
      && (forall k | k in n.kids :: ValidName(k.name) && ValidTree(k.node))
      && (forall i, j :: 0 <= i < j < |n.kids| ==> n.kids[i].name != n.kids[j].name)
  }

  function Find(kids: seq<Kid>, name: string): Option<Node> {
    if kids == [] then None
    else if kids[0].name == name then Some(kids[0].node)
    else Find(kids[1..], name)
  }

  /** The node at a path below n, not following links. */
  function Lookup(n: Node, p: Path): Option<Node>
    decreases |p|
  {
    if p == [] then Some(n)
    else if !n.Dir? then None
    else
      match Find(n.kids, p[0])
      case None => None
      case Some(k) => Lookup(k, p[1..])
  }

  /** What the link at a path leads to when it is followed to its end; None when it dangles. */
  type Beyond = Path -> Option<Node>

  function Followed(n: Node, at: Path, beyond: Beyond): Option<Node> {
    if n.Link? then beyond(at) else Some(n)
  }

  /** What os.Lstat finds at `at + p` from the node at `at`: links are followed on the way, but not at the end. */
  function Reach(n: Node, at: Path, p: Path, beyond: Beyond): Option<Node>
    decreases |p|
  {
    if p == [] then Some(n)
    else
      match Followed(n, at, beyond)
      case None => None
      case Some(d) =>
        if !d.Dir? then None
        else
          match Find(d.kids, p[0])
          case None => None
          case Some(k) => Reach(k, at + [p[0]], p[1..], beyond)
  }

  /** What one path of a file system holds. */
  datatype Obj = ODir | OFile(content: Bytes) | OLink(target: string) | OOther(kind: Special)

  function ObjOf(n: Node): Obj {
    match n
    case Dir(_) => ODir
    case File(content) => OFile(content)
    case Link(target) => OLink(target)
    case Other(kind) => OOther(kind)
  }

  datatype Entry = Entry(path: Path, obj: Obj)

  /** The slash path handed to a skip predicate; the walk's own root is ".". */
  function RelName(p: Path): string {
    if p == [] then "." else Render(p)
  }

  type Skip = string -> bool

  function NoSkip(rel: string): bool { false }

  /** WalkDir from the node at `path`: parents first, skipped directories not entered. */
  function Walk(n: Node, path: Path, skip: Skip): seq<Entry>
    decreases n, 1
  {
    if skip(RelName(path)) then []
    else [Entry(path, ObjOf(n))] + if n.Dir? then WalkKids(n.kids, path, skip) else []
  }

  function WalkKids(kids: seq<Kid>, path: Path, skip: Skip): seq<Entry>
    decreases kids, 0
  {
    if kids == [] then []
    else Walk(kids[0].node, path + [kids[0].name], skip) + WalkKids(kids[1..], path, skip)
  }

  // --------------------------------------------------------- what a walk emits

  ghost predicate ValidKids(kids: seq<Kid>) {
    && (forall k | k in kids :: ValidName(k.name) && ValidTree(k.node))
    && (forall i, j :: 0 <= i < j < |kids| ==> kids[i].name != kids[j].name)
  }

  /** The entry describes the node at its path, and nothing on the way there is skipped. */
  ghost predicate Emitted(n: Node, path: Path, skip: Skip, e: Entry) {
    && path <= e.path
    && Lookup(n, e.path[|path|..]).Some?
    && e.obj == ObjOf(Lookup(n, e.path[|path|..]).value)
    && forall k :: |path| <= k <= |e.path| ==> !skip(RelName(e.path[..k]))
  }

  ghost predicate KidsEmitted(kids: seq<Kid>, path: Path, skip: Skip, e: Entry) {
    && path < e.path
    && Find(kids, e.path[|path|]).Some?
    && Emitted(Find(kids, e.path[|path|]).value, e.path[..|path| + 1], skip, e)
  }

  lemma {:induction false} FindFacts(kids: seq<Kid>, name: string)
    requires ValidKids(kids)
    ensures Find(kids, name).Some? <==> exists k :: k in kids && k.name == name
    ensures Find(kids, name).Some? ==> ValidName(name) && ValidTree(Find(kids, name).value)
  {
    if kids != [] {
      FindFacts(kids[1..], name);
      assert kids == [kids[0]] + kids[1..];
      assert kids[0] in kids;
    }
  }

  lemma {:induction false} EmittedStep(n: Node, path: Path, skip: Skip, e: Entry)
    requires !skip(RelName(path))
    ensures Emitted(n, path, skip, e) <==>
            (e == Entry(path, ObjOf(n)) || (n.Dir? && KidsEmitted(n.kids, path, skip, e)))
  {
    if path < e.path {
      var name, up := e.path[|path|], e.path[..|path| + 1];
      assert e.path[|path|..][0] == name;
      assert e.path[|path|..][1..] == e.path[|path| + 1..];
      assert path <= up <= e.path;
      assert e.path[..|path|] == path;
      if n.Dir? && Find(n.kids, name).Some? {
        assert (forall k :: |path| <= k <= |e.path| ==> !skip(RelName(e.path[..k])))
          <==> (forall k :: |up| <= k <= |e.path| ==> !skip(RelName(e.path[..k])));
      }
    } else if path <= e.path {
      assert e.path == path && e.path[|path|..] == [];
      assert forall k :: |path| <= k <= |e.path| ==> e.path[..k] == path;
    }
  }

  /** Exactly the reachable, unskipped nodes are emitted. */
  lemma {:induction false} WalkEmits(n: Node, path: Path, skip: Skip, e: Entry)
    requires ValidTree(n)
    ensures e in Walk(n, path, skip) <==> Emitted(n, path, skip, e)
    decreases n, 1
  {
    if skip(RelName(path)) {
      if path <= e.path { assert e.path[..|path|] == path; }
    } else {
      EmittedStep(n, path, skip, e);
      if n.Dir? {
        WalkKidsEmits(n.kids, path, skip, e);
      }
    }
  }

  lemma {:induction false} WalkKidsEmits(kids: seq<Kid>, path: Path, skip: Skip, e: Entry)
    requires ValidKids(kids)
    ensures e in WalkKids(kids, path, skip) <==> KidsEmitted(kids, path, skip, e)
    decreases kids, 0
  {
    if kids != [] {
      var first, rest := kids[0], kids[1..];
      assert first in kids;
      WalkEmits(first.node, path + [first.name], skip, e);
      WalkKidsEmits(rest, path, skip, e);
      if path < e.path {
        var name := e.path[|path|];
        if name == first.name {
          assert e.path[..|path| + 1] == path + [first.name];
          FindFacts(rest, name);
          assert Find(rest, name).None?;
        } else {
          assert !(path + [first.name] <= e.path);
        }
      } else {
        assert !(path + [first.name] <= e.path);
      }
    }
  }

  ghost predicate DistinctPaths(s: seq<Entry>) {
    forall i, j :: 0 <= i < j < |s| ==> s[i].path != s[j].path
  }

  /** Nothing comes after something that is at or below its path. */
  ghost predicate ParentsFirst(s: seq<Entry>) {
    forall i, j :: 0 <= i < j < |s| ==> !(s[j].path <= s[i].path)
  }

  /** No path is emitted twice, and every directory comes before what is in it. */
  lemma {:induction false} WalkDistinct(n: Node, path: Path, skip: Skip)
    requires ValidTree(n)
    ensures ParentsFirst(Walk(n, path, skip)) && DistinctPaths(Walk(n, path, skip))
    decreases n, 1
  {
    if n.Dir? && !skip(RelName(path)) {
      WalkKidsDistinct(n.kids, path, skip);
      var rest := WalkKids(n.kids, path, skip);
      forall j | 0 <= j < |rest| ensures !(rest[j].path <= path) {
        WalkKidsEmits(n.kids, path, skip, rest[j]);
      }
    }
  }

  lemma {:induction false} WalkKidsDistinct(kids: seq<Kid>, path: Path, skip: Skip)
    requires ValidKids(kids)
    ensures ParentsFirst(WalkKids(kids, path, skip))
    decreases kids, 0
  {
    if kids != [] {
      var first := kids[0];
      assert first in kids;
      var a, b := Walk(first.node, path + [first.name], skip), WalkKids(kids[1..], path, skip);
      WalkDistinct(first.node, path + [first.name], skip);
      WalkKidsDistinct(kids[1..], path, skip);
      forall i, j | 0 <= i < |a| && 0 <= j < |b| ensures !(b[j].path <= a[i].path) {
        WalkEmits(first.node, path + [first.name], skip, a[i]);
        WalkKidsEmits(kids[1..], path, skip, b[j]);
        FindFacts(kids[1..], first.name);
      }
    }
  }

  // ------------------------------------------------------------------ lookups

  lemma {:induction false} LookupSplit(n: Node, p: Path, q: Path)
    ensures Lookup(n, p).Some? ==> Lookup(n, p + q) == Lookup(Lookup(n, p).value, q)
    ensures Lookup(n, p).None? ==> Lookup(n, p + q).None?
    decreases |p|
  {
    if p == [] {
      assert p + q == q;
    } else if n.Dir? && Find(n.kids, p[0]).Some? {
      LookupSplit(Find(n.kids, p[0]).value, p[1..], q);
      assert (p + q)[1..] == p[1..] + q;
    }
  }

  lemma {:induction false} LookupValid(n: Node, p: Path)
    requires ValidTree(n) && Lookup(n, p).Some?
    ensures ValidPath(p) && ValidTree(Lookup(n, p).value)
    decreases |p|
  {
    if p != [] {
      FindFacts(n.kids, p[0]);
      LookupValid(Find(n.kids, p[0]).value, p[1..]);
    }
  }

  /** Every proper ancestor of a node is a directory. */
  lemma AncestorIsDir(n: Node, p: Path, k: nat)
    requires k < |p| && Lookup(n, p).Some?
    ensures Lookup(n, p[..k]).Some? && Lookup(n, p[..k]).value.Dir?
  {
    LookupSplit(n, p[..k], p[k..]);
    assert p[..k] + p[k..] == p;
  }

  // ------------------------------------------------------- links on the way

  /** Without a link on the way, following links changes nothing. */
  lemma {:induction false} ReachDirect(n: Node, at: Path, p: Path, beyond: Beyond)
    requires forall k :: 0 <= k < |p| && Lookup(n, p[..k]).Some? ==> !Lookup(n, p[..k]).value.Link?
    ensures Reach(n, at, p, beyond) == Lookup(n, p)
    decreases |p|
  {
    if p != [] {
      assert p[..0] == [];
      if n.Dir? && Find(n.kids, p[0]).Some? {
        var kid := Find(n.kids, p[0]).value;
        forall k | 0 <= k < |p[1..]| && Lookup(kid, p[1..][..k]).Some? ensures !Lookup(kid, p[1..][..k]).value.Link? {
          assert p[..k + 1][1..] == p[1..][..k];
        }
        ReachDirect(kid, at + [p[0]], p[1..], beyond);
      }
    }
  }

  ghost predicate ValidBeyond(beyond: Beyond) {
    forall p :: beyond(p).Some? ==> ValidTree(beyond(p).value)
  }

  lemma {:induction false} ReachValid(n: Node, at: Path, p: Path, beyond: Beyond)
    requires ValidTree(n) && ValidBeyond(beyond) && Reach(n, at, p, beyond).Some?
    ensures ValidPath(p) && ValidTree(Reach(n, at, p, beyond).value)
    decreases |p|
  {
    if p != [] {
      var d := Followed(n, at, beyond).value;
      FindFacts(d.kids, p[0]);
      ReachValid(Find(d.kids, p[0]).value, at + [p[0]], p[1..], beyond);
    }
  }

  /** A walk stays below its root. */
  lemma {:induction false} WalkStaysBelow(n: Node, path: Path, skip: Skip)
    ensures forall e | e in Walk(n, path, skip) :: path <= e.path
    decreases n, 1
  {
    if n.Dir? { KidsStayBelow(n.kids, path, skip); }
  }

  lemma {:induction false} KidsStayBelow(kids: seq<Kid>, path: Path, skip: Skip)
    ensures forall e | e in WalkKids(kids, path, skip) :: path <= e.path
    decreases kids, 0
  {
    if kids != [] {
      WalkStaysBelow(kids[0].node, path + [kids[0].name], skip);
      KidsStayBelow(kids[1..], path, skip);
    }
  }

  /** And never emits a path its predicate skips. */
  lemma {:induction false} WalkSkips(n: Node, path: Path, skip: Skip)
    ensures forall e | e in Walk(n, path, skip) :: !skip(RelName(e.path))
    decreases n, 1
  {
    if n.Dir? { KidsSkip(n.kids, path, skip); }
  }

  lemma {:induction false} KidsSkip(kids: seq<Kid>, path: Path, skip: Skip)
    ensures forall e | e in WalkKids(kids, path, skip) :: !skip(RelName(e.path))
    decreases kids, 0
  {
    if kids != [] {
      WalkSkips(kids[0].node, path + [kids[0].name], skip);
      KidsSkip(kids[1..], path, skip);
    }
  }
}
