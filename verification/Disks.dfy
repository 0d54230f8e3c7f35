/**
 A file system with links, and the calls that extraction makes on it.  Paths are absolute
 and canonical where they name a place; a path handed to a call may run through links.
 */
module Disks {
  import opened Basics
  import opened Paths
  import opened FileTrees

  /** What each place holds; the root is the empty path. */
  type FileSystem = map<Path, Obj>

  /** A path that runs through more links than this is refused. */
  const MAX_LINKS: nat := 40

  function Parent(p: Path): Path {
    if p == [] then [] else p[..|p| - 1]
  }

  predicate IsAbs(target: string) {
    target != "" && target[0] == '/'
  }

  /** The components of a link's target; ".." stays, for it depends on where the walk stands. */
  function Components(target: string): Path {
    DropDots(Split(target))
  }

  function DropDots(segs: seq<string>): Path {
    if segs == [] then [] else (if segs[0] == "" || segs[0] == "." then [] else [segs[0]]) + DropDots(segs[1..])
  }

  /** The root exists and every ancestor of a place is a directory. */
  predicate Sound(fs: FileSystem) {
    && [] in fs && fs[[]] == ODir
    && forall p, k :: p in fs && 0 <= k < |p| ==> p[..k] in fs && fs[p[..k]] == ODir
  }

  // ---------------------------------------------------------------- resolution

  /** Where a path leads: a place that exists or could be made, ENOENT, or another error. */
  datatype Found = At(place: Path) | Missing | Refused

  /** Walks `segs` from `at`, following every link, the last one too. */
  function Locate(fs: FileSystem, at: Path, segs: Path, links: nat): Found
    decreases links, |segs|
  {
    if segs == [] then At(at)
    else if at !in fs then Missing
    else if !fs[at].ODir? then Refused
    else if segs[0] == ".." then Locate(fs, Parent(at), segs[1..], links)
    else
      var q := at + [segs[0]];
      if q in fs && fs[q].OLink? then
        if links == 0 then Refused
        else Locate(fs, if IsAbs(fs[q].target) then [] else at, Components(fs[q].target) + segs[1..], links - 1)
      else Locate(fs, q, segs[1..], links)
  }

  function Where(fs: FileSystem, p: Path): Found {
    Locate(fs, [], p, MAX_LINKS)
  }

  /** os.Stat succeeds. */
  predicate Exists(fs: FileSystem, p: Path) {
    Where(fs, p).At? && Where(fs, p).place in fs
  }

  predicate IsDir(fs: FileSystem, p: Path) {
    Exists(fs, p) && fs[Where(fs, p).place].ODir?
  }

  /** os.ReadDir: the names in a directory, or what kind of error. */
  datatype Listing = Names(names: set<string>) | NotExist | Unlistable

  function ReadDir(fs: FileSystem, p: Path): Listing {
    match Where(fs, p)
    case Missing => NotExist
    case Refused => Unlistable
    case At(q) =>
      if q !in fs then NotExist
      else if !fs[q].ODir? then Unlistable
      else Names(set p | p in fs && q <= p && |p| == |q| + 1 :: p[|q|])
  }

  // --------------------------------------------------------------------- calls

  /** The file system after a call, and whether the call succeeded. */
  datatype Outcome = Outcome(fs: FileSystem, ok: bool)

  /** os.Mkdir, with os.MkdirAll's second look at what is in the way. */
  function Mkdir(fs: FileSystem, p: Path): Outcome
    requires p != []
  {
    if !IsDir(fs, Parent(p)) then Outcome(fs, false)
    else
      var q := Where(fs, Parent(p)).place + [p[|p| - 1]];
      if q in fs then Outcome(fs, fs[q].ODir?) else Outcome(fs[q := ODir], true)
  }

  /** os.MkdirAll: a link to a directory on the path is as good as a directory. */
  function MkdirAll(fs: FileSystem, p: Path): Outcome
    decreases |p|
  {
    if Exists(fs, p) then Outcome(fs, fs[Where(fs, p).place].ODir?)
    else if p == [] then Outcome(fs, false)
    else
      var up := MkdirAll(fs, Parent(p));
      if up.ok then Mkdir(up.fs, p) else up
  }

  /** The place that os.OpenFile with O_CREATE and O_TRUNC opens, at most one. */
  function Opened(fs: FileSystem, p: Path): set<Path> {
    match Where(fs, p)
    case At(q) => if q !in fs || fs[q].OFile? then {q} else {}
    case _ => {}
  }

  /** os.OpenFile and the copy into it. */
  function WriteFile(fs: FileSystem, p: Path, content: Bytes): Outcome {
    match Where(fs, p)
    case At(q) => if q !in fs || fs[q].OFile? then Outcome(fs[q := OFile(content)], true) else Outcome(fs, false)
    case _ => Outcome(fs, false)
  }

  /** The place where os.Symlink makes a link, at most one. */
  function Linked(fs: FileSystem, p: Path, target: string): set<Path>
    requires p != []
  {
    if target != "" && IsDir(fs, Parent(p)) && Where(fs, Parent(p)).place + [p[|p| - 1]] !in fs then
      {Where(fs, Parent(p)).place + [p[|p| - 1]]}
    else {}
  }

  function Symlink(fs: FileSystem, p: Path, target: string): Outcome
    requires p != []
  {
    if Linked(fs, p, target) == {} then Outcome(fs, false)
    else Outcome(fs[Where(fs, Parent(p)).place + [p[|p| - 1]] := OLink(target)], true)
  }

  // ------------------------------------------------------- what resolution does

  /** A place that exists, or whose directory does. */
  ghost predicate Standing(fs: FileSystem, q: Path) {
    q in fs || (q != [] && Parent(q) in fs && fs[Parent(q)] == ODir)
  }

  lemma ParentStands(fs: FileSystem, q: Path)
    requires Sound(fs) && q in fs
    ensures Parent(q) in fs
  {
  }

  lemma {:induction false} LocateStands(fs: FileSystem, at: Path, segs: Path, links: nat)
    requires Sound(fs) && Standing(fs, at) && Locate(fs, at, segs, links).At?
    ensures Standing(fs, Locate(fs, at, segs, links).place)
    decreases links, |segs|
  {
    if segs != [] {
      ParentStands(fs, at);
      if segs[0] == ".." {
        LocateStands(fs, Parent(at), segs[1..], links);
      } else {
        var q := at + [segs[0]];
        assert Parent(q) == at;
        if q in fs && fs[q].OLink? {
          LocateStands(fs, if IsAbs(fs[q].target) then [] else at, Components(fs[q].target) + segs[1..], links - 1);
        } else {
          LocateStands(fs, q, segs[1..], links);
        }
      }
    }
  }

  /** fs' has everything fs has; only the contents of files may differ. */
  ghost predicate Extends(fs: FileSystem, fs': FileSystem) {
    forall q | q in fs :: q in fs' && (fs'[q] == fs[q] || (fs[q].OFile? && fs'[q].OFile?))
  }

  /** A path that leads somewhere keeps leading there. */
  lemma {:induction false} LocateGrows(fs: FileSystem, fs': FileSystem, at: Path, segs: Path, links: nat)
    requires Extends(fs, fs') && at in fs
    requires Locate(fs, at, segs, links).At? && Locate(fs, at, segs, links).place in fs
    requires Sound(fs)
    ensures Locate(fs', at, segs, links) == Locate(fs, at, segs, links)
    decreases links, |segs|
  {
    if segs != [] {
      ParentStands(fs, at);
      if segs[0] == ".." {
        LocateGrows(fs, fs', Parent(at), segs[1..], links);
      } else {
        var q := at + [segs[0]];
        if q in fs && fs[q].OLink? {
          LocateGrows(fs, fs', if IsAbs(fs[q].target) then [] else at, Components(fs[q].target) + segs[1..], links - 1);
        } else {
          LocateGrows(fs, fs', q, segs[1..], links);
        }
      }
    }
  }

  /** One more component that is neither ".." nor a link. */
  lemma {:induction false} LocateSnoc(fs: FileSystem, at: Path, segs: Path, s: string, links: nat)
    requires Sound(fs) && Standing(fs, at) && s != ".."
    requires Locate(fs, at, segs, links).At?
    requires var d := Locate(fs, at, segs, links).place; d in fs && fs[d].ODir? && (d + [s] in fs ==>
        !fs[d + [s]].OLink?)
    ensures Locate(fs, at, segs + [s], links) == At(Locate(fs, at, segs, links).place + [s])
    decreases links, |segs|
  {
    if segs == [] {
      assert (segs + [s])[1..] == [];
    } else {
      assert (segs + [s])[1..] == segs[1..] + [s];
      ParentStands(fs, at);
      if segs[0] == ".." {
        LocateSnoc(fs, Parent(at), segs[1..], s, links);
      } else {
        var q := at + [segs[0]];
        assert Parent(q) == at;
        if q in fs && fs[q].OLink? {
          var rest := Components(fs[q].target);
          assert rest + (segs[1..] + [s]) == rest + segs[1..] + [s];
          LocateSnoc(fs, if IsAbs(fs[q].target) then [] else at, rest + segs[1..], s, links - 1);
        } else {
          LocateSnoc(fs, q, segs[1..], s, links);
        }
      }
    }
  }

  /** A path only leads somewhere if the path above it leads to a directory. */
  lemma {:induction false} LocateNeedsDir(fs: FileSystem, at: Path, segs: Path, s: string, links: nat)
    requires Locate(fs, at, segs + [s], links).At?
    ensures Locate(fs, at, segs, links).At?
    ensures var d := Locate(fs, at, segs, links).place; d in fs && fs[d].ODir?
    decreases links, |segs|
  {
    if segs != [] {
      assert (segs + [s])[1..] == segs[1..] + [s];
      if segs[0] == ".." {
        LocateNeedsDir(fs, Parent(at), segs[1..], s, links);
      } else {
        var q := at + [segs[0]];
        if q in fs && fs[q].OLink? {
          var rest := Components(fs[q].target);
          assert rest + (segs[1..] + [s]) == rest + segs[1..] + [s];
          LocateNeedsDir(fs, if IsAbs(fs[q].target) then [] else at, rest + segs[1..], s, links - 1);
        } else {
          LocateNeedsDir(fs, q, segs[1..], s, links);
        }
      }
    }
  }

  /** One step of a walk that meets no link. */
  function StepFrom(fs: FileSystem, at: Path, s: string): Found {
    if at !in fs then Missing
    else if !fs[at].ODir? then Refused
    else At(if s == ".." then Parent(at) else at + [s])
  }

  ghost predicate NoLinks(fs: FileSystem) {
    forall q | q in fs :: !fs[q].OLink?
  }

  lemma {:induction false} WalkSnoc(fs: FileSystem, at: Path, segs: Path, s: string, links: nat)
    requires NoLinks(fs)
    ensures Locate(fs, at, segs + [s], links) ==
            match Locate(fs, at, segs, links) case At(q) => StepFrom(fs, q, s) case r => r
    decreases |segs|
  {
    if segs == [] {
      assert (segs + [s])[1..] == [];
    } else {
      assert (segs + [s])[1..] == segs[1..] + [s];
      if segs[0] == ".." {
        WalkSnoc(fs, Parent(at), segs[1..], s, links);
      } else {
        WalkSnoc(fs, at + [segs[0]], segs[1..], s, links);
      }
    }
  }

  lemma {:induction false} DropDotsSnoc(segs: seq<string>, s: string)
    ensures DropDots(segs + [s]) == DropDots(segs) + if s == "" || s == "." then [] else [s]
  {
    if segs == [] {
      assert [s][1..] == [];
    } else {
      assert (segs + [s])[1..] == segs[1..] + [s];
      DropDotsSnoc(segs[1..], s);
    }
  }

  /** Going up undoes the last step that cleaning kept. */
  lemma CleanUp(fs: FileSystem, at: Path, done: Path, rooted: bool, links: nat)
    requires NoLinks(fs) && (rooted ==> at == []) && Cleaned(done, rooted)
    requires var r := Locate(fs, at, done, links); r.At? && r.place in fs && fs[r.place].ODir?
    ensures Locate(fs, at, if done != [] && done[|done| - 1] != ".." then done[..|done| - 1]
                           else if rooted then done else done + [".."], links)
         == At(Parent(Locate(fs, at, done, links).place))
  {
    if done != [] && done[|done| - 1] != ".." {
      var up, name := done[..|done| - 1], done[|done| - 1];
      assert done == up + [name];
      WalkSnoc(fs, at, up, name, links);
      assert Parent(Locate(fs, at, up, links).place + [name]) == Locate(fs, at, up, links).place;
    } else {
      WalkSnoc(fs, at, done, "..", links);
    }
    hide Locate, NoLinks;
  }

  /**
   Cleaning keeps the meaning of a path: on a disk without links, a path that leads
   somewhere still leads there once it is cleaned, from any directory or from the root.
   */
  lemma {:induction false} CleanLeadsThere(fs: FileSystem, at: Path, segs: seq<string>, rooted: bool, links: nat)
    requires NoLinks(fs) && (rooted ==> at == []) && forall i :: 0 <= i < |segs| ==> Plain(segs[i])
    requires Locate(fs, at, DropDots(segs), links).At?
    ensures Locate(fs, at, CleanSegs(segs, rooted), links) == Locate(fs, at, DropDots(segs), links)
  {
    if segs != [] {
      var init, last := segs[..|segs| - 1], segs[|segs| - 1];
      var done := CleanSegs(init, rooted);
      assert segs == init + [last];
      DropDotsSnoc(init, last);
      assert DropDots(init) + [] == DropDots(init);
      if last != "" && last != "." { WalkSnoc(fs, at, DropDots(init), last, links); }
      CleanLeadsThere(fs, at, init, rooted, links);
      CleanSegsCleaned(init, rooted);
      if last == ".." {
        CleanUp(fs, at, done, rooted, links);
      } else {
        WalkSnoc(fs, at, done, last, links);
      }
      hide DropDots, Locate, NoLinks, Cleaned;
    }
  }

  /** A canonical path to a directory leads to itself. */
  lemma {:induction false} LocateFrom(fs: FileSystem, at: Path, a: Path, b: Path, links: nat)
    requires Sound(fs) && at + a in fs && fs[at + a].ODir? && ValidPath(a)
    ensures Locate(fs, at, a + b, links) == Locate(fs, at + a, b, links)
    decreases |a|
  {
    if a == [] {
      assert a + b == b && at + a == at;
    } else {
      var q := at + [a[0]];
      assert (at + a)[..|at|] == at && (at + a)[..|at| + 1] == q;
      assert |q| < |at + a| || q == at + a;
      assert fs[q] == ODir && (at + a)[..|at|] in fs;
      assert (a + b)[1..] == a[1..] + b && q + a[1..] == at + a;
      LocateFrom(fs, q, a[1..], b, links);
    }
  }
}
