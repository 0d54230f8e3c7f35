/** Slash-separated paths as lists of segments, and lexical cleaning. */
module Paths {
  import opened Basics

  type Path = seq<string>

  predicate Plain(seg: string) {
    '/' !in seg
  }

  /** A name a directory can hold. */
  predicate ValidName(seg: string) {
    seg != "" && seg != "." && seg != ".." && Plain(seg)
  }

  ghost predicate ValidPath(p: Path) {
    forall i :: 0 <= i < |p| ==> ValidName(p[i])
  }

  /** Segments joined with slashes. */
  function Render(p: Path): string {
    if p == [] then ""
    else if |p| == 1 then p[0]
    else p[0] + "/" + Render(p[1..])
  }

  /** The pieces of s between slashes; never empty. */
  function Split(s: string): (segs: seq<string>)
    ensures segs != []
  {
    if s == "" then [""]
    else if s[0] == '/' then [""] + Split(s[1..])
    else
      var rest := Split(s[1..]);
      [[s[0]] + rest[0]] + rest[1..]
  }

  lemma {:induction false} SplitPlain(a: string)
    requires Plain(a)
    ensures Split(a) == [a]
  {
    if a != "" {
      SplitPlain(a[1..]);
      assert a[0] in a && [a[0]] + a[1..] == a;
    }
  }

  lemma {:induction false} SplitSlash(a: string, rest: string)
    requires Plain(a)
    ensures Split(a + "/" + rest) == [a] + Split(rest)
  {
    var s := a + "/" + rest;
    if a == "" {
      assert s[1..] == rest;
    } else {
      SplitSlash(a[1..], rest);
      assert s[1..] == a[1..] + "/" + rest;
      assert s[0] == a[0] && [s[0]] + a[1..] == a;
    }
  }

  lemma {:induction false} Regroup<T>(a: seq<T>, b: seq<T>, c: seq<T>)
    ensures a + b + c == a + (b + c)
  {
  }

  /** Splitting undoes rendering, whatever text follows a slash. */
  lemma {:induction false} SplitRenderThen(p: Path, rest: string)
    requires p != [] && forall i :: 0 <= i < |p| ==> Plain(p[i])
    ensures Split(Render(p) + "/" + rest) == p + Split(rest)
  {
    if |p| == 1 {
      SplitSlash(p[0], rest);
    } else {
      SplitRenderThen(p[1..], rest);
      var tail := Render(p[1..]) + "/" + rest;
      SplitSlash(p[0], tail);
      assert Render(p) == p[0] + "/" + Render(p[1..]);
      assert p == [p[0]] + p[1..];
      hide *;
      Regroup(p[0] + "/", Render(p[1..]), "/" + rest);
      Regroup(p[0] + "/" + Render(p[1..]), "/", rest);
      Regroup(Render(p[1..]), "/", rest);
      Regroup([p[0]], p[1..], Split(rest));
    }
  }

  lemma {:induction false} SplitRender(p: Path)
    requires p != [] && forall i :: 0 <= i < |p| ==> Plain(p[i])
    ensures Split(Render(p)) == p
  {
    if |p| == 1 {
      SplitPlain(p[0]);
    } else {
      SplitRender(p[1..]);
      SplitSlash(p[0], Render(p[1..]));
      assert p == [p[0]] + p[1..];
    }
  }

  /**
   path.Clean on segments: drops "" and ".", resolves ".." against the segment
   before it, and at a root drops a ".." that has none.
   */
  function CleanSegs(segs: seq<string>, rooted: bool): Path {
    if segs == [] then []
    else
      var done, last := CleanSegs(segs[..|segs| - 1], rooted), segs[|segs| - 1];
      if last == "" || last == "." then done
      else if last != ".." then done + [last]
      else if done != [] && done[|done| - 1] != ".." then done[..|done| - 1]
      else if rooted then done
      else done + [".."]
  }

  function Clean(s: string): Path {
    CleanSegs(Split(s), s != "" && s[0] == '/')
  }

  lemma {:induction false} CleanValid(p: Path, rooted: bool)
    requires ValidPath(p)
    ensures CleanSegs(p, rooted) == p
  {
    if p != [] {
      CleanValid(p[..|p| - 1], rooted);
    }
  }

  /** Cleaned segments: some leading "..", then valid names only. */
  ghost predicate Cleaned(p: Path, rooted: bool) {
    && (forall i :: 0 <= i < |p| ==> p[i] == ".." || ValidName(p[i]))
    && (forall i, j :: 0 <= i < j < |p| && p[j] == ".." ==> p[i] == "..")
    && (rooted ==> forall i :: 0 <= i < |p| ==> p[i] != "..")
  }

  lemma {:induction false} CleanSegsCleaned(segs: seq<string>, rooted: bool)
    requires forall i :: 0 <= i < |segs| ==> Plain(segs[i])
    ensures Cleaned(CleanSegs(segs, rooted), rooted)
  {
    if segs != [] {
      CleanSegsCleaned(segs[..|segs| - 1], rooted);
    }
  }

  lemma {:induction false} SplitIsPlain(s: string)
    ensures forall i :: 0 <= i < |Split(s)| ==> Plain(Split(s)[i])
  {
    if s != "" { SplitIsPlain(s[1..]); }
  }

  // ------------------------------------------------- extraction destinations

  /**
   Where safeExtract puts an entry, relative to the destination, or None for a name
   it rejects: one whose cleaned form starts with two dots.
   */
  function SafePath(name: string): Option<Path> {
    var p := Clean(name);
    if p != [] && ".." <= p[0] then None else Some(p)
  }

  /** Whatever the entry name, extraction stays lexically inside the destination. */
  lemma SafePathStaysInside(name: string)
    ensures SafePath(name).Some? ==> ValidPath(SafePath(name).value)
    ensures SafePath(name).None? <==> Clean(name) != [] && ".." <= Clean(name)[0]
  {
    SplitIsPlain(name);
    CleanSegsCleaned(Split(name), name != "" && name[0] == '/');
    var p := Clean(name);
    if SafePath(name).Some? && p != [] {
      assert p[0] != "..";
    }
  }

  lemma RenderFirstChar(p: Path)
    requires p != [] && ValidPath(p)
    ensures Render(p) != "" && Render(p)[0] == p[0][0] && Render(p)[0] != '/'
  {
    assert p[0][0] in p[0];
  }

  lemma {:induction false} RenderLastChar(p: Path)
    requires p != [] && ValidPath(p)
    ensures Render(p) != "" && Render(p)[|Render(p)| - 1] != '/'
  {
    if |p| > 1 { RenderLastChar(p[1..]); } else { assert p[0][|p[0]| - 1] in p[0]; }
  }

  lemma CleanRendered(p: Path)
    requires p != [] && ValidPath(p)
    ensures Clean(Render(p)) == p
  {
    RenderFirstChar(p);
    SplitRender(p);
    CleanValid(p, false);
  }

  lemma CleanRenderedDir(p: Path)
    requires p != [] && ValidPath(p)
    ensures Clean(Render(p) + "/") == p
  {
    RenderFirstChar(p);
    SplitRenderThen(p, "");
    var segs := Split(Render(p) + "/");
    assert segs == p + [""] by { assert Render(p) + "/" == Render(p) + "/" + ""; }
    assert segs[..|segs| - 1] == p;
    CleanValid(p, false);
  }

  /** The names the tar walk writes come back as the paths they were made from. */
  lemma SafePathOfRendered(p: Path)
    requires p != [] && ValidPath(p) && !(".." <= p[0])
    ensures SafePath(Render(p)) == Some(p) && SafePath(Render(p) + "/") == Some(p)
  {
    CleanRendered(p);
    CleanRenderedDir(p);
  }
}
