/** Where an object lives: the same S3 key from the upload's URL and from the download's. */
module Addressing {
  import opened Basics
  import opened Paths
  import opened Names

  function TrimLeft(s: string): string {
    if s != "" && s[0] == '/' then TrimLeft(s[1..]) else s
  }

  function TrimRight(s: string): string {
    if s != "" && s[|s| - 1] == '/' then TrimRight(s[..|s| - 1]) else s
  }

  predicate EndsIn(s: string, suffix: string) {
    |suffix| <= |s| && s[|s| - |suffix|..] == suffix
  }

  /** canonPrefix: no leading slash, a trailing slash if non-empty. */
  function CanonPrefix(p: string): string {
    var t := TrimLeft(p);
    if t != "" && !EndsIn(t, "/") then t + "/" else t
  }

  function FullKey(prefix: string, key: string): string {
    prefix + TrimLeft(key)
  }

  function TrimKey(prefix: string, key: string): string {
    if prefix <= key then key[|prefix|..] else key
  }

  /** path.Join("", name, child). */
  function Join(name: string, child: string): string {
    var p := Clean(name + "/" + child);
    if p == [] then "." else Render(p)
  }

  datatype Snapshot = Snapshot(root: string, name: string)

  /** The text after the last slash of s. */
  function Leaf(s: string): (leaf: string)
    ensures |leaf| <= |s|
  {
    if s == "" || s[|s| - 1] == '/' then "" else Leaf(s[..|s| - 1]) + [s[|s| - 1]]
  }

  /** SplitTrailingSegment on a decoded URL path. */
  function SplitTrailing(path: string): Option<Snapshot> {
    var trimmed := TrimRight(path);
    var leaf := Leaf(trimmed);
    if trimmed == "" || leaf == "" then None
    else Some(Snapshot(TrimRight(trimmed[..|trimmed| - |leaf|]), leaf))
  }

  /** The URL path of a snapshot under a parent URL path, as an operator writes it. */
  function Under(parent: string, name: string): string {
    AsDir(parent) + name
  }

  // ------------------------------------------------------------------ trimming

  lemma {:induction false} LeafOfPlain(s: string, name: string)
    requires Plain(name) && (s == "" || EndsIn(s, "/"))
    ensures Leaf(s + name) == name
  {
    if name == "" {
      assert s + name == s;
    } else {
      var k := |name| - 1;
      assert name[k] in name;
      assert (s + name)[..|s + name| - 1] == s + name[..k];
      LeafOfPlain(s, name[..k]);
      assert name[..k] + [name[k]] == name;
    }
  }

  lemma TrimRightStops(s: string)
    requires s != "" && s[|s| - 1] != '/'
    ensures TrimRight(s) == s
  {
  }

  lemma {:induction false} TrimLeftNoSlash(s: string)
    ensures TrimLeft(s) == "" || TrimLeft(s)[0] != '/'
    ensures |TrimLeft(s)| <= |s| && s[|s| - |TrimLeft(s)|..] == TrimLeft(s)
    ensures AllSlashes(s[..|s| - |TrimLeft(s)|])
  {
    if s != "" && s[0] == '/' { TrimLeftNoSlash(s[1..]); }
  }

  /** trimKey undoes fullKey up to leading slashes, so exactly for keys that have none. */
  lemma TrimKeyUndoesFullKeyIff(prefix: string, key: string)
    ensures TrimKey(prefix, FullKey(prefix, key)) == TrimLeft(key)
    ensures TrimKey(prefix, FullKey(prefix, key)) == key <==> (key == "" || key[0] != '/')
  {
    assert FullKey(prefix, key)[|prefix|..] == TrimLeft(key);
    TrimLeftNoSlash(key);
  }

  /**
   canonPrefix takes away leading slashes and puts one slash at the end if none is there:
   its result is empty or a slash-ended, unrooted prefix, and applying it again changes nothing.
   */
  lemma CanonPrefixIsCanonical(p: string)
    ensures var c := CanonPrefix(p); c == "" || (c[0] != '/' && EndsIn(c, "/"))
    ensures exists k: nat :: k <= |p| && AllSlashes(p[..k]) &&
              CanonPrefix(p) == if p[k..] == "" || p[|p| - 1] == '/' then p[k..] else p[k..] + "/"
    ensures CanonPrefix(CanonPrefix(p)) == CanonPrefix(p)
  {
    TrimLeftNoSlash(p);
    var t := TrimLeft(p);
    var k := |p| - |t|;
    assert p[k..] == t;
    if t != "" { assert t[|t| - 1..] == [p[|p| - 1]]; }
  }

  /** Joining a path-safe name and a clean child only puts a slash between them. */
  lemma JoinIsConcat(name: string, child: Path)
    requires PathSafe(name) && ValidPath(child) && child != []
    ensures Join(name, Render(child)) == name + "/" + Render(child)
    ensures Join(name, Render(child))[0] != '/'
  {
    PathSafeIsSegment(name);
    CleanRendered([name] + child);
    assert ([name] + child)[1..] == child;
    RenderFirstChar([name] + child);
  }

  // ------------------------------------------------------------ address agreement

  lemma SplitOfUnder(parent: string, name: string)
    requires PathSafe(name)
    ensures SplitTrailing(Under(parent, name)) == Some(Snapshot(TrimRight(AsDir(parent)), name))
  {
    var dir := AsDir(parent);
    var path := dir + name;
    PathSafeIsSegment(name);
    assert name[|name| - 1] in name;
    TrimRightStops(path);
    LeafOfPlain(dir, name);
    assert path[..|path| - |name|] == dir;
  }

  lemma {:induction false} TrimRightIsPrefix(s: string)
    ensures TrimRight(s) <= s
    ensures TrimRight(s) == "" || TrimRight(s)[|TrimRight(s)| - 1] != '/'
    ensures forall i :: |TrimRight(s)| <= i < |s| ==> s[i] == '/'
  {
    if s != "" && s[|s| - 1] == '/' { TrimRightIsPrefix(s[..|s| - 1]); }
  }

  /** A leaf is what follows the last slash. */
  lemma {:induction false} LeafIs(s: string)
    ensures Plain(Leaf(s)) && s[|s| - |Leaf(s)|..] == Leaf(s)
    ensures |Leaf(s)| < |s| ==> s[|s| - |Leaf(s)| - 1] == '/'
  {
    if s != "" && s[|s| - 1] != '/' {
      LeafIs(s[..|s| - 1]);
      assert s == s[..|s| - 1] + [s[|s| - 1]];
    }
  }

  /**
   Splitting any URL path: refused exactly when it is nothing but slashes; otherwise the
   name is the last segment, slashes after it are dropped, and so are those before it.
   */
  lemma SplitTrailingIff(path: string) returns (before: string, after: string)
    ensures SplitTrailing(path).None? <==> AllSlashes(path)
    ensures SplitTrailing(path).Some? ==> SplitsInto(path, SplitTrailing(path).value, before, after)
  {
    var trimmed := TrimRight(path);
    var dir := trimmed[..|trimmed| - |Leaf(trimmed)|];
    NothingLeftIff(path);
    LeafIs(trimmed);
    before, after := "", "";
    if trimmed != "" { before, after := SplitsHere(path, trimmed, dir, Leaf(trimmed)); }
    hide TrimRight, Leaf, SplitsInto, AllSlashes;
  }

  lemma NothingLeftIff(path: string)
    ensures TrimRight(path) == "" <==> AllSlashes(path)
    ensures TrimRight(path) != "" ==> Leaf(TrimRight(path)) != ""
  {
    TrimRightIsPrefix(path);
    hide TrimRight;
  }

  /** A root without a slash at its end, slashes, one whole segment, and slashes. */
  ghost predicate SplitsInto(path: string, snap: Snapshot, before: string, after: string) {
    && path == snap.root + before + snap.name + after
    && AllSlashes(before) && AllSlashes(after) && (snap.root != "" ==> before != "")
    && (snap.root != "" ==> snap.root[|snap.root| - 1] != '/') && snap.name != "" && Plain(snap.name)
  }

  lemma SplitsHere(path: string, trimmed: string, dir: string, leaf: string) returns (before: string, after: string)
    requires trimmed == TrimRight(path) && trimmed == dir + leaf && (dir != "" ==> dir[|dir| - 1] == '/')
    requires leaf != "" && Plain(leaf)
    ensures SplitsInto(path, Snapshot(TrimRight(dir), leaf), before, after)
  {
    TrimRightIsPrefix(path);
    TrimRightIsPrefix(dir);
    hide TrimRight;
    before, after := dir[|TrimRight(dir)|..], path[|trimmed|..];
    assert dir == TrimRight(dir) + before && path == trimmed + after;
    assert path == TrimRight(dir) + before + leaf + after;
  }

  predicate AllSlashes(s: string) {
    forall i :: 0 <= i < |s| ==> s[i] == '/'
  }

  lemma {:induction false} TrimsOfSlashes(s: string)
    requires AllSlashes(s)
    ensures TrimLeft(s) == "" && TrimRight(s) == ""
  {
    if s != "" {
      TrimsOfSlashes(s[1..]);
      TrimsOfSlashes(s[..|s| - 1]);
    }
  }

  lemma {:induction false} TrimLeftAppend(s: string, t: string)
    requires !AllSlashes(s)
    ensures TrimLeft(s) != "" && TrimLeft(s + t) == TrimLeft(s) + t
  {
    if s[0] == '/' {
      assert !AllSlashes(s[1..]);
      TrimLeftAppend(s[1..], t);
      assert (s + t)[1..] == s[1..] + t;
    }
  }

  function AsDir(parent: string): string {
    if EndsIn(parent, "/") then parent else parent + "/"
  }

  /** A directory path is its right-trimmed form followed by one or more slashes. */
  lemma DirTail(parent: string) returns (tail: string)
    requires !AllSlashes(parent)
    ensures AsDir(parent) == TrimRight(AsDir(parent)) + tail && tail != "" && AllSlashes(tail)
    ensures |tail| > 1 <==> EndsIn(parent, "//")
    ensures !EndsIn(parent, "/") ==> TrimRight(AsDir(parent)) == parent
  {
    hide TrimRight;
    var dir := AsDir(parent);
    TrimRightIsPrefix(dir);
    NotAllSlashes(parent, dir);
    tail := dir[|TrimRight(dir)|..];
    assert dir[|dir| - 1] == '/';
    if !EndsIn(parent, "/") {
      assert parent[|parent| - 1..] == [parent[|parent| - 1]];
      assert dir[|parent| - 1] != '/';
    } else if |tail| > 1 {
      assert dir[|dir| - 2] == '/';
      assert parent[|parent| - 2..] == [parent[|parent| - 2], parent[|parent| - 1]];
    } else {
      assert dir[|dir| - 2] != '/';
      assert parent[|parent| - 2..][0] != '/';
    }
  }

  /** The canonical prefix of a parent and of its right-trimmed form. */
  lemma TrimmedPrefixAgreesIff(parent: string)
    ensures CanonPrefix(TrimRight(AsDir(parent))) == CanonPrefix(parent) <==>
        !EndsIn(parent, "//") || AllSlashes(parent)
  {
    hide TrimLeft, TrimRight, AllSlashes;
    if AllSlashes(parent) {
      SlashesTrimAway(parent);
    } else {
      var tail := DirTail(parent);
      var base := TrimRight(AsDir(parent));
      TrimRightIsPrefix(AsDir(parent));
      NotAllSlashes(parent, AsDir(parent));
      TrimLeftAppend(base, tail);
      LastOfTrimLeft(base);
      assert CanonPrefix(base) == TrimLeft(base) + "/";
      PrefixOfParent(parent, base, tail);
      SlashTail(TrimLeft(base), tail);
    }
  }

  lemma SlashesTrimAway(parent: string)
    requires AllSlashes(parent)
    ensures TrimRight(AsDir(parent)) == "" && CanonPrefix(parent) == CanonPrefix("") == ""
  {
    TrimsOfSlashes(parent);
    TrimsOfSlashes(AsDir(parent));
  }

  lemma PrefixOfParent(parent: string, base: string, tail: string)
    requires AsDir(parent) == base + tail && tail != "" && AllSlashes(tail)
    requires !EndsIn(parent, "/") ==> base == parent && |tail| == 1
    requires TrimLeft(base + tail) == TrimLeft(base) + tail
    requires TrimLeft(base) != "" && !EndsIn(TrimLeft(base), "/")
    ensures CanonPrefix(parent) == TrimLeft(base) + tail
  {
    hide TrimLeft;
    if EndsIn(parent, "/") {
      var t := TrimLeft(parent);
      assert t == TrimLeft(base) + tail && t[|t| - 1] == '/';
      assert t[|t| - 1..] == "/";
    } else {
      assert tail == "/";
    }
  }

  lemma SlashTail(s: string, tail: string)
    requires tail != "" && AllSlashes(tail)
    ensures s + tail == s + "/" <==> |tail| == 1
  {
    if |tail| == 1 { assert tail == "/"; }
  }

  lemma NotAllSlashes(parent: string, dir: string)
    requires !AllSlashes(parent) && parent <= dir
    ensures TrimRight(dir) != "" && !AllSlashes(TrimRight(dir))
  {
    TrimRightIsPrefix(dir);
    var i :| 0 <= i < |parent| && parent[i] != '/';
    assert dir[i] != '/';
  }

  lemma LastOfTrimLeft(s: string)
    requires s != "" && s[|s| - 1] != '/'
    ensures TrimLeft(s) != "" && !EndsIn(TrimLeft(s), "/")
  {
    TrimLeftNoSlash(s);
    if TrimLeft(s) == "" { AllTrimmed(s); }
  }

  lemma {:induction false} AllTrimmed(s: string)
    requires TrimLeft(s) == ""
    ensures AllSlashes(s)
  {
    if s != "" { AllTrimmed(s[1..]); }
  }

  /**
   Address agreement.  Uploading name under parent and downloading parent/name reach the
   same S3 key for every object of the snapshot, exactly when parent has no repeated
   trailing slash (or is nothing but slashes).
   */
  lemma AddressesAgreeIff(parent: string, name: string, child: Path)
    requires PathSafe(name) && ValidPath(child) && child != []
    ensures SplitTrailing(Under(parent, name)).Some?
    ensures var up := FullKey(CanonPrefix(parent), Join(name, Render(child)));
      var snap := SplitTrailing(Under(parent, name)).value;
      var down := FullKey(CanonPrefix(snap.root), Join(snap.name, Render(child)));
      up == down <==> !EndsIn(parent, "//") || AllSlashes(parent)
  {
    SplitOfUnder(parent, name);
    TrimmedPrefixAgreesIff(parent);
    var key := TrimLeft(Join(name, Render(child)));
    SamePrefix(CanonPrefix(parent), CanonPrefix(SplitTrailing(Under(parent, name)).value.root), key);
  }

  lemma SamePrefix(a: string, b: string, key: string)
    ensures a + key == b + key <==> a == b
  {
    if a + key == b + key {
      assert |a| == |b|;
      assert (a + key)[..|a|] == a && (b + key)[..|b|] == b;
    }
  }

  // ------------------------------------------------------------- legacy routing

  function ToLower(s: string): string {
    seq(|s|, i requires 0 <= i < |s| => if 'A' <= s[i] <= 'Z' then ((s[i] as int) + 32) as char else s[i])
  }

  /** IsLegacyURL on a decoded path. */
  predicate IsLegacy(path: string) {
    EndsIn(ToLower(path), ".tar.lz4") || EndsIn(ToLower(path), ".tar.zst")
  }

  lemma LegacySuffix(dir: string, name: string, suffix: string)
    requires EndsIn(dir, "/") && Plain(suffix)
    ensures EndsIn(ToLower(dir + name), suffix) <==> EndsIn(ToLower(name), suffix)
  {
    var s := ToLower(dir + name);
    assert s == ToLower(dir) + ToLower(name);
    if |name| < |suffix| <= |s| {
      var k := |s| - |suffix|;
      assert s[|dir| - 1] == '/';
      assert s[k..][|dir| - 1 - k] == '/';
      assert suffix[|dir| - 1 - k] in suffix;
    }
  }

  /** The same letters, capital or not. */
  predicate SpelledLike(s: string, lower: string) {
    |s| == |lower| && forall i :: 0 <= i < |s| ==>
      s[i] == lower[i] || ('a' <= lower[i] <= 'z' && s[i] as int + 32 == lower[i] as int)
  }

  lemma EndsSpelledLike(s: string, suffix: string)
    requires forall c | c in suffix :: !('A' <= c <= 'Z')
    ensures EndsIn(ToLower(s), suffix) <==> |suffix| <= |s| && SpelledLike(s[|s| - |suffix|..], suffix)
  {
    if |suffix| <= |s| {
      var k := |s| - |suffix|;
      assert ToLower(s)[k..] == ToLower(s[k..]);
      SpelledLikeIff(s[k..], suffix);
    }
  }

  lemma SpelledLikeIff(s: string, lower: string)
    requires forall c | c in lower :: !('A' <= c <= 'Z')
    ensures ToLower(s) == lower <==> SpelledLike(s, lower)
  {
    if |s| == |lower| {
      forall i | 0 <= i < |s|
        ensures ToLower(s)[i] == lower[i] <==>
                s[i] == lower[i] || ('a' <= lower[i] <= 'z' && s[i] as int + 32 == lower[i] as int)
      {
        assert lower[i] in lower;
      }
    }
  }

  /** parent/name is taken for a legacy file exactly when the name ends in .tar.lz4 or .tar.zst, in any case. */
  lemma LegacyRoutingIff(parent: string, name: string)
    ensures IsLegacy(Under(parent, name)) <==>
            |name| >= 8 && (SpelledLike(name[|name| - 8..], ".tar.lz4") || SpelledLike(name[|name| - 8..], ".tar.zst"))
  {
    var dir := AsDir(parent);
    LegacySuffix(dir, name, ".tar.lz4");
    LegacySuffix(dir, name, ".tar.zst");
    EndsSpelledLike(name, ".tar.lz4");
    EndsSpelledLike(name, ".tar.zst");
  }
}
