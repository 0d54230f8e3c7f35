/** The manifest: what a snapshot consists of, and when one is accepted. */
module Manifests {
  import opened Basics

  const MANIFEST_VERSION: int := 1

  datatype TocRef = TocRef(name: string, size: nat, sha256: string, entries: nat)

  datatype Part = Part(
    name: string, uncompressedSize: nat, compressedSize: nat, sha256: string, toc: Option<TocRef>)

  /** Go's zero value, which a results slot keeps until its part has been uploaded. */
  const ZERO_PART := Part("", 0, 0, "", None)

  datatype Manifest = Manifest(version: int, name: string, role: string, parts: seq<Part>)

  predicate ValidRole(role: string) {
    role == "archive" || role == "full"
  }

  ghost predicate WellFormed(m: Manifest) {
    && m.version == MANIFEST_VERSION && m.name != "" && ValidRole(m.role) && m.parts != []
    && (forall i :: 0 <= i < |m.parts| ==> m.parts[i].name != "" && m.parts[i].sha256 != "")
    && (forall i, j :: 0 <= i < j < |m.parts| ==> m.parts[i].name != m.parts[j].name)
  }

  datatype Fault = NoPartName | NameTwice | NoHash

  datatype Problem = BadVersion | NoName | BadRole | NoParts | InPart(i: nat, what: Fault)

  /** What can be wrong with part i. */
  ghost predicate Faulty(parts: seq<Part>, i: nat, what: Fault)
    requires i < |parts|
  {
    match what
    case NoPartName => parts[i].name == ""
    case NameTwice => exists j :: 0 <= j < i && parts[j].name == parts[i].name
    case NoHash => parts[i].sha256 == ""
  }

  ghost predicate IsFaulty(parts: seq<Part>, i: nat)
    requires i < |parts|
  {
    Faulty(parts, i, NoPartName) || Faulty(parts, i, NameTwice) || Faulty(parts, i, NoHash)
  }

  /**
   Validate accepts exactly the well-formed manifests, and names the first problem: version,
   then name, then role, then the first part that has no name, a name twice, or no digest.
   */
  method Validate(m: Manifest) returns (problem: Option<Problem>)
    ensures problem.None? <==> WellFormed(m)
    ensures problem == Some(BadVersion) <==> m.version != 1
    ensures problem == Some(NoName) <==> m.version == 1 && m.name == ""
    ensures problem == Some(BadRole) <==> m.version == 1 && m.name != "" && m.role != "archive" && m.role != "full"
    ensures problem == Some(NoParts) ==> m.parts == []
    ensures m.parts == [] ==> problem.Some?
    ensures problem.Some? && problem.value.InPart? ==>
      problem.value.i < |m.parts| && Faulty(m.parts, problem.value.i, problem.value.what)
      && forall j :: 0 <= j < problem.value.i ==> !IsFaulty(m.parts, j)
    ensures (exists i: nat :: i < |m.parts| && IsFaulty(m.parts, i)) ==> problem.Some?
  {
    if m.version != MANIFEST_VERSION { return Some(BadVersion); }
    if m.name == "" { return Some(NoName); }
    if !ValidRole(m.role) { return Some(BadRole); }
    if |m.parts| == 0 { return Some(NoParts); }
    var seen: set<string> := {};
    for i := 0 to |m.parts|
      invariant forall n :: n in seen <==> exists j :: 0 <= j < i && m.parts[j].name == n
      invariant forall j :: 0 <= j < i ==> m.parts[j].name != "" && m.parts[j].sha256 != ""
      invariant forall j, k :: 0 <= j < k < i ==> m.parts[j].name != m.parts[k].name
      invariant forall j :: 0 <= j < i ==> !IsFaulty(m.parts, j)
    {
      var p := m.parts[i];
      if p.name == "" { return Some(InPart(i, NoPartName)); }
      if p.name in seen { return Some(InPart(i, NameTwice)); }
      seen := seen + {p.name};
      if p.sha256 == "" { return Some(InPart(i, NoHash)); }
    }
    return None;
  }
}
