/** `ferry verify`: parts checked against the manifest, by digest or by size. */
module Verification {
  import opened Basics
  import opened Manifests
  import UploadProtocol
  import DownloadProtocol

  /** One part passes: its object can be read and has the listed digest (or, quick, size). */
  predicate PartOk(objects: map<string, Bytes>, readable: string -> bool, hash: Bytes -> string, p: Part, quick: bool) {
    && p.name in objects && readable(p.name)
    && (if quick then |objects[p.name]| == p.compressedSize else hash(objects[p.name]) == p.sha256)
  }

  /** The names of the parts that fail, in manifest order. */
  function BadParts(objects: map<string, Bytes>, readable: string -> bool, hash: Bytes -> string,
                    parts: seq<Part>, quick: bool): seq<string>
  {
    if parts == [] then []
    else
      var last, before := parts[|parts| - 1], BadParts(objects, readable, hash, parts[..|parts| - 1], quick);
      if PartOk(objects, readable, hash, last, quick) then before else before + [last.name]
  }

  ghost predicate Ascending(at: seq<nat>) {
    forall a, b :: 0 <= a < b < |at| ==> at[a] < at[b]
  }

  /** `names` are the names of the parts at the places `at`. */
  ghost predicate NamesAt(parts: seq<Part>, at: seq<nat>, names: seq<string>) {
    |names| == |at| && forall a :: 0 <= a < |at| ==> at[a] < |parts| && names[a] == parts[at[a]].name
  }

  lemma {:induction false} BadPlaces(objects: map<string, Bytes>, readable: string -> bool, hash: Bytes -> string,
                                     parts: seq<Part>, quick: bool) returns (at: seq<nat>)
    ensures Ascending(at) && NamesAt(parts, at, BadParts(objects, readable, hash, parts, quick))
    ensures forall i: nat :: i in at <==> i < |parts| && !PartOk(objects, readable, hash, parts[i], quick)
  {
    at := [];
    if parts != [] {
      var n := |parts| - 1;
      at := BadPlaces(objects, readable, hash, parts[..n], quick);
      if !PartOk(objects, readable, hash, parts[n], quick) { at := at + [n]; }
    }
  }

  /**
   The per-part loop: an unreadable part is recorded and the loop goes on.  `at` lists, in
   ascending order, the places of the parts that cannot be read, or have another length
   (quick) or digest (deep) than the manifest says; the report names exactly those.
   */
  method Verify(objects: map<string, Bytes>, readable: string -> bool, hash: Bytes -> string,
                parts: seq<Part>, quick: bool) returns (failed: seq<string>)
    ensures failed == BadParts(objects, readable, hash, parts, quick)
    ensures failed == [] <==> forall i :: 0 <= i < |parts| ==> PartOk(objects, readable, hash, parts[i], quick)
    ensures exists at: seq<nat> ::
      && Ascending(at) && NamesAt(parts, at, failed)
      && (forall i: nat :: i in at <==>
            i < |parts|
            && (parts[i].name in objects && readable(parts[i].name) ==>
                  if quick then |objects[parts[i].name]| != parts[i].compressedSize
                  else hash(objects[parts[i].name]) != parts[i].sha256))
  {
    failed := [];
    assert parts[..0] == [] && parts[..|parts|] == parts;
    for i := 0 to |parts|
      invariant failed == BadParts(objects, readable, hash, parts[..i], quick)
      invariant failed == [] <==> forall j :: 0 <= j < i ==> PartOk(objects, readable, hash, parts[j], quick)
    {
      var p := parts[i];
      assert parts[..i + 1][..i] == parts[..i];
      if quick {
        if p.name !in objects || !readable(p.name) {
          failed := failed + [p.name];
          continue;
        }
        if |objects[p.name]| != p.compressedSize {
          failed := failed + [p.name];
          continue;
        }
        continue;
      }
      if p.name !in objects || !readable(p.name) {
        failed := failed + [p.name];
        continue;
      }
      if hash(objects[p.name]) != p.sha256 {
        failed := failed + [p.name];
        continue;
      }
    }
    ghost var at := BadPlaces(objects, readable, hash, parts, quick);
  }

  /** An untouched, readable snapshot passes both modes in every state that shows its manifest. */
  lemma UploadedSnapshotVerifies(hash: Bytes -> string, states: seq<UploadProtocol.Upload>,
      events: seq<UploadProtocol.Event>,
                                 parallel: int, k: nat, readable: string -> bool, quick: bool)
    requires UploadProtocol.History(hash, states, events) && k <= |events|
    requires states[0] == UploadProtocol.Begin(states[0].name, states[0].role, states[0].overwrite,
        states[0].plan, parallel,
                                               states[0].objects, None)
    requires UploadProtocol.DistinctNames(states[0].plan) && states[k].manifest.Some?
    requires forall j | 0 <= j < |states[0].plan| :: readable(states[0].plan[j].name)
    ensures BadParts(states[k].objects, readable, hash, states[k].manifest.value.parts, quick) == []
  {
    UploadProtocol.ManifestIsLast(hash, states, events, parallel, k);
    var u := states[k];
    forall p | p in u.manifest.value.parts ensures PartOk(u.objects, readable, hash, p, quick) {
      var j :| 0 <= j < |u.manifest.value.parts| && u.manifest.value.parts[j] == p;
      assert p == UploadProtocol.Record(hash, states[0].plan[j]);
      assert UploadProtocol.Matches(hash, u.objects, p.name, p.compressedSize, p.sha256);
    }
    NoBadParts(u.objects, readable, hash, u.manifest.value.parts, quick);
  }

  lemma {:induction false} NoBadParts(objects: map<string, Bytes>, readable: string -> bool, hash: Bytes -> string,
                                      parts: seq<Part>, quick: bool)
    requires forall p | p in parts :: PartOk(objects, readable, hash, p, quick)
    ensures BadParts(objects, readable, hash, parts, quick) == []
  {
    if parts != [] {
      assert parts[|parts| - 1] in parts;
      NoBadParts(objects, readable, hash, parts[..|parts| - 1], quick);
    }
  }

  /** A part deep verification rejects is never part of a download that ran to its end. */
  lemma DownloadedMeansDeepVerified(src: DownloadProtocol.Source, states: seq<DownloadProtocol.Download>,
                                    events: seq<DownloadProtocol.Event>, k: nat, readable: string -> bool)
    requires DownloadProtocol.History(src, states, events) && k <= |events|
    requires states[k].phase == DownloadProtocol.Returned(true) && !states[k].pool.broke
    requires DownloadProtocol.Starts(states[0])
    requires forall p | p in states[k].parts :: readable(p.name)
    ensures BadParts(src.objects, readable, src.hash, states[k].parts, false) == []
  {
    DownloadProtocol.SuccessfulDownload(src, states, events, k);
    forall p | p in states[k].parts ensures PartOk(src.objects, readable, src.hash, p, false) {
      var j :| 0 <= j < |states[k].parts| && states[k].parts[j] == p;
      assert DownloadProtocol.Verified(src, states[k].parts[j]);
    }
    NoBadParts(src.objects, readable, src.hash, states[k].parts, false);
  }
}
