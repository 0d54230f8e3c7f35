/** From a datadir through an upload, a store and a download back to a datadir. */
module EndToEnd {
  import opened Basics
  import opened FileTrees
  import opened SnapshotPlan
  import opened Extraction
  import opened Schedules
  import opened RoundTrip
  import opened Manifests
  import Walks
  import WorkerPool
  import Up = UploadProtocol
  import Down = DownloadProtocol
  import opened DownloadRuns
  import opened DownloadSafety
  import opened AtomicTargets
  import opened Containment
  import opened PlainExtraction
  import opened Disks
  import opened Paths

  /** tar+zstd as an encoder and a decoder, the sidecar encoder, and the hash. */
  datatype Tools = Tools(
    hash: Bytes -> string,
    encode: seq<TarEntry> -> Bytes,
    decode: Bytes -> Down.Stream,
    tarSize: seq<TarEntry> -> nat,
    encodeToc: seq<Walks.TocEntry> -> Bytes,
    encodeManifest: Manifest -> Bytes,
    decodeManifest: Bytes -> Option<Manifest>)

  /** Decoding an encoded archive yields its entries and then a clean end; a manifest reads back. */
  ghost predicate Lawful(t: Tools) {
    && (forall ts :: t.decode(t.encode(ts)) == Down.Stream(ts, true))
    && (forall m :: t.decodeManifest(t.encodeManifest(m)) == Some(m))
  }

  function PlannedPart(t: Tools, spec: PartSpec, es: seq<Entry>): Up.Planned {
    Up.Planned(spec.partPath, t.encode(Headers(es)), t.tarSize(Headers(es)),
               TocPathFor(spec.partPath), t.encodeToc(Walks.Toc(es)), |Walks.Toc(es)|)
  }

  function PlannedParts(t: Tools, specs: seq<PartSpec>, parts: seq<seq<Entry>>): (ps: seq<Up.Planned>)
    requires |specs| == |parts|
    ensures |ps| == |specs| && forall j :: 0 <= j < |ps| ==> ps[j] == PlannedPart(t, specs[j], parts[j])
  {
    if specs == [] then []
    else
      var n := |specs| - 1;
      PlannedParts(t, specs[..n], parts[..n]) + [PlannedPart(t, specs[n], parts[n])]
  }

  /** The uploads planned for a datadir that passed the layout check. */
  function PlanOf(t: Tools, tree: Node, beyond: Beyond): (plan: seq<Up.Planned>)
    requires Tarred(tree, beyond).Some?
    ensures |plan| == |PlanParts(tree, beyond)| == |Tarred(tree, beyond).value|
    ensures forall j :: 0 <= j < |plan| ==>
      plan[j] == PlannedPart(t, PlanParts(tree, beyond)[j], Tarred(tree, beyond).value[j])
  {
    EntriesOfAllAt(tree, PlanParts(tree, beyond), beyond, 0);
    PlannedParts(t, PlanParts(tree, beyond), Tarred(tree, beyond).value)
  }

  /** They never collide on an object key. */
  lemma PlanNamesDistinct(t: Tools, tree: Node, beyond: Beyond)
    requires Tarred(tree, beyond).Some?
    ensures Up.DistinctNames(PlanOf(t, tree, beyond))
  {
    var plan := PlanOf(t, tree, beyond);
    forall i, j | 0 <= i < |plan| && 0 <= j < |plan|
      ensures plan[i].name != "" && plan[i].name != plan[j].tocName
      ensures i != j ==> plan[i].name != plan[j].name && plan[i].tocName != plan[j].tocName
    {
      ObjectNamesDistinct(tree, beyond, i, j);
    }
  }

  /** What the manifest says of a part, and what lies under the two names it gives. */
  ghost predicate Lists(t: Tools, p: Part, spec: PartSpec, es: seq<Entry>, objects: map<string, Bytes>) {
    var archive, sidecar := t.encode(Headers(es)), t.encodeToc(Walks.Toc(es));
    && p.name == spec.partPath && p.uncompressedSize == t.tarSize(Headers(es))
    && p.name in objects && objects[p.name] == archive
    && p.compressedSize == |archive| && p.sha256 == t.hash(archive)
    && p.toc.Some?
    && p.toc.value.name == TocPathFor(spec.partPath) && p.toc.value.entries == |Walks.Contents(es)|
    && p.toc.value.name in objects && objects[p.toc.value.name] == sidecar
    && p.toc.value.size == |sidecar| && p.toc.value.sha256 == t.hash(sidecar)
  }

  /** A version 1 manifest of this name and role that lists the datadir's parts in plan order. */
  ghost predicate Announces(t: Tools, m: Manifest, name: string, role: string, tree: Node, beyond: Beyond,
                            objects: map<string, Bytes>)
    requires Tarred(tree, beyond).Some?
  {
    var specs, parts := PlanParts(tree, beyond), Tarred(tree, beyond).value;
    && m.version == 1 && m.name == name && m.role == role && |m.parts| == |specs| == |parts|
    && forall j :: 0 <= j < |parts| ==> Lists(t, m.parts[j], specs[j], parts[j], objects)
  }

  /**
   Whatever a run from a free name shows as its manifest, in any state, is that of the run's
   name and role and of the datadir: for each planned part the archive of exactly its entries
   with its sizes and digest, and the sidecar with one entry per regular file.
   */
  lemma ManifestTellsTheTruth(t: Tools, tree: Node, beyond: Beyond, ups: seq<Up.Upload>, upEvents: seq<Up.Event>,
                              upParallel: int, i: nat)
    requires Tarred(tree, beyond).Some? && Up.History(t.hash, ups, upEvents) && i <= |upEvents|
    requires ups[0] == Up.Begin(ups[0].name, ups[0].role, ups[0].overwrite, PlanOf(t, tree, beyond),
                                upParallel, ups[0].objects, None)
    requires ups[i].manifest.Some?
    ensures Announces(t, ups[i].manifest.value, ups[0].name, ups[0].role, tree, beyond, ups[i].objects)
  {
    var u, plan := ups[i], PlanOf(t, tree, beyond);
    var m, specs, parts := u.manifest.value, PlanParts(tree, beyond), Tarred(tree, beyond).value;
    PlanNamesDistinct(t, tree, beyond);
    Up.BeginInv(t.hash, ups[0], upParallel);
    Up.ReachesPublishedLast(t.hash, ups, upEvents, i);
    Up.ManifestIsLast(t.hash, ups, upEvents, upParallel, i);
    hide Up.History, Up.DistinctNames, Tarred, PlanParts, Up.Safe, WorkerPool.Inv, Lists, Up.SlotOk, Up.Describes;
    forall j | 0 <= j < |parts| ensures Lists(t, m.parts[j], specs[j], parts[j], u.objects) {
      assert plan[j] == PlannedPart(t, specs[j], parts[j]);
      ListsAsPlanned(t, u, j, m.parts[j], specs[j], parts[j]);
    }
  }

  lemma ListsAsPlanned(t: Tools, u: Up.Upload, j: nat, p: Part, spec: PartSpec, es: seq<Entry>)
    requires j < |u.plan| == |u.stages| == |u.results| == |u.pool.slots| && u.plan[j] == PlannedPart(t, spec, es)
    requires Up.SlotOk(t.hash, u, j) && u.stages[j].TocVisible? && Up.Describes(t.hash, p, u.plan[j])
    ensures Lists(t, p, spec, es, u.objects)
  {
    Walks.TocHolds(es);
  }

  /** Headers of merged entries are the merge of the header streams. */
  lemma MergeOfHeaders(parts: seq<seq<Entry>>, streams: seq<seq<TarEntry>>, sched: Schedule)
    requires |streams| == |parts| && forall j :: 0 <= j < |parts| ==> streams[j] == Headers(parts[j])
    requires Complete(streams, sched) || Complete(parts, sched)
    ensures Complete(streams, sched) && Complete(parts, sched) && Merge(streams, sched) == Headers(Merge(parts, sched))
  {
    var m, h := Merge(parts, sched), Merge(streams, sched);
    forall a | 0 <= a < |sched| ensures h[a] == Headers(m)[a] {
      CountPrefix(sched, a, sched[a]);
      assert m[a] == parts[sched[a]][Count(sched[..a], sched[a])];
    }
  }

  function SourceOf(t: Tools, u: Up.Upload): (src: Down.Source)
    ensures src.manifest == u.manifest && src.hash == t.hash && src.objects == u.objects
  {
    Down.Source(t.hash, t.decode, u.objects, u.manifest)
  }

  /** What a download finds where an upload has published: every part intact, in plan order. */
  lemma SnapshotReady(t: Tools, tree: Node, beyond: Beyond, u: Up.Upload)
    requires Lawful(t) && Tarred(tree, beyond).Some?
    requires Up.PublishedLast(t.hash, u) && u.manifest.Some? && u.plan == PlanOf(t, tree, beyond)
    ensures var streams := Down.Streams(SourceOf(t, u), u.manifest.value.parts);
      && |streams| == |Tarred(tree, beyond).value|
      && (forall j :: 0 <= j < |streams| ==> streams[j] == Headers(Tarred(tree, beyond).value[j]))
    ensures forall p | p in u.manifest.value.parts :: Down.Verified(SourceOf(t, u), p)
  {
    var parts, plan, src := Tarred(tree, beyond).value, u.plan, SourceOf(t, u);
    var listed := u.manifest.value.parts;
    forall j | 0 <= j < |parts|
      ensures Down.StreamOf(src, listed[j]) == Headers(parts[j]) && Down.Verified(src, listed[j])
    {
      assert Up.SlotOk(t.hash, u, j);
      assert listed[j] == Up.Record(t.hash, plan[j]);
      assert Up.Stored(u.objects, plan[j].name, plan[j].bytes);
    }
  }

  lemma StreamsAre(t: Tools, tree: Node, beyond: Beyond, u: Up.Upload)
    requires Lawful(t) && Tarred(tree, beyond).Some?
    requires Up.PublishedLast(t.hash, u) && u.manifest.Some? && u.plan == PlanOf(t, tree, beyond)
    ensures Down.Streams(SourceOf(t, u), u.manifest.value.parts) == HeaderStreams(Tarred(tree, beyond).value)
  {
    SnapshotReady(t, tree, beyond, u);
    hide Lawful, Tarred, PlanOf, Headers, Up.PublishedLast;
  }

  /**
   A snapshot that an upload published has no link on the way of its streams, unless
   chaindata/ was one: its downloads are confined, whatever fails in them.
   */
  lemma PublishedIsConfined(t: Tools, tree: Node, beyond: Beyond, u: Up.Upload, site: Site, force: bool,
      start: FileSystem)
    requires Lawful(t) && ValidTree(tree) && tree.Dir? && ValidBeyond(beyond) && Tarred(tree, beyond).Some?
    requires Up.PublishedLast(t.hash, u) && u.manifest.Some? && u.plan == PlanOf(t, tree, beyond)
    requires !IsLink(tree, CHAINDATA) && GoodSite(site, start)
    ensures PlainSource(SourceOf(t, u)) && AttemptsStay(SourceOf(t, u), site, force, start)
  {
    StreamsAre(t, tree, beyond, u);
    UploadedStreamsArePlain(tree, beyond);
    assert PlainSource(SourceOf(t, u));
    hide *;
    PlainSourceStays(SourceOf(t, u), site, force, start);
  }

  /** The merged streams of a download of this snapshot are the merged parts' headers. */
  lemma DownloadedStreams(t: Tools, tree: Node, beyond: Beyond, u: Up.Upload, sched: Schedule)
    requires Lawful(t) && Tarred(tree, beyond).Some?
    requires Up.PublishedLast(t.hash, u) && u.manifest.Some? && u.plan == PlanOf(t, tree, beyond)
    requires Complete(Down.Streams(SourceOf(t, u), u.manifest.value.parts), sched)
        || Complete(Tarred(tree, beyond).value, sched)
    ensures Complete(Down.Streams(SourceOf(t, u), u.manifest.value.parts), sched)
        && Complete(Tarred(tree, beyond).value, sched)
    ensures Merge(Down.Streams(SourceOf(t, u), u.manifest.value.parts), sched) ==
        Headers(Merge(Tarred(tree, beyond).value, sched))
  {
    SnapshotReady(t, tree, beyond, u);
    hide *;
    MergeOfHeaders(Tarred(tree, beyond).value, Down.Streams(SourceOf(t, u), u.manifest.value.parts), sched);
  }

  /**
   End to end.  Whatever schedule the upload ran and whether or not it went on to fail or
   crash after its manifest became visible, a download of the snapshot that returns nil
   without having been cancelled has put back chaindata/ and triedb/ exactly, with all
   that the parts carried, if and only if the tree was portable; and unless chaindata/
   was a link it has changed nothing else on the disk.
   */
  lemma DatadirComesBack(
    t: Tools, tree: Node, beyond: Beyond,
    ups: seq<Up.Upload>, upEvents: seq<Up.Event>, upParallel: int, i: nat,
    site: Site, start: FileSystem, downs: seq<Down.Download>, downEvents: seq<Down.Event>, k: nat)
    requires Lawful(t) && ValidTree(tree) && tree.Dir? && ValidBeyond(beyond) && Tarred(tree, beyond).Some?
    requires Up.History(t.hash, ups, upEvents) && i <= |upEvents|
    requires ups[0] == Up.Begin(ups[0].name, ups[0].role, ups[0].overwrite, PlanOf(t, tree, beyond),
                                upParallel, ups[0].objects, None)
    requires ups[i].manifest.Some?
    requires GoodSite(site, start) && Down.History(SourceOf(t, ups[i]), downs, downEvents)
    requires k <= |downEvents| && downs[0] == Down.Begin(site, downs[0].force, downs[0].parallel, start)
    requires downs[k].phase == Down.Returned(true) && !downs[k].pool.parentGone
    ensures var back := Sub(downs[k].disk, site.Dst());
      && (ComesBack(back, tree, Tarred(tree, beyond).value) <==> Portable(tree, beyond))
      && (!IsLink(tree, CHAINDATA) ==>
            Down.SameBeside(site, downs[k].disk, start) && (Rebuilds(back, tree) <==> Portable(tree, beyond)))
  {
    PlanNamesDistinct(t, tree, beyond);
    Up.BeginInv(t.hash, ups[0], upParallel);
    Up.ReachesPublishedLast(t.hash, ups, upEvents, i);
    Down.SuccessfulDownload(SourceOf(t, ups[i]), downs, downEvents, k);
    FreshIsEmpty(site, start);
    ReadBack(t, tree, beyond, ups[i], site, start, downs[k]);
  }

  lemma ReadBack(t: Tools, tree: Node, beyond: Beyond, u: Up.Upload, site: Site, start: FileSystem, d: Down.Download)
    requires Lawful(t) && ValidTree(tree) && tree.Dir? && ValidBeyond(beyond) && Tarred(tree, beyond).Some?
    requires Up.PublishedLast(t.hash, u) && u.manifest.Some? && u.plan == PlanOf(t, tree, beyond)
    requires GoodSite(site, start) && d.site == site && d.start == start && d.parts == u.manifest.value.parts
    requires Down.Carried(SourceOf(t, u), d, site.Dst()) && Complete(Down.Streams(SourceOf(t, u), d.parts), d.sched)
    requires Rooted(Down.Fresh(site, start), site.Scratch())
        && Sub(Down.Fresh(site, start), site.Scratch()) == EMPTY_DIR
    requires SameOutside(start, Down.Fresh(site, start), site.Scratch())
    ensures var back := Sub(d.disk, site.Dst());
      && (ComesBack(back, tree, Tarred(tree, beyond).value) <==> Portable(tree, beyond))
      && (!IsLink(tree, CHAINDATA) ==>
            Down.SameBeside(site, d.disk, start) && (Rebuilds(back, tree) <==> Portable(tree, beyond)))
  {
    DownloadedStreams(t, tree, beyond, u, d.sched);
    hide *;
    UnpackedIs(SourceOf(t, u), d, Headers(Merge(Tarred(tree, beyond).value, d.sched)), site.Dst());
    ReadTree(tree, beyond, d.sched, site, start, d.disk);
  }

  lemma UnpackedIs(src: Down.Source, d: Down.Download, ts: seq<TarEntry>, at: Path)
    requires Down.Carried(src, d, at) && Fits(Down.Streams(src, d.parts), d.sched)
        && Merge(Down.Streams(src, d.parts), d.sched) == ts
    ensures var r := ExtractAll(Down.Fresh(d.site, d.start), d.site.Scratch(), ts);
      r.Some? && Sub(d.disk, at) == Sub(r.value, d.site.Scratch()) && Down.SameBeside(d.site, d.disk, r.value)
  {
    hide ExtractAll, Sub, Down.SameBeside;
  }

  lemma ReadTree(tree: Node, beyond: Beyond, sched: Schedule, site: Site, start: FileSystem, disk: FileSystem)
    requires ValidTree(tree) && tree.Dir? && ValidBeyond(beyond) && Tarred(tree, beyond).Some?
    requires Complete(Tarred(tree, beyond).value, sched)
    requires Rooted(Down.Fresh(site, start), site.Scratch())
        && Sub(Down.Fresh(site, start), site.Scratch()) == EMPTY_DIR
    requires SameOutside(start, Down.Fresh(site, start), site.Scratch())
    requires var r := ExtractAll(Down.Fresh(site, start), site.Scratch(),
                                    Headers(Merge(Tarred(tree, beyond).value, sched)));
      r.Some? && Sub(disk, site.Dst()) == Sub(r.value, site.Scratch()) && Down.SameBeside(site, disk, r.value)
    ensures var back := Sub(disk, site.Dst());
      && (ComesBack(back, tree, Tarred(tree, beyond).value) <==> Portable(tree, beyond))
      && (!IsLink(tree, CHAINDATA) ==>
            Down.SameBeside(site, disk, start) && (Rebuilds(back, tree) <==> Portable(tree, beyond)))
  {
    var fs, root := Down.Fresh(site, start), site.Scratch();
    var r := ExtractAll(fs, root, Headers(Merge(Tarred(tree, beyond).value, sched)));
    RebuildsExactlyWhenPortable(tree, beyond, sched, fs, root);
    hide *;
    if !IsLink(tree, CHAINDATA) {
      OutsideTwice(start, fs, r.value, root);
      BesideTwice(site, disk, r.value, start);
    }
  }

  lemma BesideTwice(site: Site, disk: FileSystem, made: FileSystem, start: FileSystem)
    requires Down.SameBeside(site, disk, made) && SameOutside(start, made, site.Scratch())
    ensures Down.SameBeside(site, disk, start)
  {
  }

  /** Extraction that changed nothing outside the scratch leaves the destination replaceable. */
  lemma StaysReplaceable(site: Site, start: FileSystem, fs: FileSystem)
    requires GoodSite(site, start) && SameOutside(start, fs, site.Scratch()) && Replaceable(start, site.Dst())
    ensures Replaceable(fs, site.Dst())
  {
    SiblingsApart(site, site.Dst());
    if site.Dst() in fs {
      forall q | q in start ensures !(site.Scratch() <= q) { if site.Scratch() <= q { BelowIsIn(start,
          site.Scratch(), q); } }
      LocateGrows(start, fs, [], site.Dst(), MAX_LINKS);
    }
  }

  /**
   And it can come back along every interleaving: for every portable tree and every
   complete schedule of its parts, some upload publishes it and some uncancelled download
   that extracts along the schedule returns nil with the tree rebuilt.
   */
  lemma EveryScheduleBringsItBack(
    t: Tools, tree: Node, beyond: Beyond,
    name: string, role: string, overwrite: bool, upParallel: int, objects: map<string, Bytes>,
    site: Site, force: bool, start: FileSystem, sched: Schedule)
    returns (ups: seq<Up.Upload>, upEvents: seq<Up.Event>, downs: seq<Down.Download>, downEvents: seq<Down.Event>)
    requires Lawful(t) && ValidTree(tree) && tree.Dir? && ValidBeyond(beyond)
    requires Tarred(tree, beyond).Some? && Portable(tree, beyond)
    requires name != "" && ValidRole(role) && forall b :: t.hash(b) != ""
    requires GoodSite(site, start) && EmptyEnough(start, site.Dst(), force) && Replaceable(start, site.Dst())
    requires Complete(Tarred(tree, beyond).value, sched)
    ensures Up.History(t.hash, ups, upEvents) && ups[|upEvents|].phase.Succeeded?
    ensures ups[0] == Up.Begin(name, role, overwrite, PlanOf(t, tree, beyond), upParallel, objects, None)
    ensures Down.History(SourceOf(t, ups[|upEvents|]), downs, downEvents) && ups[|upEvents|].manifest.Some?
    ensures downs[0] == Down.Begin(site, force, |ups[|upEvents|].manifest.value.parts|, start)
    ensures var d := downs[|downEvents|];
      && d.phase == Down.Returned(true) && !d.pool.parentGone && d.sched == sched
      && ComesBack(Sub(d.disk, site.Dst()), tree, Tarred(tree, beyond).value)
  {
    ups, upEvents := SomeUploadPublishes(t, tree, beyond, name, role, overwrite, upParallel, objects);
    var u := ups[|upEvents|];
    var src := SourceOf(t, u);
    PublishedIsFetchable(t, tree, beyond, u, site, force, start, sched);
    hide *;
    downs, downEvents := DownloadRuns.EveryInterleavingHappens(src, site, force, start, sched);
    PromotedTree(src, site, start, sched, downs[|downEvents|].disk);
  }

  lemma PublishedIsFetchable(
    t: Tools, tree: Node, beyond: Beyond, u: Up.Upload, site: Site, force: bool, start: FileSystem, sched: Schedule)
    requires Lawful(t) && ValidTree(tree) && tree.Dir? && ValidBeyond(beyond)
    requires Tarred(tree, beyond).Some? && Portable(tree, beyond)
    requires Up.PublishedLast(t.hash, u) && u.plan == PlanOf(t, tree, beyond)
    requires u.manifest.Some? && WellFormed(u.manifest.value)
    requires GoodSite(site, start) && EmptyEnough(start, site.Dst(), force) && Replaceable(start, site.Dst())
    requires Complete(Tarred(tree, beyond).value, sched)
    ensures CanCommit(SourceOf(t, u), site, force, start) && Fetchable(SourceOf(t, u), site, start, sched)
    ensures Replaceable(FetchedDisk(SourceOf(t, u), site, start, sched), site.Dst())
    ensures ComesBack(Sub(FetchedDisk(SourceOf(t, u), site, start, sched), site.Scratch()), tree,
                      Tarred(tree, beyond).value)
    ensures site.name != site.tmp
  {
    SnapshotReady(t, tree, beyond, u);
    DownloadedStreams(t, tree, beyond, u, sched);
    FreshIsEmpty(site, start);
    var fs, root := Down.Fresh(site, start), site.Scratch();
    RebuildsExactlyWhenPortable(tree, beyond, sched, fs, root);
    assert !IsLink(tree, CHAINDATA);
    hide ComesBack, Rebuilds, Portable, ExtractAll, Sub, Merge, Tarred, Lawful, EmptyEnough, Replaceable;
    var r := ExtractAll(fs, root, Headers(Merge(Tarred(tree, beyond).value, sched)));
    assert Down.UnpackedFrom(SourceOf(t, u), site, start, u.manifest.value.parts, sched) == r;
    OutsideTwice(start, fs, r.value, root);
    StaysReplaceable(site, start, r.value);
  }

  lemma PromotedTree(src: Down.Source, site: Site, start: FileSystem, sched: Schedule, disk: FileSystem)
    requires Fetchable(src, site, start, sched) && site.name != site.tmp
    requires disk == Renamed(Cleared(FetchedDisk(src, site, start, sched), site.Dst()), site.Scratch(), site.Dst())
    ensures Sub(disk, site.Dst()) == Sub(FetchedDisk(src, site, start, sched), site.Scratch())
  {
    var fs := FetchedDisk(src, site, start, sched);
    assert Cleared(fs, site.Dst()) == fs || Cleared(fs, site.Dst()) == Without(fs, site.Dst());
    hide *;
    Down.ClearedScratch(site, fs, Cleared(fs, site.Dst()));
    Down.RenamedScratch(site, Cleared(fs, site.Dst()));
  }

  lemma SomeUploadPublishes(t: Tools, tree: Node, beyond: Beyond,
                            name: string, role: string, overwrite: bool, upParallel: int, objects: map<string, Bytes>)
    returns (ups: seq<Up.Upload>, upEvents: seq<Up.Event>)
    requires Tarred(tree, beyond).Some?
    requires name != "" && ValidRole(role) && forall b :: t.hash(b) != ""
    ensures Up.History(t.hash, ups, upEvents) && ups[|upEvents|].phase.Succeeded?
    ensures ups[0] == Up.Begin(name, role, overwrite, PlanOf(t, tree, beyond), upParallel, objects, None)
    ensures var u := ups[|upEvents|];
      && Up.PublishedLast(t.hash, u) && u.plan == PlanOf(t, tree, beyond)
      && u.manifest.Some? && WellFormed(u.manifest.value)
  {
    var start := Up.Begin(name, role, overwrite, PlanOf(t, tree, beyond), upParallel, objects, None);
    PlanNamesDistinct(t, tree, beyond);
    ups, upEvents := Up.UploadCanSucceed(t.hash, start, upParallel);
    Up.BeginInv(t.hash, start, upParallel);
    Up.ReachesPublishedLast(t.hash, ups, upEvents, |upEvents|);
  }
}
