/**
 Uploads and downloads on one bucket: objects live under full S3 keys, the upload computes
 them from the parent's URL and the download from the snapshot's.
 */
module Buckets {
  import opened Basics
  import opened Paths
  import opened FileTrees
  import opened SnapshotPlan
  import opened RoundTrip
  import opened Names
  import opened Addressing
  import opened EndToEnd
  import opened Manifests
  import opened Disks
  import opened Containment
  import opened AtomicTargets
  import opened DownloadSafety
  import Up = UploadProtocol
  import Down = DownloadProtocol

  type Bucket = map<string, Bytes>

  /** The full key of a snapshot's object: fullKey of path.Join(prefix, name, item). */
  function KeyIn(parent: string, name: string, item: string): string {
    FullKey(CanonPrefix(parent), Join(name, item))
  }

  /** What every key of a snapshot begins with. */
  function Home(parent: string, name: string): string {
    CanonPrefix(parent) + name + "/"
  }

  const PARTS_DIR := "parts/"
  const MANIFEST := "manifest.json"

  /** parts/ and one segment. */
  predicate IsObjectName(item: string) {
    PARTS_DIR <= item && ValidName(item[|PARTS_DIR|..])
  }

  /** The snapshot's parts and sidecars by their names relative to it. */
  function Seen(bucket: Bucket, parent: string, name: string): Bucket {
    var home := Home(parent, name);
    var below := set k | k in bucket && home <= k :: k[|home|..];
    map item | item in below && PARTS_DIR <= item && home + item in bucket :: bucket[home + item]
  }

  /** fetchManifest: what lies at the manifest's key, decoded. */
  function ManifestIn(t: Tools, bucket: Bucket, parent: string, name: string): Option<Manifest> {
    var key := KeyIn(parent, name, MANIFEST);
    if key in bucket then t.decodeManifest(bucket[key]) else None
  }

  lemma SeenIs(bucket: Bucket, parent: string, name: string, item: string)
    ensures item in Seen(bucket, parent, name) <==> PARTS_DIR <= item && Home(parent, name) + item in bucket
    ensures item in Seen(bucket, parent, name) ==> Seen(bucket, parent, name)[item] == bucket[Home(parent, name) + item]
  {
    var home := Home(parent, name);
    if home + item in bucket { assert (home + item)[|home|..] == item; }
  }

  /** An object's key is its name under the snapshot's home. */
  lemma KeyIsAtHome(parent: string, name: string, child: Path)
    requires PathSafe(name) && ValidPath(child) && child != []
    ensures KeyIn(parent, name, Render(child)) == Home(parent, name) + Render(child)
  {
    JoinIsConcat(name, child);
    var key := Join(name, Render(child));
    assert TrimLeft(key) == key;
    assert CanonPrefix(parent) + (name + "/" + Render(child)) == Home(parent, name) + Render(child);
  }

  lemma TwoSegments(leaf: string)
    requires ValidName(leaf)
    ensures ValidPath(["parts", leaf]) && Render(["parts", leaf]) == PARTS_DIR + leaf
  {
    assert ["parts", leaf][1..] == [leaf] && Render([leaf]) == leaf;
    assert "parts" + "/" == PARTS_DIR;
  }

  lemma ObjectKey(parent: string, name: string, leaf: string)
    requires PathSafe(name) && ValidName(leaf)
    ensures KeyIn(parent, name, PARTS_DIR + leaf) == Home(parent, name) + (PARTS_DIR + leaf)
  {
    TwoSegments(leaf);
    KeyIsAtHome(parent, name, ["parts", leaf]);
  }

  lemma ManifestKeyIsAtHome(parent: string, name: string)
    requires PathSafe(name)
    ensures KeyIn(parent, name, MANIFEST) == Home(parent, name) + MANIFEST
  {
    assert Render([MANIFEST]) == MANIFEST;
    KeyIsAtHome(parent, name, [MANIFEST]);
  }

  lemma ObjectKeyIsAtHome(parent: string, name: string, item: string)
    requires PathSafe(name) && IsObjectName(item)
    ensures KeyIn(parent, name, item) == Home(parent, name) + item
  {
    var leaf := item[|PARTS_DIR|..];
    assert item == PARTS_DIR + leaf;
    hide KeyIn, Home;
    ObjectKey(parent, name, leaf);
  }

  /** parts/, a stem without a slash, and an extension. */
  lemma StemIsObject(stem: string, ext: string)
    requires |stem| > 2 && '/' !in stem && '/' !in ext
    ensures IsObjectName(PARTS_DIR + stem + ext)
  {
    assert (PARTS_DIR + stem + ext)[|PARTS_DIR|..] == stem + ext;
  }

  lemma LiveStem()
    ensures '/' !in "chaindata-live" && CHAINDATA_LIVE_PART == PARTS_DIR + "chaindata-live" + ".tar.zst"
  {
  }

  lemma ChainStem()
    ensures '/' !in "ancient-chain" && ANCIENT_CHAIN_PART == PARTS_DIR + "ancient-chain" + ".tar.zst"
  {
  }

  lemma StateStem()
    ensures '/' !in "ancient-state" && ANCIENT_STATE_PART == PARTS_DIR + "ancient-state" + ".tar.zst"
  {
  }

  lemma TriedbStem()
    ensures '/' !in "triedb" && TRIEDB_PART == PARTS_DIR + "triedb" + ".tar.zst"
  {
  }

  lemma StemOf(spec: PartSpec) returns (stem: string)
    requires IsPart(spec)
    ensures |stem| > 2 && '/' !in stem && spec.partPath == PARTS_DIR + stem + ".tar.zst"
  {
    LiveStem();
    ChainStem();
    StateStem();
    TriedbStem();
    stem := if spec == LIVE then "chaindata-live" else if spec == CHAIN_FREEZER then "ancient-chain"
            else if spec == STATE_FREEZER then "ancient-state" else "triedb";
  }

  lemma StemObjects(stem: string)
    requires |stem| > 2 && '/' !in stem
    ensures IsObjectName(PARTS_DIR + stem + ".tar.zst") && IsObjectName(TocPathFor(PARTS_DIR + stem + ".tar.zst"))
  {
    TocOfStem(stem);
    assert '/' !in ".tar.zst" && '/' !in ".toc.zst";
    hide TocPathFor, IsObjectName;
    StemIsObject(stem, ".tar.zst");
    StemIsObject(stem, ".toc.zst");
  }

  /** The part and sidecar names of a planned part. */
  lemma PartNamesAreObjects(spec: PartSpec)
    requires IsPart(spec)
    ensures IsObjectName(spec.partPath) && IsObjectName(TocPathFor(spec.partPath))
  {
    var stem := StemOf(spec);
    hide *;
    StemObjects(stem);
  }

  lemma TocOfStem(stem: string)
    ensures TocPathFor(PARTS_DIR + stem + ".tar.zst") == PARTS_DIR + stem + ".toc.zst"
  {
    var part := PARTS_DIR + stem + ".tar.zst";
    assert part[|part| - 8..] == ".tar.zst" && part[..|part| - 8] == PARTS_DIR + stem;
  }

  // ------------------------------------------------------------------ one bucket

  /** What a step of an upload stores; the manifest lies at its own key. */
  ghost function Stores(t: Tools, b: Bucket, parent: string, u: Up.Upload, e: Up.Event): Bucket {
    match e
    case CommitPart(j) => if j < |u.plan| then b[KeyIn(parent, u.name, u.plan[j].name) := u.plan[j].bytes] else b
    case CommitToc(j) => if j < |u.plan| then b[KeyIn(parent, u.name, u.plan[j].tocName) := u.plan[j].toc] else b
    case Publish(ok) => if ok then b[KeyIn(parent, u.name, MANIFEST) := t.encodeManifest(Up.ManifestOf(u))] else b
    case _ => b
  }

  /** The bucket before and after a step; keys outside the snapshot's home may change at will. */
  ghost predicate SameAtHome(a: Bucket, b: Bucket, parent: string, name: string) {
    forall k | Home(parent, name) <= k :: (k in a <==> k in b) && (k in a ==> a[k] == b[k])
  }

  ghost predicate OnBucket(t: Tools, buckets: seq<Bucket>, parent: string, ups: seq<Up.Upload>, events: seq<Up.Event>) {
    && |buckets| == |ups| == |events| + 1
    && forall i :: 0 <= i < |events| ==>
         SameAtHome(buckets[i + 1], Stores(t, buckets[i], parent, ups[i], events[i]), parent, ups[i].name)
  }

  ghost predicate NamedAsPlanned(plan: seq<Up.Planned>) {
    forall j :: 0 <= j < |plan| ==> IsObjectName(plan[j].name) && IsObjectName(plan[j].tocName)
  }

  lemma SameHomeSameView(t: Tools, a: Bucket, b: Bucket, parent: string, name: string)
    requires SameAtHome(a, b, parent, name) && PathSafe(name)
    ensures Seen(a, parent, name) == Seen(b, parent, name)
    ensures ManifestIn(t, a, parent, name) == ManifestIn(t, b, parent, name)
  {
    ManifestKeyIsAtHome(parent, name);
    hide KeyIn, Home, Seen;
    forall o ensures o in Seen(a, parent, name) <==> o in Seen(b, parent, name)
      ensures o in Seen(a, parent, name) ==> Seen(a, parent, name)[o] == Seen(b, parent, name)[o]
    {
      SeenIs(a, parent, name, o);
      SeenIs(b, parent, name, o);
    }
  }

  /** Storing under an object's full key is storing under its name. */
  lemma PutThroughKey(b: Bucket, parent: string, name: string, item: string, bytes: Bytes)
    requires PathSafe(name) && IsObjectName(item)
    ensures Seen(b[KeyIn(parent, name, item) := bytes], parent, name) == Seen(b, parent, name)[item := bytes]
  {
    ObjectKeyIsAtHome(parent, name, item);
    var home, key := Home(parent, name), KeyIn(parent, name, item);
    var left, right := Seen(b[key := bytes], parent, name), Seen(b, parent, name)[item := bytes];
    hide KeyIn, Home, IsObjectName, Seen;
    forall o ensures o in left <==> o in right
      ensures o in left ==> left[o] == right[o]
    {
      SeenIs(b, parent, name, o);
      SeenIs(b[key := bytes], parent, name, o);
      if home + o == key {
        assert (home + o)[|home|..] == o && (home + item)[|home|..] == item;
      }
    }
  }

  /** Storing a part does not change the manifest, and storing the manifest changes no part. */
  lemma ManifestIsApart(t: Tools, b: Bucket, parent: string, name: string, item: string, bytes: Bytes)
    requires PathSafe(name) && (IsObjectName(item) || item == MANIFEST)
    ensures item == MANIFEST ==> Seen(b[KeyIn(parent, name, item) := bytes], parent, name) == Seen(b, parent, name)
    ensures item == MANIFEST ==>
      ManifestIn(t, b[KeyIn(parent, name, item) := bytes], parent, name) == t.decodeManifest(bytes)
    ensures item != MANIFEST ==>
      ManifestIn(t, b[KeyIn(parent, name, item) := bytes], parent, name) == ManifestIn(t, b, parent, name)
  {
    ManifestKeyIsAtHome(parent, name);
    var home := Home(parent, name);
    if item == MANIFEST {
      assert MANIFEST[0] == 'm' && PARTS_DIR[0] == 'p';
      SeenWithout(b, parent, name, MANIFEST, bytes);
    } else {
      ObjectKeyIsAtHome(parent, name, item);
      assert (home + item)[|home|..] == item && (home + MANIFEST)[|home|..] == MANIFEST;
    }
  }

  lemma SeenWithout(b: Bucket, parent: string, name: string, item: string, bytes: Bytes)
    requires !(PARTS_DIR <= item) && KeyIn(parent, name, item) == Home(parent, name) + item
    ensures Seen(b[KeyIn(parent, name, item) := bytes], parent, name) == Seen(b, parent, name)
  {
    var home, key := Home(parent, name), KeyIn(parent, name, item);
    var left, right := Seen(b[key := bytes], parent, name), Seen(b, parent, name);
    hide KeyIn, Home, Seen;
    forall o ensures o in left <==> o in right
      ensures o in left ==> left[o] == right[o]
    {
      SeenIs(b, parent, name, o);
      SeenIs(b[key := bytes], parent, name, o);
      assert (home + o)[|home|..] == o && (home + item)[|home|..] == item;
    }
  }

  /** The bucket carries what the upload protocol says is stored, and shows the manifest when the protocol does. */
  lemma {:induction false} BucketFollows(t: Tools, buckets: seq<Bucket>, parent: string,
                                         ups: seq<Up.Upload>, events: seq<Up.Event>, i: nat)
    requires Up.History(t.hash, ups, events) && OnBucket(t, buckets, parent, ups, events) && i <= |events| && Lawful(t)
    requires PathSafe(ups[0].name) && NamedAsPlanned(ups[0].plan)
    requires ups[0].objects == Seen(buckets[0], parent, ups[0].name)
    requires ups[0].manifest == ManifestIn(t, buckets[0], parent, ups[0].name)
    ensures ups[i].objects == Seen(buckets[i], parent, ups[0].name)
    ensures ups[i].manifest == ManifestIn(t, buckets[i], parent, ups[0].name)
    ensures ups[i].name == ups[0].name && ups[i].plan == ups[0].plan
  {
    if i > 0 {
      BucketFollows(t, buckets, parent, ups, events, i - 1);
      assert Up.Happened(t.hash, ups, events, i - 1);
      hide Seen, ManifestIn, Up.Step, Stores;
      StepFollows(t, buckets[i - 1], buckets[i], parent, ups[i - 1], events[i - 1]);
    }
  }

  lemma StepFollows(t: Tools, b: Bucket, b': Bucket, parent: string, u: Up.Upload, e: Up.Event)
    requires Up.Step(t.hash, u, e).Some? && SameAtHome(b', Stores(t, b, parent, u, e), parent, u.name) && Lawful(t)
    requires PathSafe(u.name) && NamedAsPlanned(u.plan) && u.objects == Seen(b, parent, u.name)
    requires u.manifest == ManifestIn(t, b, parent, u.name)
    ensures var u' := Up.Step(t.hash, u, e).value;
      && u'.objects == Seen(b', parent, u.name) && u'.manifest == ManifestIn(t, b', parent, u.name)
      && u'.name == u.name && u'.plan == u.plan
  {
    SameHomeSameView(t, b', Stores(t, b, parent, u, e), parent, u.name);
    StoresFollows(t, b, parent, u, e);
    hide Stores, Up.Step, Seen, ManifestIn;
  }

  lemma StoresFollows(t: Tools, b: Bucket, parent: string, u: Up.Upload, e: Up.Event)
    requires Up.Step(t.hash, u, e).Some? && Lawful(t)
    requires PathSafe(u.name) && NamedAsPlanned(u.plan) && u.objects == Seen(b, parent, u.name)
    requires u.manifest == ManifestIn(t, b, parent, u.name)
    ensures var u', b' := Up.Step(t.hash, u, e).value, Stores(t, b, parent, u, e);
      && u'.objects == Seen(b', parent, u.name) && u'.manifest == ManifestIn(t, b', parent, u.name)
      && u'.name == u.name && u'.plan == u.plan
  {
    if e.CommitPart? {
      PutThroughKey(b, parent, u.name, u.plan[e.j].name, u.plan[e.j].bytes);
      ManifestIsApart(t, b, parent, u.name, u.plan[e.j].name, u.plan[e.j].bytes);
      ObjectIsNotManifest(u.plan[e.j].name);
    } else if e.CommitToc? {
      PutThroughKey(b, parent, u.name, u.plan[e.j].tocName, u.plan[e.j].toc);
      ManifestIsApart(t, b, parent, u.name, u.plan[e.j].tocName, u.plan[e.j].toc);
      ObjectIsNotManifest(u.plan[e.j].tocName);
    } else if e.Publish? && e.ok {
      ManifestIsApart(t, b, parent, u.name, MANIFEST, t.encodeManifest(Up.ManifestOf(u)));
    }
    hide Seen, ManifestIn, KeyIn;
  }

  lemma ObjectIsNotManifest(item: string)
    requires IsObjectName(item)
    ensures item != MANIFEST
  {
    assert MANIFEST[0] == 'm' && PARTS_DIR[0] == 'p';
  }

  /** What decodes from the manifest's key is the manifest of this name, this role and this datadir. */
  lemma BucketManifestTellsTheTruth(
    t: Tools, tree: Node, beyond: Beyond, parent: string, buckets: seq<Bucket>,
    ups: seq<Up.Upload>, upEvents: seq<Up.Event>, upParallel: int, i: nat)
    requires Lawful(t) && Tarred(tree, beyond).Some?
    requires Up.History(t.hash, ups, upEvents) && i <= |upEvents| && OnBucket(t, buckets, parent, ups, upEvents)
    requires PathSafe(ups[0].name)
    requires ups[0] == Up.Begin(ups[0].name, ups[0].role, ups[0].overwrite, PlanOf(t, tree, beyond),
                                upParallel, Seen(buckets[0], parent, ups[0].name), None)
    requires KeyIn(parent, ups[0].name, MANIFEST) !in buckets[0]
    ensures var found := ManifestIn(t, buckets[i], parent, ups[0].name);
      found.Some? ==>
        Announces(t, found.value, ups[0].name, ups[0].role, tree, beyond, Seen(buckets[i], parent, ups[0].name))
  {
    PlanIsNamed(t, tree, beyond);
    assert ManifestIn(t, buckets[0], parent, ups[0].name) == None;
    hide Seen, ManifestIn, Home, KeyIn, Up.Step, OnBucket, NamedAsPlanned, Announces;
    BucketFollows(t, buckets, parent, ups, upEvents, i);
    if ups[i].manifest.Some? { ManifestTellsTheTruth(t, tree, beyond, ups, upEvents, upParallel, i); }
  }

  // ------------------------------------------------------------- from URL to URL

  /** The snapshot's URL leads back to the home that the upload used, exactly for these parents. */
  lemma SameHomeIff(parent: string, name: string)
    requires PathSafe(name)
    ensures SplitTrailing(Under(parent, name)).Some?
    ensures var snap := SplitTrailing(Under(parent, name)).value;
      Home(snap.root, snap.name) == Home(parent, name) <==> !EndsIn(parent, "//") || AllSlashes(parent)
  {
    SplitOfUnder(parent, name);
    TrimmedPrefixAgreesIff(parent);
    SameHomeSamePrefix(TrimRight(AsDir(parent)), parent, name);
    hide *;
  }

  lemma SameHomeSamePrefix(a: string, b: string, name: string)
    ensures Home(a, name) == Home(b, name) <==> CanonPrefix(a) == CanonPrefix(b)
  {
    hide CanonPrefix;
    assert CanonPrefix(a) + name + "/" == CanonPrefix(a) + (name + "/");
    assert CanonPrefix(b) + name + "/" == CanonPrefix(b) + (name + "/");
    SamePrefix(CanonPrefix(a), CanonPrefix(b), name + "/");
  }

  lemma PlanIsNamed(t: Tools, tree: Node, beyond: Beyond)
    requires Tarred(tree, beyond).Some?
    ensures NamedAsPlanned(PlanOf(t, tree, beyond))
  {
    var plan := PlanOf(t, tree, beyond);
    forall j | 0 <= j < |plan| ensures IsObjectName(plan[j].name) && IsObjectName(plan[j].tocName) {
      PlanSpecs(tree, beyond, j, j);
      PartNamesAreObjects(PlanParts(tree, beyond)[j]);
    }
  }

  /** What a download of the snapshot at this address reads. */
  function SourceAt(t: Tools, bucket: Bucket, parent: string, name: string): Down.Source {
    Down.Source(t.hash, t.decode, Seen(bucket, parent, name), ManifestIn(t, bucket, parent, name))
  }

  /**
   End to end on one bucket.  A datadir is uploaded to a parent URL where no manifest lies
   yet, and downloaded from the snapshot's URL with the manifest that lies there, while
   other keys of the bucket change at will.  If the parent does not end in two slashes, or
   is all slashes, a successful, uncancelled download has put back chaindata/ and triedb/
   exactly, with all that the parts carried, if and only if the tree was portable.
   */
  lemma DatadirComesBackThroughBucket(
    t: Tools, tree: Node, beyond: Beyond, parent: string, buckets: seq<Bucket>,
    ups: seq<Up.Upload>, upEvents: seq<Up.Event>, upParallel: int, i: nat,
    site: Site, start: FileSystem, downs: seq<Down.Download>, downEvents: seq<Down.Event>, k: nat)
    requires Lawful(t) && ValidTree(tree) && tree.Dir? && ValidBeyond(beyond) && Tarred(tree, beyond).Some?
    requires Up.History(t.hash, ups, upEvents) && i <= |upEvents| && OnBucket(t, buckets, parent, ups, upEvents)
    requires ups[0] == Up.Begin(ups[0].name, ups[0].role, ups[0].overwrite, PlanOf(t, tree, beyond),
                                upParallel, Seen(buckets[0], parent, ups[0].name), None)
    requires KeyIn(parent, ups[0].name, MANIFEST) !in buckets[0]
    requires PathSafe(ups[0].name) && (!EndsIn(parent, "//") || AllSlashes(parent))
    requires var snap := SplitTrailing(Under(parent, ups[0].name));
      snap.Some? && Down.History(SourceAt(t, buckets[i], snap.value.root, snap.value.name), downs, downEvents)
    requires GoodSite(site, start)
    requires k <= |downEvents| && downs[0] == Down.Begin(site, downs[0].force, downs[0].parallel, start)
    requires downs[k].phase == Down.Returned(true) && !downs[k].pool.parentGone
    ensures var back := Sub(downs[k].disk, site.Dst());
      && (ComesBack(back, tree, Tarred(tree, beyond).value) <==> Portable(tree, beyond))
      && (!IsLink(tree, CHAINDATA) ==>
            Down.SameBeside(site, downs[k].disk, start) && (Rebuilds(back, tree) <==> Portable(tree, beyond)))
  {
    ReadsWhatWasStored(t, tree, beyond, parent, buckets, ups, upEvents, upParallel, i);
    hide *;
    PublishedManifest(t, downs, downEvents, ups[i], site, start, k);
    DatadirComesBack(t, tree, beyond, ups, upEvents, upParallel, i, site, start, downs, downEvents, k);
  }

  /** The snapshot's URL leads to exactly what the upload has stored by then. */
  lemma ReadsWhatWasStored(
    t: Tools, tree: Node, beyond: Beyond, parent: string, buckets: seq<Bucket>,
    ups: seq<Up.Upload>, upEvents: seq<Up.Event>, upParallel: int, i: nat)
    requires Lawful(t) && Tarred(tree, beyond).Some?
    requires Up.History(t.hash, ups, upEvents) && i <= |upEvents| && OnBucket(t, buckets, parent, ups, upEvents)
    requires ups[0] == Up.Begin(ups[0].name, ups[0].role, ups[0].overwrite, PlanOf(t, tree, beyond),
                                upParallel, Seen(buckets[0], parent, ups[0].name), None)
    requires KeyIn(parent, ups[0].name, MANIFEST) !in buckets[0]
    requires PathSafe(ups[0].name) && (!EndsIn(parent, "//") || AllSlashes(parent))
    ensures var snap := SplitTrailing(Under(parent, ups[0].name));
      snap.Some? && SourceAt(t, buckets[i], snap.value.root, snap.value.name) == SourceOf(t, ups[i])
  {
    PlanIsNamed(t, tree, beyond);
    SameHomeIff(parent, ups[0].name);
    SplitOfUnder(parent, ups[0].name);
    var snap := SplitTrailing(Under(parent, ups[0].name)).value;
    assert ManifestIn(t, buckets[0], parent, ups[0].name) == None;
    hide Seen, ManifestIn, Home, KeyIn, Up.Step, OnBucket, NamedAsPlanned, SplitTrailing;
    BucketFollows(t, buckets, parent, ups, upEvents, i);
    SourceAtHome(t, buckets[i], parent, ups[0].name, snap.root, snap.name);
  }

  /** A download that returned nil read a manifest. */
  lemma PublishedManifest(t: Tools, downs: seq<Down.Download>, downEvents: seq<Down.Event>, u: Up.Upload,
                          site: Site, start: FileSystem, k: nat)
    requires GoodSite(site, start) && Down.History(SourceOf(t, u), downs, downEvents) && k <= |downEvents|
    requires downs[0] == Down.Begin(site, downs[0].force, downs[0].parallel, start)
    requires downs[k].phase == Down.Returned(true)
    ensures u.manifest.Some?
  {
    Down.SuccessfulDownload(SourceOf(t, u), downs, downEvents, k);
  }

  lemma SourceAtHome(t: Tools, bucket: Bucket, parent: string, name: string, parent': string, name': string)
    requires Home(parent, name) == Home(parent', name') && PathSafe(name) && PathSafe(name')
    ensures SourceAt(t, bucket, parent, name) == SourceAt(t, bucket, parent', name')
  {
    ManifestKeyIsAtHome(parent, name);
    ManifestKeyIsAtHome(parent', name');
  }
}
