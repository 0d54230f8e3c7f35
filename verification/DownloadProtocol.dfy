/**
 One download run: parts are fetched, extracted into a scratch directory and checked by
 the worker pool in any interleaving, then the scratch is promoted.  The run may fail or
 crash, and its caller may cancel, between any two steps.
 */
module DownloadProtocol {
  import opened Basics
  import opened Paths
  import opened FileTrees
  import opened Disks
  import opened Extraction
  import opened Containment
  import opened Schedules
  import opened Manifests
  import opened WorkerPool
  import opened AtomicTargets

  /** What the decoder yields from an object: entries, then a clean end or an error. */
  datatype Stream = Stream(entries: seq<TarEntry>, clean: bool)

  /** The hash and decoder, and the objects of the snapshot being read. */
  datatype Source = Source(
    hash: Bytes -> string,
    decode: Bytes -> Stream,
    objects: map<string, Bytes>,
    manifest: Option<Manifest>)

  datatype Phase = Preparing | Fetching | Extracting | Clearing | Renaming | Returned(ok: bool) | Crashed

  /**
   `start` is the disk before the run.  `sched` (whose entry was extracted at each step)
   and `touched` (every place made, written to or removed outside the housekeeping of the
   scratch directory itself) are history.
   */
  datatype Download = Download(
    site: Site,
    force: bool,
    parallel: int,
    phase: Phase,
    parts: seq<Part>,
    pool: Pool,
    sched: Schedule,
    start: FileSystem,
    disk: FileSystem,
    touched: set<Path>)

  datatype Event =
    | Prepare(made: bool)                       // PrepareAtomic
    | Fetch(got: bool)                          // fetchManifest, which validates
    | PoolLoop(m: Move)                         // Check, Launch or CancelParent
    | ExtractNext(j: nat)                       // the goroutine of part j extracts one entry
    | Finish(j: nat)                            // drain, compare digests, no error
    | GiveUp(j: nat)                            // part j fails between two entries, or its digest differs
    | Break(j: nat, left: FileSystem)           // part j fails at an entry, which may be half done
    | Collect                                   // wg.Wait()
    | Clear(ok: bool, gone: set<Path>)          // Commit: RemoveAll of an existing destination
    | Rename(ok: bool)                          // Commit: rename the scratch into place
    | Crash

  function Begin(site: Site, force: bool, parallel: int, disk: FileSystem): Download {
    Download(site, force, parallel, Preparing, [], NewPool(0, parallel), [], disk, disk, {})
  }

  /** The disk with the scratch directory just made. */
  function Fresh(site: Site, start: FileSystem): FileSystem {
    start[site.Scratch() := ODir]
  }

  function StreamOf(src: Source, p: Part): seq<TarEntry> {
    if p.name in src.objects then src.decode(src.objects[p.name]).entries else []
  }

  function Streams(src: Source, parts: seq<Part>): (ss: seq<seq<TarEntry>>)
    ensures |ss| == |parts| && forall j :: 0 <= j < |parts| ==> ss[j] == StreamOf(src, parts[j])
  {
    if parts == [] then [] else Streams(src, parts[..|parts| - 1]) + [StreamOf(src, parts[|parts| - 1])]
  }

  /** The part's object is there, decodes to the end, and has the digest the manifest names. */
  ghost predicate Verified(src: Source, p: Part) {
    p.name in src.objects && src.decode(src.objects[p.name]).clean && src.hash(src.objects[p.name]) == p.sha256
  }

  ghost predicate Working(d: Download, j: nat) {
    d.phase.Extracting? && j < |d.parts| && j < |d.pool.slots| && d.pool.slots[j].Busy?
  }

  /** The entry that part j comes to next. */
  ghost predicate HasNext(src: Source, d: Download, j: nat) {
    Working(d, j) && Count(d.sched, j) < |StreamOf(src, d.parts[j])|
  }

  ghost function NextEntry(src: Source, d: Download, j: nat): TarEntry
    requires HasNext(src, d, j)
  {
    StreamOf(src, d.parts[j])[Count(d.sched, j)]
  }

  ghost function FailRun(d: Download, disk: FileSystem): Download {
    d.(phase := Returned(false), disk := Without(disk, d.site.Scratch()))
  }

  /** The state after an event, or None where it cannot happen. */
  ghost function Step(src: Source, d: Download, e: Event): Option<Download> {
    match e
    case Prepare(made) =>
      if !d.phase.Preparing? then None
      else if made && EmptyEnough(d.disk, d.site.Dst(), d.force) then
        Some(d.(phase := Fetching, disk := Fresh(d.site, d.disk)))
      else Some(d.(phase := Returned(false)))
    case Fetch(got) =>
      if !d.phase.Fetching? then None
      else if got && src.manifest.Some? && WellFormed(src.manifest.value) then
        var parts := src.manifest.value.parts;
        Some(d.(phase := Extracting, parts := parts, pool := NewPool(|parts|, d.parallel)))
      else Some(FailRun(d, d.disk))
    case PoolLoop(m) =>
      if d.phase.Extracting? && !m.Win? && !m.Lose? && Next(d.pool, m).Some? then
        Some(d.(pool := Next(d.pool, m).value))
      else None
    case ExtractNext(j) =>
      if HasNext(src, d, j) && Extract(d.disk, d.site.Scratch(), NextEntry(src, d, j)).Some? then
        Some(d.(disk := Extract(d.disk, d.site.Scratch(), NextEntry(src, d, j)).value, sched := d.sched + [j],
                touched := d.touched + Touched(d.disk, d.site.Scratch(), NextEntry(src, d, j))))
      else None
    case Finish(j) =>
      if && Working(d, j) && Count(d.sched, j) == |StreamOf(src, d.parts[j])| && Verified(src, d.parts[j])
         && Next(d.pool, Win(j)).Some?
      then Some(d.(pool := Next(d.pool, Win(j)).value))
      else None
    case GiveUp(j) =>
      if Working(d, j) && Next(d.pool, Lose(j)).Some? then Some(d.(pool := Next(d.pool, Lose(j)).value)) else None
    case Break(j, left) =>
      if && HasNext(src, d, j) && Next(d.pool, Lose(j)).Some?
         && Partial(d.disk, left, Touched(d.disk, d.site.Scratch(), NextEntry(src, d, j)))
      then
        Some(d.(pool := Next(d.pool, Lose(j)).value, disk := left,
                touched := d.touched + Touched(d.disk, d.site.Scratch(), NextEntry(src, d, j))))
      else None
    case Collect =>
      if d.phase.Extracting? && Ended(d.pool) then
        if d.pool.firstErr.None? then Some(d.(phase := Clearing)) else Some(FailRun(d, d.disk))
      else None
    case Clear(ok, gone) =>
      if !d.phase.Clearing? then None
      else if !Exists(d.disk, d.site.Dst()) then Some(d.(phase := Renaming))
      else if ok then
        Some(d.(phase := Renaming, disk := Without(d.disk, d.site.Dst()),
                touched := d.touched + (d.disk.Keys - Without(d.disk, d.site.Dst()).Keys)))
      else
        var rest := Pruned(d.disk, d.site.Dst(), gone);
        Some(FailRun(d, rest).(touched := d.touched + (d.disk.Keys - rest.Keys)))
    case Rename(ok) =>
      if !d.phase.Renaming? then None
      else if !ok then Some(FailRun(d, d.disk))
      else if d.site.Dst() in d.disk then None
      else
        var moved := Renamed(d.disk, d.site.Scratch(), d.site.Dst());
        Some(d.(phase := Returned(true), disk := moved, touched := d.touched + (moved.Keys - d.disk.Keys)))
    case Crash => Some(d.(phase := Crashed))
  }

  ghost predicate History(src: Source, states: seq<Download>, events: seq<Event>) {
    && |states| == |events| + 1
    && forall i :: 0 <= i < |events| ==> Happened(src, states, events, i)
  }

  ghost predicate Happened(src: Source, states: seq<Download>, events: seq<Event>, i: nat)
    requires i < |events| < |states|
  {
    Step(src, states[i], events[i]) == Some(states[i + 1])
  }

  // ---------------------------------------------------------------- invariant

  ghost predicate SlotOk(src: Source, d: Download, j: nat)
    requires j < |d.parts| == |d.pool.slots|
  {
    d.pool.slots[j].Won? ==> Verified(src, d.parts[j]) && Count(d.sched, j) == |StreamOf(src, d.parts[j])|
  }

  /** The disk after the entries that `sched` takes, from the moment the scratch was made. */
  ghost function UnpackedFrom(src: Source, site: Site, start: FileSystem, parts: seq<Part>,
      sched: Schedule): Option<FileSystem>
    requires Fits(Streams(src, parts), sched)
  {
    ExtractAll(Fresh(site, start), site.Scratch(), Merge(Streams(src, parts), sched))
  }

  ghost function Unpacked(src: Source, d: Download): Option<FileSystem>
    requires Fits(Streams(src, d.parts), d.sched)
  {
    UnpackedFrom(src, d.site, d.start, d.parts, d.sched)
  }

  /** While no part has failed, the disk is what the entries taken so far make. */
  ghost predicate Extracted(src: Source, d: Download) {
    Fits(Streams(src, d.parts), d.sched) && Unpacked(src, d) == Some(d.disk)
  }

  /** Outside the two directories both disks hold the same. */
  ghost predicate SameBeside(site: Site, a: FileSystem, b: FileSystem) {
    forall q | !(site.Dst() <= q) && !(site.Scratch() <= q) :: (q in a <==> q in b) && (q in a ==> a[q] == b[q])
  }

  /** The tree made in the scratch directory stands at `at`, and everything beside both places is as it was made. */
  ghost predicate Carried(src: Source, d: Download, at: Path) {
    && Fits(Streams(src, d.parts), d.sched) && Unpacked(src, d).Some?
    && Sub(d.disk, at) == Sub(Unpacked(src, d).value, d.site.Scratch())
    && SameBeside(d.site, d.disk, Unpacked(src, d).value)
  }

  /** What is neither in the scratch nor touched is as it was. */
  ghost predicate UntouchedSame(d: Download) {
    forall q | !(d.site.Scratch() <= q) && q !in d.touched ::
      (q in d.disk <==> q in d.start) && (q in d.disk ==> d.disk[q] == d.start[q])
  }

  ghost predicate HasScratch(d: Download) {
    d.site.Scratch() in d.disk && d.disk[d.site.Scratch()] == ODir
  }

  /** Where the run started, and that the disk is in order. */
  ghost predicate DiskOk(d: Download) {
    && ValidSite(d.site, d.start) && d.site.Scratch() !in d.start
    && ValidSite(d.site, d.disk) && UntouchedSame(d)
    && (d.phase.Preparing? ==> d.disk == d.start && d.touched == {})
    && (d.phase.Fetching? ==> d.disk == Fresh(d.site, d.start) && d.touched == {})
    && (d.phase.Fetching? || d.phase.Extracting? || d.phase.Clearing? || d.phase.Renaming? ==> HasScratch(d))
    && (d.phase.Returned? ==> forall q | d.site.Scratch() <= q :: q !in d.disk)
  }

  ghost predicate Inv(src: Source, d: Download) {
    && WorkerPool.Inv(d.pool) && |d.parts| == |d.pool.slots|
    && (d.phase.Preparing? || d.phase.Fetching? ==> d.parts == [] && d.sched == [])
    && (d.phase.Extracting? || d.phase.Clearing? || d.phase.Renaming? || d.phase == Returned(true) ==>
          src.manifest.Some? && d.parts == src.manifest.value.parts)
    && (forall j :: 0 <= j < |d.parts| ==> SlotOk(src, d, j))
    && (d.phase.Extracting? && d.pool.firstErr.None? ==> Extracted(src, d))
    && (d.phase.Clearing? || d.phase.Renaming? || d.phase == Returned(true) ==> Ended(d.pool) && d.pool.firstErr.None?)
    && (d.phase.Clearing? ==> Extracted(src, d))
    && (d.phase.Renaming? ==> Carried(src, d, d.site.Scratch()))
    && (d.phase == Returned(true) ==> Carried(src, d, d.site.Dst()))
  }

  lemma MergeSnoc<T>(streams: seq<seq<T>>, sched: Schedule, j: nat)
    requires Fits(streams, sched) && j < |streams| && Count(sched, j) < |streams[j]|
    ensures Fits(streams, sched + [j])
    ensures Merge(streams, sched + [j]) == Merge(streams, sched) + [streams[j][Count(sched, j)]]
    ensures forall i :: Count(sched + [j], i) == Count(sched, i) + if i == j then 1 else 0
  {
    assert (sched + [j])[..|sched|] == sched;
    var m := Merge(streams, sched + [j]);
    forall a | 0 <= a < |sched| ensures m[a] == Merge(streams, sched)[a] {
      assert (sched + [j])[..a] == sched[..a];
    }
  }

  // ---------------------------------------------------------- the disk is in order

  lemma ScratchRooted(d: Download)
    requires DiskOk(d) && HasScratch(d)
    ensures Rooted(d.disk, d.site.Scratch())
  {
  }

  lemma WritesKeepDisk(d: Download, d': Download, places: set<Path>)
    requires DiskOk(d) && HasScratch(d) && WrittenWithin(d.disk, d'.disk, places)
    requires d'.site == d.site && d'.start == d.start && d'.touched == d.touched + places
        && d.phase.Extracting? && d'.phase.Extracting?
    ensures DiskOk(d')
  {
  }

  lemma AttemptKeepsDisk(src: Source, d: Download, e: Event)
    requires DiskOk(d) && Step(src, d, e).Some? && (e.ExtractNext? || e.Break?)
    ensures DiskOk(Step(src, d, e).value)
  {
    var t := NextEntry(src, d, e.j);
    var root := d.site.Scratch();
    if e.ExtractNext? {
      SafePathStaysInside(t.name);
      NamesOf(root, SafePath(t.name).value);
      MakeFrame(d.disk, root + SafePath(t.name).value, t.obj);
    }
    assert WrittenWithin(d.disk, Step(src, d, e).value.disk, Touched(d.disk, root, t));
    hide Extract, Touched, Partial, WrittenWithin;
    WritesKeepDisk(d, Step(src, d, e).value, Touched(d.disk, root, t));
  }

  lemma FailKeepsDisk(d: Download, rest: FileSystem)
    requires DiskOk(d) && Sound(rest) && d.site.home in rest && rest[d.site.home] == ODir
    requires forall q | q in rest :: q in d.disk && rest[q] == d.disk[q]
    requires forall q | q in d.disk && q !in rest :: d.site.Dst() <= q
    ensures DiskOk(FailRun(d, rest).(touched := d.touched + (d.disk.Keys - rest.Keys)))
  {
    WithoutIsSound(rest, d.site.Scratch());
    HomeIsNotBelow(d.site, d.site.home);
  }

  lemma HomeIsNotBelow(s: Site, q: Path)
    requires q <= s.home
    ensures !(s.Dst() <= q) && !(s.Scratch() <= q)
  {
  }

  lemma CommitKeepsDisk(src: Source, d: Download, e: Event)
    requires DiskOk(d) && Step(src, d, e).Some? && (e.Clear? || e.Rename?)
    ensures DiskOk(Step(src, d, e).value)
  {
    HomeIsNotBelow(d.site, d.site.home);
    SiblingsApart(d.site, d.site.Scratch());
    if e.Clear? { ClearKeepsDisk(src, d, e); } else { RenameKeepsDisk(src, d, e); }
  }

  lemma ClearKeepsDisk(src: Source, d: Download, e: Event)
    requires DiskOk(d) && Step(src, d, e).Some? && e.Clear?
    requires !(d.site.Dst() <= d.site.home) && !(d.site.Dst() <= d.site.Scratch())
    ensures DiskOk(Step(src, d, e).value)
  {
    WithoutIsSound(d.disk, d.site.Dst());
    PrunedIsSound(d.disk, d.site.Dst(), e.gone);
    if Exists(d.disk, d.site.Dst()) && !e.ok { FailKeepsDisk(d, Pruned(d.disk, d.site.Dst(), e.gone)); }
  }

  lemma RenameKeepsDisk(src: Source, d: Download, e: Event)
    requires DiskOk(d) && Step(src, d, e).Some? && e.Rename?
    requires !(d.site.Dst() <= d.site.home) && !(d.site.Scratch() <= d.site.home)
    ensures DiskOk(Step(src, d, e).value)
  {
    if e.ok {
      MovedKeepsDisk(d);
    } else {
      FailKeepsDisk(d, d.disk);
      assert d.touched + (d.disk.Keys - d.disk.Keys) == d.touched;
    }
  }

  /** What os.Rename of the scratch to a free destination leaves at a place. */
  lemma RenamedAt(site: Site, disk: FileSystem, q: Path)
    requires site.name != site.tmp
    ensures var moved := Renamed(disk, site.Scratch(), site.Dst());
      && (!(site.Dst() <= q) && !(site.Scratch() <= q) ==>
            (q in moved <==> q in disk) && (q in moved ==> moved[q] == disk[q]))
      && (site.Scratch() <= q ==> q !in moved)
  {
    SiblingsApart(site, q);
    GraftHas(Without(disk, site.Scratch()), site.Dst(), Sub(disk, site.Scratch()), q);
    hide Graft, Sub;
  }

  lemma RenamedIsSound(site: Site, disk: FileSystem)
    requires ValidSite(site, disk) && site.Scratch() in disk && disk[site.Scratch()] == ODir && site.Dst() !in disk
    ensures Sound(Renamed(disk, site.Scratch(), site.Dst()))
  {
    HomeIsNotBelow(site, site.home);
    SubIsSound(disk, site.Scratch());
    WithoutIsSound(disk, site.Scratch());
    var cleared, tree := Without(disk, site.Scratch()), Sub(disk, site.Scratch());
    assert site.home in cleared && cleared[site.home] == ODir && site.Dst() !in cleared;
    hide Sound, Sub, Without, Graft;
    GraftIsSound(cleared, site.home, site.name, tree);
  }

  lemma RenamedFacts(site: Site, disk: FileSystem)
    requires ValidSite(site, disk) && site.Scratch() in disk && disk[site.Scratch()] == ODir && site.Dst() !in disk
    ensures var moved := Renamed(disk, site.Scratch(), site.Dst());
      && ValidSite(site, moved) && SameBeside(site, moved, disk)
      && (forall q | site.Scratch() <= q :: q !in moved) && (forall q | site.Dst() <= q :: q !in disk)
  {
    var moved := Renamed(disk, site.Scratch(), site.Dst());
    RenamedIsSound(site, disk);
    HomeIsNotBelow(site, site.home);
    RenamedAt(site, disk, site.home);
    forall q | site.Dst() <= q ensures q !in disk { if q in disk { BelowIsIn(disk, site.Dst(), q); } }
    hide Renamed, Sound;
    forall q | site.Scratch() <= q ensures q !in moved { RenamedAt(site, disk, q); }
    forall q | !(site.Dst() <= q) && !(site.Scratch() <= q)
      ensures (q in moved <==> q in disk) && (q in moved ==> moved[q] == disk[q])
    {
      RenamedAt(site, disk, q);
    }
  }

  lemma MovedKeepsDisk(d: Download)
    requires DiskOk(d) && d.phase.Renaming? && d.site.Dst() !in d.disk
    ensures var moved := Renamed(d.disk, d.site.Scratch(), d.site.Dst());
      DiskOk(d.(phase := Returned(true), disk := moved, touched := d.touched + (moved.Keys - d.disk.Keys)))
  {
    RenamedFacts(d.site, d.disk);
    hide Renamed, Sound;
  }

  lemma StepKeepsDisk(src: Source, d: Download, e: Event)
    requires DiskOk(d) && Step(src, d, e).Some?
    ensures DiskOk(Step(src, d, e).value)
    ensures Step(src, d, e).value.site == d.site && Step(src, d, e).value.start == d.start
    ensures Step(src, d, e).value.force == d.force
  {
    match e
    case Prepare(made) => PrepareKeepsDisk(src, d, made);
    case Fetch(_) => CollectKeepsDisk(src, d, e);
    case Collect => CollectKeepsDisk(src, d, e);
    case ExtractNext(_) => AttemptKeepsDisk(src, d, e);
    case Break(_, _) => AttemptKeepsDisk(src, d, e);
    case Clear(_, _) => CommitKeepsDisk(src, d, e);
    case Rename(_) => CommitKeepsDisk(src, d, e);
    case PoolLoop(_) =>
    case Finish(_) =>
    case GiveUp(_) =>
    case Crash =>
  }

  lemma PrepareKeepsDisk(src: Source, d: Download, made: bool)
    requires DiskOk(d) && Step(src, d, Prepare(made)).Some?
    ensures DiskOk(Step(src, d, Prepare(made)).value)
  {
    AddDir(d.disk, d.site.home, d.site.tmp, ODir);
    HomeIsNotBelow(d.site, d.site.home);
    forall q | d.site.Scratch() <= q ensures q !in d.disk { if q in d.disk { BelowIsIn(d.disk, d.site.Scratch(), q); } }
  }

  lemma CollectKeepsDisk(src: Source, d: Download, e: Event)
    requires DiskOk(d) && Step(src, d, e).Some? && (e.Fetch? || e.Collect?)
    ensures DiskOk(Step(src, d, e).value)
  {
    FailKeepsDisk(d, d.disk);
    assert d.touched + (d.disk.Keys - d.disk.Keys) == d.touched;
  }

  // ----------------------------------------------------------------- the run itself

  lemma ExtractKeeps(src: Source, d: Download, j: nat)
    requires Inv(src, d) && Step(src, d, ExtractNext(j)).Some?
    ensures Inv(src, Step(src, d, ExtractNext(j)).value)
  {
    var d', streams := Step(src, d, ExtractNext(j)).value, Streams(src, d.parts);
    assert (d.sched + [j])[..|d.sched|] == d.sched;
    forall i | 0 <= i < |d.parts| ensures SlotOk(src, d', i) { assert SlotOk(src, d, i); }
    if d.pool.firstErr.None? {
      MergeSnoc(streams, d.sched, j);
      hide Extract, Touched;
      var ts := Merge(streams, d'.sched);
      assert ts[..|ts| - 1] == Merge(streams, d.sched);
    }
  }

  /** Slots and pool invariant survive a pool move that keeps the schedule. */
  lemma PoolMoveKeeps(src: Source, d: Download, m: Move, disk: FileSystem, touched: set<Path>)
    requires Inv(src, d) && d.phase.Extracting? && Next(d.pool, m).Some?
    requires m.Win? ==>
      m.j < |d.parts| && Verified(src, d.parts[m.j])
      && Count(d.sched, m.j) == |StreamOf(src, d.parts[m.j])|
    requires disk == d.disk || m.Lose?
    ensures Inv(src, d.(pool := Next(d.pool, m).value, disk := disk, touched := touched))
  {
    NextKeepsInv(d.pool, m);
    var d' := d.(pool := Next(d.pool, m).value, disk := disk, touched := touched);
    forall j | 0 <= j < |d'.parts| ensures SlotOk(src, d', j) { assert SlotOk(src, d, j); }
  }

  lemma FetchKeeps(src: Source, d: Download, got: bool)
    requires Inv(src, d) && DiskOk(d) && Step(src, d, Fetch(got)).Some?
    ensures Inv(src, Step(src, d, Fetch(got)).value)
  {
    var d' := Step(src, d, Fetch(got)).value;
    NewPoolInv(|d'.parts|, d.parallel);
    if d'.phase.Extracting? {
      assert Merge(Streams(src, d'.parts), []) == [];
    }
  }

  lemma CollectKeeps(src: Source, d: Download, e: Event)
    requires Inv(src, d) && Step(src, d, e).Some? && (e.Prepare? || e.Collect? || e.Crash?)
    ensures Inv(src, Step(src, d, e).value)
  {
    var d' := Step(src, d, e).value;
    forall j | 0 <= j < |d'.parts| ensures SlotOk(src, d', j) { assert SlotOk(src, d, j); }
  }

  /** Slots, pool and schedule do not depend on the disk. */
  lemma SlotsKeep(src: Source, d: Download, d': Download)
    requires Inv(src, d) && d'.pool == d.pool && d'.parts == d.parts && d'.sched == d.sched
    ensures forall j :: 0 <= j < |d'.parts| ==> SlotOk(src, d', j)
  {
    forall j | 0 <= j < |d'.parts| ensures SlotOk(src, d', j) { assert SlotOk(src, d, j); }
  }

  lemma ClearEffect(src: Source, d: Download, e: Event)
    requires Step(src, d, e).Some? && e.Clear?
    ensures var d' := Step(src, d, e).value;
      && d.phase.Clearing? && d' == d.(phase := d'.phase, disk := d'.disk, touched := d'.touched)
      && (d'.phase == Returned(false) ||
          (d'.phase.Renaming? && (d'.disk == d.disk || d'.disk == Without(d.disk, d.site.Dst()))))
  {
    hide Exists, Without, Pruned;
  }

  lemma RenameEffect(src: Source, d: Download, e: Event)
    requires Step(src, d, e).Some? && e.Rename?
    ensures var d' := Step(src, d, e).value;
      && d.phase.Renaming? && d' == d.(phase := d'.phase, disk := d'.disk, touched := d'.touched)
      && (d'.phase == Returned(false) ||
          (d'.phase == Returned(true) && d'.disk == Renamed(d.disk, d.site.Scratch(), d.site.Dst())))
  {
    hide Without, Renamed;
  }

  lemma ClearKeeps(src: Source, d: Download, e: Event)
    requires Inv(src, d) && DiskOk(d) && Step(src, d, e).Some? && e.Clear?
    ensures Inv(src, Step(src, d, e).value)
  {
    var d' := Step(src, d, e).value;
    ClearEffect(src, d, e);
    SlotsKeep(src, d, d');
    if d'.phase.Renaming? {
      ClearedIsCarried(src, d, d'.disk);
      CarriedWhatever(src, d.(disk := d'.disk), d', d.site.Scratch());
    }
    hide Step, Carried, Extracted, Without, SlotOk, DiskOk, WorkerPool.Inv, Ended;
  }

  lemma RenameKeeps(src: Source, d: Download, e: Event)
    requires Inv(src, d) && DiskOk(d) && Step(src, d, e).Some? && e.Rename?
    ensures Inv(src, Step(src, d, e).value)
  {
    var d' := Step(src, d, e).value;
    RenameEffect(src, d, e);
    SlotsKeep(src, d, d');
    if d'.phase == Returned(true) {
      RenamedIsCarried(src, d);
      CarriedWhatever(src, d.(disk := d'.disk), d', d.site.Dst());
    }
    hide Step, Carried, Extracted, Renamed, SlotOk, DiskOk, WorkerPool.Inv, Ended;
  }

  /** What is carried does not depend on the phase or on the places touched. */
  lemma CarriedWhatever(src: Source, d: Download, d': Download, at: Path)
    requires Carried(src, d, at) && d' == d.(phase := d'.phase, touched := d'.touched)
    ensures Carried(src, d', at)
  {
    hide UnpackedFrom, Sub, Fits, SameBeside;
  }

  lemma CarriedByDisk(src: Source, d: Download, disk: FileSystem, from: Path, at: Path)
    requires Fits(Streams(src, d.parts), d.sched) && Unpacked(src, d).Some?
    requires Sub(d.disk, from) == Sub(Unpacked(src, d).value, d.site.Scratch())
        && SameBeside(d.site, d.disk, Unpacked(src, d).value)
    requires Sub(disk, at) == Sub(d.disk, from) && SameBeside(d.site, disk, d.disk)
    ensures Carried(src, d.(disk := disk), at)
  {
    hide UnpackedFrom, Sub, Fits;
  }

  lemma ClearedIsCarried(src: Source, d: Download, disk: FileSystem)
    requires Extracted(src, d) && (disk == d.disk || disk == Without(d.disk, d.site.Dst())) && d.site.name != d.site.tmp
    ensures Carried(src, d.(disk := disk), d.site.Scratch())
  {
    ClearedScratch(d.site, d.disk, disk);
    CarriedByDisk(src, d, disk, d.site.Scratch(), d.site.Scratch());
  }

  lemma ClearedScratch(site: Site, before: FileSystem, after: FileSystem)
    requires (after == before || after == Without(before, site.Dst())) && site.name != site.tmp
    ensures Sub(after, site.Scratch()) == Sub(before, site.Scratch()) && SameBeside(site, after, before)
  {
    var root := site.Scratch();
    forall p ensures p in Sub(after, root) <==> p in Sub(before, root)
      ensures p in Sub(after, root) ==> Sub(after, root)[p] == Sub(before, root)[p]
    {
      SubHas(after, root, p);
      SubHas(before, root, p);
      SiblingsApart(site, root + p);
    }
  }

  lemma RenamedIsCarried(src: Source, d: Download)
    requires Carried(src, d, d.site.Scratch())
    ensures Carried(src, d.(disk := Renamed(d.disk, d.site.Scratch(), d.site.Dst())), d.site.Dst())
  {
    RenamedScratch(d.site, d.disk);
    CarriedByDisk(src, d, Renamed(d.disk, d.site.Scratch(), d.site.Dst()), d.site.Scratch(), d.site.Dst());
  }

  lemma RenamedScratch(site: Site, before: FileSystem)
    ensures var after := Renamed(before, site.Scratch(), site.Dst());
      Sub(after, site.Dst()) == Sub(before, site.Scratch()) && SameBeside(site, after, before)
  {
    SubOfGraft(Without(before, site.Scratch()), site.Dst(), Sub(before, site.Scratch()));
    hide Sub, Graft;
  }

  lemma StepKeepsInv(src: Source, d: Download, e: Event)
    requires Inv(src, d) && DiskOk(d) && Step(src, d, e).Some?
    ensures Inv(src, Step(src, d, e).value) && DiskOk(Step(src, d, e).value)
  {
    StepKeepsDisk(src, d, e);
    match e
    case ExtractNext(j) => ExtractKeeps(src, d, j);
    case PoolLoop(m) => PoolMoveKeeps(src, d, m, d.disk, d.touched);
    case Finish(j) => PoolMoveKeeps(src, d, Win(j), d.disk, d.touched);
    case GiveUp(j) => PoolMoveKeeps(src, d, Lose(j), d.disk, d.touched);
    case Break(j, left) => PoolMoveKeeps(src, d, Lose(j), left, Step(src, d, e).value.touched);
    case Fetch(got) => FetchKeeps(src, d, got);
    case Prepare(_) => CollectKeeps(src, d, e);
    case Collect => CollectKeeps(src, d, e);
    case Crash => CollectKeeps(src, d, e);
    case Clear(_, _) => ClearKeeps(src, d, e);
    case Rename(_) => RenameKeeps(src, d, e);
  }

  /** The first state of a run: a valid site without a scratch directory. */
  ghost predicate Starts(d: Download) {
    d == Begin(d.site, d.force, d.parallel, d.start) && ValidSite(d.site, d.start) && d.site.Scratch() !in d.start
  }

  lemma {:induction false} Reaches(src: Source, states: seq<Download>, events: seq<Event>, k: nat)
    requires History(src, states, events) && k <= |events| && Starts(states[0])
    ensures Inv(src, states[k]) && DiskOk(states[k])
    ensures states[k].site == states[0].site && states[k].start == states[0].start && states[k].force == states[0].force
  {
    if k == 0 {
      NewPoolInv(0, states[0].parallel);
    } else {
      Reaches(src, states, events, k - 1);
      assert Happened(src, states, events, k - 1);
      hide Step, Inv, DiskOk;
      StepKeepsInv(src, states[k - 1], events[k - 1]);
      StepKeepsDisk(src, states[k - 1], events[k - 1]);
    }
  }

  // ------------------------------------------------------------ main theorems

  ghost predicate BeforeCommit(events: seq<Event>, k: nat)
    requires k <= |events|
  {
    forall i :: 0 <= i < k ==> !events[i].Clear?
  }

  /**
   Download correctness.  When the run returns nil, the destination is what an
   interleaving of its parts' entries made in the scratch directory, and the rest of the
   disk is as that interleaving left it.  Every part was won by a worker exactly when the
   loop was not cut short, which only the caller's cancellation can do; then every part is
   complete and its whole object matches the manifest's digest.
   */
  lemma SuccessfulDownload(src: Source, states: seq<Download>, events: seq<Event>, k: nat)
    requires History(src, states, events) && k <= |events| && states[k].phase == Returned(true) && Starts(states[0])
    ensures var d, streams := states[k], Streams(src, states[k].parts);
      && src.manifest.Some? && d.parts == src.manifest.value.parts && d.site == states[0].site
          && d.start == states[0].start
      && Carried(src, d, d.site.Dst()) && (forall q | d.site.Scratch() <= q :: q !in d.disk)
      && (!d.pool.broke ==> Complete(streams, d.sched) && forall j :: 0 <= j < |d.parts| ==> Verified(src, d.parts[j]))
      && (!d.pool.broke ==> forall p | p in d.parts ::
            && p.name in src.objects && src.hash(src.objects[p.name]) == p.sha256
            && src.decode(src.objects[p.name]).clean)
      && (!d.pool.broke <==> |d.pool.slots| == |d.parts| && forall j :: 0 <= j < |d.parts| ==> d.pool.slots[j].Won?)
      && (d.pool.broke ==> d.pool.parentGone)
  {
    Reaches(src, states, events, k);
    NilMeansAllWon(states[k].pool);
    if !states[k].pool.broke { WonIsVerified(src, states[k]); }
  }

  lemma WonIsVerified(src: Source, d: Download)
    requires Inv(src, d) && Fits(Streams(src, d.parts), d.sched)
    requires forall j :: 0 <= j < |d.pool.slots| ==> d.pool.slots[j].Won?
    ensures Complete(Streams(src, d.parts), d.sched)
    ensures forall j :: 0 <= j < |d.parts| ==> Verified(src, d.parts[j])
  {
    forall j | 0 <= j < |d.parts|
      ensures Verified(src, d.parts[j]) && Count(d.sched, j) == |Streams(src, d.parts)[j]|
    {
      assert SlotOk(src, d, j);
    }
  }
}
