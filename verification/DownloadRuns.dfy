/**
 Every complete interleaving of a snapshot's parts is the schedule of some successful
 download, so the theorems about download runs range over all of them.
 */
module DownloadRuns {
  import opened Basics
  import opened Paths
  import opened Disks
  import opened Extraction
  import opened AtomicTargets
  import opened Schedules
  import opened WorkerPool
  import opened Manifests
  import opened DownloadProtocol

  /** The first k slots in one state, the others in another. */
  function SplitSlots(n: nat, k: nat, before: Slot, after: Slot): seq<Slot> {
    seq(n, i => if i < k then before else after)
  }

  /** n workers wanted, k of them started. */
  function Started(n: nat, k: nat): Pool {
    Pool(n, SplitSlots(n, k, Busy, Idle), k, false, false, None, false, false)
  }

  /** All n started, the first k of them done. */
  function Done(n: nat, k: nat): Pool {
    Pool(n, SplitSlots(n, k, Won, Busy), n, false, false, None, false, false)
  }

  lemma {:induction false} FirstBusy(n: nat, k: nat)
    requires k <= n
    ensures BusyCount(SplitSlots(n, k, Busy, Idle)) == k
  {
    if k == 0 {
      NoneBusy(SplitSlots(n, k, Busy, Idle));
    } else {
      FirstBusy(n, k - 1);
      BusyCountUpdate(SplitSlots(n, k - 1, Busy, Idle), k - 1, Busy);
      assert SplitSlots(n, k - 1, Busy, Idle)[k - 1 := Busy] == SplitSlots(n, k, Busy, Idle);
    }
  }

  lemma Extend(src: Source, states: seq<Download>, events: seq<Event>, e: Event)
    returns (states': seq<Download>, events': seq<Event>)
    requires History(src, states, events) && Step(src, states[|events|], e).Some?
    ensures History(src, states', events') && states'[0] == states[0] && events' == events + [e]
    ensures Step(src, states[|events|], e) == Some(states'[|events'|])
  {
    hide Step;
    states', events' := states + [Step(src, states[|events|], e).value], events + [e];
    forall i | 0 <= i < |events'| ensures Happened(src, states', events', i) {
      if i < |events| { assert Happened(src, states, events, i); }
    }
  }

  lemma {:induction false} LaunchAll(src: Source, states: seq<Download>, events: seq<Event>, n: nat, k: nat)
    returns (states': seq<Download>, events': seq<Event>)
    requires History(src, states, events) && k <= n
    requires states[|events|].phase.Extracting? && states[|events|].pool == Started(n, k)
    ensures History(src, states', events') && states'[0] == states[0]
    ensures states'[|events'|] == states[|events|].(pool := Done(n, 0))
    decreases n - k
  {
    states', events' := states, events;
    if k < n {
      FirstBusy(n, k);
      states', events' := Extend(src, states', events', PoolLoop(Check));
      states', events' := Extend(src, states', events', PoolLoop(WorkerPool.Launch));
      assert SplitSlots(n, k, Busy, Idle)[k := Busy] == SplitSlots(n, k + 1, Busy, Idle);
      states', events' := LaunchAll(src, states', events', n, k + 1);
    } else {
      assert SplitSlots(n, n, Busy, Idle) == SplitSlots(n, 0, Won, Busy);
    }
  }

  /** Every worker is extracting, and the first a steps of the schedule have been taken. */
  ghost predicate Along(src: Source, d: Download, sched: Schedule, a: nat) {
    && a <= |sched| && d.phase.Extracting? && d.pool == Done(|d.parts|, 0) && d.sched == sched[..a]
    && Fits(Streams(src, d.parts), sched) && Fits(Streams(src, d.parts), sched[..a])
    && UnpackedFrom(src, d.site, d.start, d.parts, sched).Some?
    && UnpackedFrom(src, d.site, d.start, d.parts, sched[..a]) == Some(d.disk)
  }

  lemma ExtractStep(src: Source, d: Download, j: nat)
    requires HasNext(src, d, j) && Extract(d.disk, d.site.Scratch(), NextEntry(src, d, j)).Some?
    ensures Step(src, d, ExtractNext(j)) ==
      Some(d.(disk := Extract(d.disk, d.site.Scratch(), NextEntry(src, d, j)).value, sched := d.sched + [j],
              touched := d.touched + Touched(d.disk, d.site.Scratch(), NextEntry(src, d, j))))
  {
    hide Extract, Touched, HasNext, NextEntry;
  }

  lemma NextAlong(src: Source, d: Download, sched: Schedule, a: nat)
    requires Along(src, d, sched, a) && a < |sched|
    ensures Step(src, d, ExtractNext(sched[a])).Some?
    ensures var d' := Step(src, d, ExtractNext(sched[a])).value;
      Along(src, d', sched, a + 1) && d' == d.(sched := d'.sched, disk := d'.disk, touched := d'.touched)
  {
    hide ExtractAll, Merge, Extract, Touched, Count, Step, StreamOf, Fits;
    ScheduledStep(Fresh(d.site, d.start), d.site.Scratch(), Streams(src, d.parts), sched, a);
    ExtractStep(src, d, sched[a]);
  }

  lemma {:induction false} ExtractAlong(src: Source, states: seq<Download>, events: seq<Event>, sched: Schedule, a: nat)
    returns (states': seq<Download>, events': seq<Event>)
    requires History(src, states, events) && a <= |sched| && Along(src, states[|events|], sched, a)
    ensures History(src, states', events') && states'[0] == states[0]
    ensures Along(src, states'[|events'|], sched, |sched|)
    ensures var d' := states'[|events'|];
            d' == states[|events|].(sched := d'.sched, disk := d'.disk, touched := d'.touched)
    decreases |sched| - a
  {
    hide Along, Step;
    states', events' := states, events;
    if a == |sched| { return; }
    NextAlong(src, states[|events|], sched, a);
    states', events' := Extend(src, states', events', ExtractNext(sched[a]));
    states', events' := ExtractAlong(src, states', events', sched, a + 1);
  }

  lemma ExtractOneMore(fs: FileSystem, root: Path, ts: seq<TarEntry>)
    requires root != [] && ts != [] && ExtractAll(fs, root, ts).Some?
    ensures ExtractAll(fs, root, ts[..|ts| - 1]).Some?
    ensures ExtractAll(fs, root, ts) == Extract(ExtractAll(fs, root, ts[..|ts| - 1]).value, root, ts[|ts| - 1])
  {
  }

  /** Where a whole schedule extracts, each of its steps finds its entry and extracts it. */
  lemma ScheduledStep(fs: FileSystem, root: Path, streams: seq<seq<TarEntry>>, sched: Schedule, a: nat)
    requires root != [] && a < |sched| && Fits(streams, sched) && ExtractAll(fs, root, Merge(streams, sched)).Some?
    ensures sched[..a + 1] == sched[..a] + [sched[a]]
    ensures Fits(streams, sched[..a]) && Fits(streams, sched[..a + 1])
    ensures sched[a] < |streams| && Count(sched[..a], sched[a]) < |streams[sched[a]]|
    ensures var before := ExtractAll(fs, root, Merge(streams, sched[..a]));
      && before.Some?
      && Extract(before.value, root, streams[sched[a]][Count(sched[..a], sched[a])]).Some?
      && ExtractAll(fs, root, Merge(streams, sched[..a + 1]))
         == Extract(before.value, root, streams[sched[a]][Count(sched[..a], sched[a])])
  {
    MergePrefix(streams, sched, a);
    MergePrefix(streams, sched, a + 1);
    CountPrefix(sched, a, sched[a]);
    hide *;
    var all, upto := Merge(streams, sched), Merge(streams, sched[..a + 1]);
    assert upto[a] == Taken(streams, sched, a);
    if ExtractAll(fs, root, upto).None? { FailureSticks(fs, root, all, a + 1); }
    assert upto[..|upto| - 1] == Merge(streams, sched[..a]);
    ExtractOneMore(fs, root, upto);
  }

  lemma {:induction false} FinishAll(src: Source, states: seq<Download>, events: seq<Event>, k: nat)
    returns (states': seq<Download>, events': seq<Event>)
    requires History(src, states, events)
    requires var d := states[|events|];
      && d.phase.Extracting? && k <= |d.parts| && d.pool == Done(|d.parts|, k)
      && Complete(Streams(src, d.parts), d.sched) && forall p | p in d.parts :: Verified(src, p)
    ensures History(src, states', events') && states'[0] == states[0]
    ensures states'[|events'|] == states[|events|].(pool := Done(|states[|events|].parts|, |states[|events|].parts|))
    decreases |states[|events|].parts| - k
  {
    states', events' := states, events;
    var n := |states[|events|].parts|;
    if k < n {
      assert states[|events|].parts[k] in states[|events|].parts;
      states', events' := Extend(src, states', events', Finish(k));
      assert SplitSlots(n, k, Won, Busy)[k := Won] == SplitSlots(n, k + 1, Won, Busy);
      states', events' := FinishAll(src, states', events', k + 1);
    }
  }

  // ------------------------------------------- when a run can reach its commit

  /** What a caller can check beforehand: the destination is free or forced and the manifest is valid. */
  ghost predicate CanCommit(src: Source, site: Site, force: bool, start: FileSystem) {
    EmptyEnough(start, site.Dst(), force) && src.manifest.Some? && WellFormed(src.manifest.value)
  }

  /**
   Nothing is at the destination, or something that os.Stat finds: a link to nowhere can
   be neither cleared nor replaced.
   */
  ghost predicate Replaceable(fs: FileSystem, dst: Path) {
    dst in fs ==> Exists(fs, dst)
  }

  /** The destination accepted and the manifest read: the pool is about to start. */
  lemma OpenRun(src: Source, site: Site, force: bool, parallel: int, start: FileSystem)
    returns (states: seq<Download>, events: seq<Event>)
    requires CanCommit(src, site, force, start)
    ensures var parts := src.manifest.value.parts;
      && History(src, states, events) && states[0] == Begin(site, force, parallel, start)
      && states[|events|] == Download(site, force, parallel, Extracting, parts, NewPool(|parts|, parallel), [],
                                      start, Fresh(site, start), {})
  {
    states, events := [Begin(site, force, parallel, start)], [];
    states, events := Extend(src, states, events, Prepare(true));
    states, events := Extend(src, states, events, Fetch(true));
  }

  /** Intact parts, an interleaving that takes all their entries, and a disk on which it extracts. */
  ghost predicate Fetchable(src: Source, site: Site, start: FileSystem, sched: Schedule) {
    && src.manifest.Some?
    && var parts := src.manifest.value.parts;
    && (forall p | p in parts :: Verified(src, p))
    && Complete(Streams(src, parts), sched)
    && UnpackedFrom(src, site, start, parts, sched).Some?
  }

  ghost function FetchedDisk(src: Source, site: Site, start: FileSystem, sched: Schedule): FileSystem
    requires Fetchable(src, site, start, sched)
  {
    UnpackedFrom(src, site, start, src.manifest.value.parts, sched).value
  }

  /** Every part fetched, checked and extracted along the given interleaving. */
  lemma FetchAll(src: Source, site: Site, force: bool, start: FileSystem, sched: Schedule)
    returns (states: seq<Download>, events: seq<Event>)
    requires CanCommit(src, site, force, start) && Fetchable(src, site, start, sched)
    ensures var parts := src.manifest.value.parts;
      && History(src, states, events) && states[0] == Begin(site, force, |parts|, start)
      && states[|events|] == Download(site, force, |parts|, Extracting, parts, Done(|parts|, |parts|), sched,
                                      start, FetchedDisk(src, site, start, sched), states[|events|].touched)
  {
    var parts := src.manifest.value.parts;
    states, events := OpenRun(src, site, force, |parts|, start);
    assert seq(|parts|, _ => Idle) == SplitSlots(|parts|, 0, Busy, Idle);
    states, events := LaunchAll(src, states, events, |parts|, 0);
    FitsPrefix(Streams(src, parts), sched, 0);
    assert sched[..0] == [];
    assert Merge(Streams(src, parts), sched[..0]) == [];
    states, events := ExtractAlong(src, states, events, sched, 0);
    assert sched[..|sched|] == sched;
    states, events := FinishAll(src, states, events, 0);
  }

  ghost function Cleared(fs: FileSystem, dst: Path): FileSystem {
    if Exists(fs, dst) then Without(fs, dst) else fs
  }

  /** Commit: the destination is cleared, then the rename succeeds or fails. */
  lemma Promote(src: Source, states: seq<Download>, events: seq<Event>, renamed: bool)
    returns (states': seq<Download>, events': seq<Event>)
    requires History(src, states, events)
    requires var d := states[|events|];
      d.phase.Extracting? && Ended(d.pool) && d.pool.firstErr.None? && Replaceable(d.disk, d.site.Dst())
    ensures History(src, states', events') && states'[0] == states[0]
    ensures var d, d' := states[|events|], states'[|events'|];
      && d' == d.(phase := Returned(renamed), disk := d'.disk, touched := d'.touched)
      && d'.disk == (if renamed then Renamed(Cleared(d.disk, d.site.Dst()), d.site.Scratch(), d.site.Dst())
                     else Without(Cleared(d.disk, d.site.Dst()), d.site.Scratch()))
      && (Exists(d.disk, d.site.Dst()) && d.site.Dst() in d.disk ==> d.site.Dst() in d'.touched)
  {
    hide Exists, Renamed;
    states', events' := Extend(src, states, events, Collect);
    states', events' := Extend(src, states', events', Clear(true, {}));
    states', events' := Extend(src, states', events', Rename(renamed));
  }

  /** The download that extracts along the given interleaving and then promotes its scratch. */
  lemma EveryInterleavingHappens(src: Source, site: Site, force: bool, start: FileSystem, sched: Schedule)
    returns (states: seq<Download>, events: seq<Event>)
    requires CanCommit(src, site, force, start) && Fetchable(src, site, start, sched)
    requires Replaceable(FetchedDisk(src, site, start, sched), site.Dst())
    ensures History(src, states, events) && states[0] == Begin(site, force, |src.manifest.value.parts|, start)
    ensures var d := states[|events|];
      && d.phase == Returned(true) && !d.pool.parentGone && d.sched == sched
      && d.disk == Renamed(Cleared(FetchedDisk(src, site, start, sched), site.Dst()), site.Scratch(), site.Dst())
  {
    states, events := FetchAll(src, site, force, start, sched);
    states, events := Promote(src, states, events, true);
  }

  // ------------------------------------------------------------ losing the original

  /** Even with every part intact and no cancellation, a failed rename leaves no datadir at all. */
  lemma IntactDownloadCanLoseTheOriginal(src: Source, site: Site, force: bool, start: FileSystem, sched: Schedule)
    returns (states: seq<Download>, events: seq<Event>)
    requires ValidSite(site, start) && CanCommit(src, site, force, start) && Fetchable(src, site, start, sched)
    requires Replaceable(FetchedDisk(src, site, start, sched), site.Dst())
    ensures History(src, states, events) && states[0] == Begin(site, force, |src.manifest.value.parts|, start)
    ensures var d := states[|events|];
      && d.phase == Returned(false) && !d.pool.parentGone && site.Dst() !in d.disk && site.Scratch() !in d.disk
  {
    states, events := FetchAll(src, site, force, start, sched);
    states, events := Promote(src, states, events, false);
  }

  /** A run cancelled before its first launch has nothing to wait for and goes on to commit. */
  lemma CutShortRun(src: Source, site: Site, force: bool, parallel: int, start: FileSystem, renamed: bool)
    returns (states: seq<Download>, events: seq<Event>)
    requires CanCommit(src, site, force, start) && Replaceable(Fresh(site, start), site.Dst())
    ensures History(src, states, events) && states[0] == Begin(site, force, parallel, start)
    ensures var d := states[|events|];
      && d.phase == Returned(renamed) && d.parts == src.manifest.value.parts && d.sched == [] && NoneWon(d)
      && d.disk == (if renamed then Renamed(Cleared(Fresh(site, start), site.Dst()), site.Scratch(), site.Dst())
                    else Without(Cleared(Fresh(site, start), site.Dst()), site.Scratch()))
      && (Exists(Fresh(site, start), site.Dst()) && site.Dst() in Fresh(site, start) ==> site.Dst() in d.touched)
  {
    states, events := OpenRun(src, site, force, parallel, start);
    states, events := Extend(src, states, events, PoolLoop(CancelParent));
    states, events := Extend(src, states, events, PoolLoop(Check));
    states, events := Promote(src, states, events, renamed);
  }

  ghost predicate NoneWon(d: Download) {
    forall j :: 0 <= j < |d.pool.slots| ==> !d.pool.slots[j].Won?
  }
}
