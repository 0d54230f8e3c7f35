/**
 What a download may touch.  Extraction is confined to the scratch directory exactly when
 every entry that a run comes to resolves there, which tar streams without a link on the
 way guarantee.
 */
module DownloadSafety {
  import opened Basics
  import opened Paths
  import opened FileTrees
  import opened Disks
  import opened Extraction
  import opened PlainExtraction
  import opened Containment
  import opened Schedules
  import opened Manifests
  import opened AtomicTargets
  import WorkerPool
  import opened DownloadProtocol
  import opened DownloadRuns

  /** The first k steps of a run on this disk. */
  ghost predicate Runs(src: Source, site: Site, force: bool, start: FileSystem,
                       states: seq<Download>, events: seq<Event>, k: nat) {
    && History(src, states, events) && k <= |events|
    && states[0] == Begin(site, force, states[0].parallel, start)
  }

  ghost predicate GoodSite(site: Site, start: FileSystem) {
    ValidSite(site, start) && site.Scratch() !in start
  }

  /** The guard of one entry: nothing is made for a name that safeExtract refuses. */
  predicate EntryGuarded(fs: FileSystem, root: Path, t: TarEntry)
    requires root != []
  {
    SafePath(t.name).Some? ==> Guarded(fs, root, root + SafePath(t.name).value, t.obj)
  }

  lemma EntryGuardedIff(fs: FileSystem, root: Path, t: TarEntry)
    requires Rooted(fs, root)
    ensures EntryGuarded(fs, root, t) <==> StaysIn(root, Touched(fs, root, t))
  {
    if SafePath(t.name).Some? {
      SafePathStaysInside(t.name);
      var p := SafePath(t.name).value;
      NamesOf(root, p);
      EntryStaysIff(fs, root, root + p, t.obj);
    }
  }

  /** The entries that the workers come to next all resolve inside the scratch directory. */
  ghost predicate AllGuarded(src: Source, d: Download) {
    forall j: nat :: HasNext(src, d, j) ==> EntryGuarded(d.disk, d.site.Scratch(), NextEntry(src, d, j))
  }

  /** Every entry that any run comes to passes the guard on the disk it finds. */
  ghost predicate AttemptsStay(src: Source, site: Site, force: bool, start: FileSystem) {
    forall states: seq<Download>, events: seq<Event>, k: nat :: Runs(src, site, force, start, states, events, k) ==>
      AllGuarded(src, states[k])
  }

  // ------------------------------------------------------------------ before Commit

  predicate Early(phase: Phase) {
    phase.Preparing? || phase.Fetching? || phase.Extracting? || phase.Clearing?
  }

  lemma EarlyBefore(src: Source, d: Download, e: Event)
    requires Step(src, d, e).Some? && Early(Step(src, d, e).value.phase)
    ensures Early(d.phase) && !e.Clear?
  {
    hide Extract, Touched, EmptyEnough, WellFormed;
  }

  lemma {:induction false} ExtractingIsBeforeCommit(src: Source, states: seq<Download>, events: seq<Event>, k: nat)
    requires History(src, states, events) && k <= |events| && Early(states[k].phase)
    ensures BeforeCommit(events, k)
  {
    if k > 0 {
      assert Happened(src, states, events, k - 1);
      hide Step, Early;
      EarlyBefore(src, states[k - 1], events[k - 1]);
      ExtractingIsBeforeCommit(src, states, events, k - 1);
    }
  }

  lemma {:induction false} StaysBeforeCommit(src: Source, site: Site, force: bool, start: FileSystem,
                                             states: seq<Download>, events: seq<Event>, k: nat)
    requires GoodSite(site, start) && AttemptsStay(src, site, force, start)
    requires Runs(src, site, force, start, states, events, k) && BeforeCommit(events, k)
    ensures StaysIn(site.Scratch(), states[k].touched)
    ensures !states[k].phase.Renaming? && states[k].phase != Returned(true)
  {
    if k > 0 {
      assert Runs(src, site, force, start, states, events, k - 1);
      assert Happened(src, states, events, k - 1);
      Reaches(src, states, events, k - 1);
      GuardedAt(src, site, force, start, states, events, k - 1);
      hide AttemptsStay, AllGuarded, Step, DownloadProtocol.Inv, DiskOk;
      StaysBeforeCommit(src, site, force, start, states, events, k - 1);
      StepStays(src, states[k - 1], events[k - 1]);
    }
  }

  lemma GuardedAt(src: Source, site: Site, force: bool, start: FileSystem,
                  states: seq<Download>, events: seq<Event>, k: nat)
    requires AttemptsStay(src, site, force, start) && Runs(src, site, force, start, states, events, k)
    ensures AllGuarded(src, states[k])
  {
  }

  /** Only extraction touches anything before Commit. */
  lemma StepStays(src: Source, d: Download, e: Event)
    requires DiskOk(d) && Step(src, d, e).Some? && !e.Clear? && !d.phase.Renaming? && d.phase != Returned(true)
    requires AllGuarded(src, d) && StaysIn(d.site.Scratch(), d.touched)
    ensures StaysIn(d.site.Scratch(), Step(src, d, e).value.touched)
    ensures !Step(src, d, e).value.phase.Renaming? && Step(src, d, e).value.phase != Returned(true)
  {
    if e.ExtractNext? || e.Break? {
      ScratchRooted(d);
      EntryGuardedIff(d.disk, d.site.Scratch(), NextEntry(src, d, e.j));
    }
    hide EntryGuarded, Touched, Extract;
  }

  /** An attempt, carried out or broken off, that touches what the entry touches. */
  lemma AttemptHappens(src: Source, d: Download, j: nat) returns (e: Event)
    requires DiskOk(d) && HasNext(src, d, j)
    ensures Step(src, d, e).Some? && (e.ExtractNext? || e.Break?)
    ensures Touched(d.disk, d.site.Scratch(), NextEntry(src, d, j)) <= Step(src, d, e).value.touched
  {
    var t, root := NextEntry(src, d, j), d.site.Scratch();
    ScratchRooted(d);
    if Extract(d.disk, root, t).Some? {
      e := ExtractNext(j);
    } else if SafePath(t.name).None? {
      e := Break(j, d.disk);
    } else {
      SafePathStaysInside(t.name);
      var p := SafePath(t.name).value;
      NamesOf(root, p);
      MakeFrame(d.disk, root + p, t.obj);
      e := Break(j, Make(d.disk, root + p, t.obj).fs);
    }
  }

  /**
   Confinement, exactly: up to Commit no run, whatever fails in it, makes, writes or
   removes anything outside the scratch directory, if and only if every entry that a run
   comes to resolves inside it.
   */
  lemma OutsideIsSafeIff(src: Source, site: Site, force: bool, start: FileSystem)
    requires GoodSite(site, start)
    ensures (forall states: seq<Download>, events: seq<Event>, k: nat ::
               Runs(src, site, force, start, states, events, k) && BeforeCommit(events, k) ==>
                 StaysIn(site.Scratch(), states[k].touched))
            <==> AttemptsStay(src, site, force, start)
  {
    if AttemptsStay(src, site, force, start) {
      forall states: seq<Download>, events: seq<Event>, k: nat | Runs(src, site, force, start, states, events,
          k) && BeforeCommit(events, k)
        ensures StaysIn(site.Scratch(), states[k].touched)
      {
        StaysBeforeCommit(src, site, force, start, states, events, k);
      }
    } else {
      var states, events := StrayRun(src, site, force, start);
      assert Runs(src, site, force, start, states, events, |events|) && BeforeCommit(events, |events|);
    }
  }

  /** A run up to and including an attempt that goes astray. */
  lemma StrayRun(src: Source, site: Site, force: bool, start: FileSystem)
    returns (states: seq<Download>, events: seq<Event>)
    requires GoodSite(site, start) && !AttemptsStay(src, site, force, start)
    ensures Runs(src, site, force, start, states, events, |events|) && BeforeCommit(events, |events|)
    ensures states[|events|].phase.Extracting? && !StaysIn(site.Scratch(), states[|events|].touched)
  {
    var all: seq<Download>, evs: seq<Event>, k: nat :|
      Runs(src, site, force, start, all, evs, k) && !AllGuarded(src, all[k]);
    var j: nat :| HasNext(src, all[k], j)
        && !EntryGuarded(all[k].disk, all[k].site.Scratch(), NextEntry(src, all[k], j));
    Reaches(src, all, evs, k);
    ExtractingIsBeforeCommit(src, all, evs, k);
    assert BeforeCommit(evs[..k], k);
    Truncated(src, all, evs, k);
    var until, evs' := all[..k + 1], evs[..k];
    assert until[|evs'|] == all[k] && until[0] == all[0];
    hide *;
    states, events := StrayFrom(src, until, evs', j);
  }

  lemma StrayFrom(src: Source, all: seq<Download>, evs: seq<Event>, j: nat)
    returns (states: seq<Download>, events: seq<Event>)
    requires History(src, all, evs) && DiskOk(all[|evs|]) && HasNext(src, all[|evs|], j) && BeforeCommit(evs, |evs|)
    requires !EntryGuarded(all[|evs|].disk, all[|evs|].site.Scratch(), NextEntry(src, all[|evs|], j))
    ensures History(src, states, events) && states[0] == all[0] && BeforeCommit(events, |events|)
    ensures states[|events|].phase.Extracting? && !StaysIn(all[|evs|].site.Scratch(), states[|events|].touched)
  {
    var d := all[|evs|];
    ScratchRooted(d);
    EntryGuardedIff(d.disk, d.site.Scratch(), NextEntry(src, d, j));
    var e := AttemptHappens(src, d, j);
    StrayTouches(src, d, j, e);
    hide Step, Touched, EntryGuarded, History;
    states, events := Extend(src, all, evs, e);
  }

  lemma StrayTouches(src: Source, d: Download, j: nat, e: Event)
    requires HasNext(src, d, j) && Step(src, d, e).Some? && (e.ExtractNext? || e.Break?)
    requires !StaysIn(d.site.Scratch(), Touched(d.disk, d.site.Scratch(), NextEntry(src, d, j)))
    requires Touched(d.disk, d.site.Scratch(), NextEntry(src, d, j)) <= Step(src, d, e).value.touched
    ensures Step(src, d, e).value.phase.Extracting? && !StaysIn(d.site.Scratch(), Step(src, d, e).value.touched)
  {
    hide Touched, Extract;
  }

  lemma Truncated(src: Source, states: seq<Download>, events: seq<Event>, k: nat)
    requires History(src, states, events) && k <= |events|
    ensures History(src, states[..k + 1], events[..k])
  {
    var states', events' := states[..k + 1], events[..k];
    forall i | 0 <= i < |events'| ensures Happened(src, states', events', i) {
      assert Happened(src, states, events, i);
    }
  }

  /**
   Download atomicity.  Where every entry stays, in every state of every run up to Commit
   the whole disk outside the scratch directory is as it was, and a run that has returned
   has returned an error and removed its scratch.
   */
  lemma FailedDownloadChangesNothing(src: Source, site: Site, force: bool, start: FileSystem,
                                     states: seq<Download>, events: seq<Event>, k: nat)
    requires GoodSite(site, start) && AttemptsStay(src, site, force, start)
    requires Runs(src, site, force, start, states, events, k) && BeforeCommit(events, k)
    ensures SameOutside(start, states[k].disk, site.Scratch())
    ensures states[k].phase.Returned? ==> states[k].phase == Returned(false) && states[k].disk == start
  {
    Reaches(src, states, events, k);
    StaysBeforeCommit(src, site, force, start, states, events, k);
    if states[k].phase.Returned? {
      forall q ensures site.Scratch() <= q ==> q !in start {
        if site.Scratch() <= q && q in start { BelowIsIn(start, site.Scratch(), q); }
      }
    }
  }

  // ------------------------------------------------------- streams without crossings

  /** No link of the snapshot's streams is on the way of any of their entries. */
  ghost predicate PlainSource(src: Source) {
    src.manifest.Some? ==> NoLinkOnTheWay(Streams(src, src.manifest.value.parts))
  }

  ghost predicate LinksInOrder(src: Source, d: Download) {
    && (d.phase.Fetching? || d.phase.Extracting? ==>
          src.manifest.Some? ==> LinksAmong(d.disk, d.site.Scratch(), Streams(src, src.manifest.value.parts)))
  }

  lemma {:induction false} LinksStayInOrder(src: Source, states: seq<Download>, events: seq<Event>, k: nat)
    requires History(src, states, events) && k <= |events| && Starts(states[0]) && PlainSource(src)
    ensures LinksInOrder(src, states[k])
  {
    if k == 0 {
      assert LinksInOrder(src, states[0]);
    } else {
      LinksStayInOrder(src, states, events, k - 1);
      Reaches(src, states, events, k - 1);
      assert Happened(src, states, events, k - 1);
      hide Step, LinksInOrder, DownloadProtocol.Inv, DiskOk;
      LinksStep(src, states[k - 1], events[k - 1]);
    }
  }

  lemma LinksStep(src: Source, d: Download, e: Event)
    requires Inv(src, d) && DiskOk(d) && Step(src, d, e).Some? && PlainSource(src) && LinksInOrder(src, d)
    ensures LinksInOrder(src, Step(src, d, e).value)
  {
    if e.Prepare? && Step(src, d, e).value.phase.Fetching? {
      FreshIsEmpty(d.site, d.start);
      if src.manifest.Some? {
        EmptyHasNoLink(Fresh(d.site, d.start), d.site.Scratch(), Streams(src, src.manifest.value.parts));
      }
    } else if e.ExtractNext? || e.Break? {
      ScratchRooted(d);
      AttemptKeepsLinks(src, d, e);
    }
    hide LinksAmong, Touched, Extract;
  }

  lemma EmptyHasNoLink(fs: FileSystem, root: Path, streams: seq<seq<TarEntry>>)
    requires Sub(fs, root) == EMPTY_DIR
    ensures LinksAmong(fs, root, streams)
  {
  }

  lemma FreshIsEmpty(site: Site, start: FileSystem)
    requires GoodSite(site, start)
    ensures Rooted(Fresh(site, start), site.Scratch()) && Sub(Fresh(site, start), site.Scratch()) == EMPTY_DIR
    ensures SameOutside(start, Fresh(site, start), site.Scratch())
  {
    var root, fs := site.Scratch(), Fresh(site, start);
    AddDir(start, site.home, site.tmp, ODir);
    forall p ensures p in Sub(fs, root) <==> p == [] {
      SubHas(fs, root, p);
      assert root + [] == root;
      if p != [] && root + p in fs { BelowIsIn(start, root, root + p); }
    }
    SubHas(fs, root, []);
  }

  lemma AttemptKeepsLinks(src: Source, d: Download, e: Event)
    requires Inv(src, d) && DiskOk(d) && Step(src, d, e).Some? && PlainSource(src) && LinksInOrder(src, d)
    requires (e.ExtractNext? || e.Break?) && Rooted(d.disk, d.site.Scratch())
    ensures LinksInOrder(src, Step(src, d, e).value)
    ensures StaysIn(d.site.Scratch(), Touched(d.disk, d.site.Scratch(), NextEntry(src, d, e.j)))
  {
    var streams, t := Streams(src, d.parts), NextEntry(src, d, e.j);
    assert streams[e.j][Count(d.sched, e.j)] == t;
    assert Among(streams, t);
    EntryIsPlain(d.disk, d.site.Scratch(), streams, t);
    if e.Break? { PartialKeepsLinks(d.disk, e.left, d.site.Scratch(), streams, Touched(d.disk, d.site.Scratch(), t)); }
    hide LinksAmong, Touched, Extract, PlainExtract;
  }

  /** The condition on the streams alone: with no link on the way, every entry stays, on every disk. */
  lemma PlainSourceStays(src: Source, site: Site, force: bool, start: FileSystem)
    requires GoodSite(site, start) && PlainSource(src)
    ensures AttemptsStay(src, site, force, start)
  {
    forall states: seq<Download>, events: seq<Event>, k: nat | Runs(src, site, force, start, states, events, k)
      ensures AllGuarded(src, states[k])
    {
      Reaches(src, states, events, k);
      LinksStayInOrder(src, states, events, k);
      forall j: nat | HasNext(src, states[k], j)
        ensures EntryGuarded(states[k].disk, site.Scratch(), NextEntry(src, states[k], j))
      {
        NextIsGuarded(src, states[k], j);
      }
    }
  }

  lemma NextIsGuarded(src: Source, d: Download, j: nat)
    requires DownloadProtocol.Inv(src, d) && DiskOk(d) && PlainSource(src) && LinksInOrder(src, d) && HasNext(src, d, j)
    ensures EntryGuarded(d.disk, d.site.Scratch(), NextEntry(src, d, j))
  {
    ScratchRooted(d);
    var streams, t := Streams(src, d.parts), NextEntry(src, d, j);
    assert streams[j][Count(d.sched, j)] == t;
    assert Among(streams, t);
    EntryIsPlain(d.disk, d.site.Scratch(), streams, t);
    EntryGuardedIff(d.disk, d.site.Scratch(), t);
  }

  /**
   A successful download of such streams: the destination is exactly what plain extraction
   of an interleaving makes of an empty directory, and nothing else on the disk changed.
   */
  lemma PlainSuccess(src: Source, site: Site, force: bool, start: FileSystem,
                     states: seq<Download>, events: seq<Event>, k: nat)
    requires GoodSite(site, start) && PlainSource(src) && Runs(src, site, force, start, states, events, k)
    requires states[k].phase == Returned(true)
    ensures src.manifest.Some? && states[k].parts == src.manifest.value.parts
    ensures Fits(Streams(src, states[k].parts), states[k].sched)
    ensures var d, streams := states[k], Streams(src, states[k].parts);
      && Some(Sub(d.disk, site.Dst())) == PlainExtractAll(EMPTY_DIR, Merge(streams, d.sched))
      && SameBeside(site, d.disk, start) && forall q | site.Scratch() <= q :: q !in d.disk
  {
    SuccessfulDownload(src, states, events, k);
    var d := states[k];
    hide *;
    UnpackedPlainly(src, site, start, d.sched);
    CarriedPlainly(src, d);
  }

  lemma CarriedPlainly(src: Source, d: Download)
    requires Carried(src, d, d.site.Dst()) && Fits(Streams(src, d.parts), d.sched)
    requires var r, plain := UnpackedFrom(src, d.site, d.start, d.parts, d.sched),
                             PlainExtractAll(EMPTY_DIR, Merge(Streams(src, d.parts), d.sched));
      && (r.Some? <==> plain.Some?)
      && (r.Some? ==> Sub(r.value, d.site.Scratch()) == plain.value && SameOutside(d.start, r.value, d.site.Scratch()))
    ensures Some(Sub(d.disk, d.site.Dst())) == PlainExtractAll(EMPTY_DIR, Merge(Streams(src, d.parts), d.sched))
    ensures SameBeside(d.site, d.disk, d.start)
  {
    hide UnpackedFrom, Sub, PlainExtractAll;
  }

  /** On any disk, the streams of such a source unpack as they do plainly, beside everything else. */
  lemma UnpackedPlainly(src: Source, site: Site, start: FileSystem, sched: Schedule)
    requires GoodSite(site, start) && PlainSource(src) && src.manifest.Some?
    requires Fits(Streams(src, src.manifest.value.parts), sched)
    ensures var r, plain := UnpackedFrom(src, site, start, src.manifest.value.parts, sched),
                            PlainExtractAll(EMPTY_DIR, Merge(Streams(src, src.manifest.value.parts), sched));
      && (r.Some? <==> plain.Some?)
      && (r.Some? ==> Sub(r.value, site.Scratch()) == plain.value && SameOutside(start, r.value, site.Scratch()))
  {
    var streams, fs, root := Streams(src, src.manifest.value.parts), Fresh(site, start), site.Scratch();
    FreshIsEmpty(site, start);
    EmptyHasNoLink(fs, root, streams);
    forall t | t in Merge(streams, sched) ensures Among(streams, t) { TakenAmong(streams, sched, t); }
    SequenceIsPlain(fs, root, streams, Merge(streams, sched));
    var r := ExtractAll(fs, root, Merge(streams, sched));
    if r.Some? { OutsideTwice(start, fs, r.value, root); }
    hide ExtractAll, PlainExtractAll, Sub;
  }

  lemma TakenAmong(streams: seq<seq<TarEntry>>, sched: Schedule, t: TarEntry)
    requires Fits(streams, sched) && t in Merge(streams, sched)
    ensures Among(streams, t)
  {
    var a :| 0 <= a < |sched| && Merge(streams, sched)[a] == t;
    CountPrefix(sched, a, sched[a]);
    assert streams[sched[a]][Count(sched[..a], sched[a])] == t;
  }

  // --------------------------------------------------------------- the destination

  /** The first k steps of a run, none of which has returned nil. */
  ghost predicate Unfinished(src: Source, site: Site, force: bool, start: FileSystem,
                             states: seq<Download>, events: seq<Event>, k: nat) {
    Runs(src, site, force, start, states, events, k) && forall i :: 0 <= i <= k ==> states[i].phase != Returned(true)
  }

  /** A run that cannot commit never gets to extract anything. */
  lemma {:induction false} NeverExtracts(src: Source, site: Site, force: bool, start: FileSystem,
                                         states: seq<Download>, events: seq<Event>, k: nat)
    requires GoodSite(site, start) && Runs(src, site, force, start, states, events, k)
        && !CanCommit(src, site, force, start)
    ensures var d := states[k];
      && d.touched == {} && (d.phase.Fetching? ==> EmptyEnough(start, site.Dst(), force))
      && (d.phase.Preparing? || d.phase.Fetching? || d.phase == Returned(false) || d.phase.Crashed?)
  {
    if k > 0 {
      assert Runs(src, site, force, start, states, events, k - 1);
      NeverExtracts(src, site, force, start, states, events, k - 1);
      Reaches(src, states, events, k - 1);
      assert Happened(src, states, events, k - 1);
      hide Step, EmptyEnough, DownloadProtocol.Inv;
      StepNeverExtracts(src, states[k - 1], events[k - 1], force, start);
    }
  }

  lemma StepNeverExtracts(src: Source, d: Download, e: Event, force: bool, start: FileSystem)
    requires DiskOk(d) && Step(src, d, e).Some? && d.start == start && d.force == force
    requires d.touched == {} && (d.phase.Fetching? ==> EmptyEnough(start, d.site.Dst(), force))
    requires !(EmptyEnough(start, d.site.Dst(), force) && src.manifest.Some? && WellFormed(src.manifest.value))
    requires d.phase.Preparing? || d.phase.Fetching? || d.phase == Returned(false) || d.phase.Crashed?
    ensures var d' := Step(src, d, e).value;
      && d'.touched == {} && (d'.phase.Fetching? ==> EmptyEnough(start, d.site.Dst(), force))
      && (d'.phase.Preparing? || d'.phase.Fetching? || d'.phase == Returned(false) || d'.phase.Crashed?)
  {
    hide EmptyEnough, WellFormed;
  }

  /** With nothing at the destination, nothing outside the scratch is touched before success. */
  lemma {:induction false} NothingIsCleared(src: Source, site: Site, force: bool, start: FileSystem,
                                            states: seq<Download>, events: seq<Event>, k: nat)
    requires GoodSite(site, start) && AttemptsStay(src, site, force, start) && site.Dst() !in start
    requires Unfinished(src, site, force, start, states, events, k)
    ensures StaysIn(site.Scratch(), states[k].touched)
  {
    if k > 0 {
      assert Unfinished(src, site, force, start, states, events, k - 1);
      LastStep(src, site, force, start, states, events, k);
      hide *;
      NothingIsCleared(src, site, force, start, states, events, k - 1);
      NothingClearedStep(src, states[k - 1], events[k - 1], states[k]);
    }
  }

  /** What holds before the last step of a run. */
  lemma LastStep(src: Source, site: Site, force: bool, start: FileSystem,
                 states: seq<Download>, events: seq<Event>, k: nat)
    requires GoodSite(site, start) && AttemptsStay(src, site, force, start) && 0 < k
    requires Unfinished(src, site, force, start, states, events, k)
    ensures |states| == |events| + 1 && k <= |events|
    ensures DiskOk(states[k - 1]) && AllGuarded(src, states[k - 1])
        && Step(src, states[k - 1], events[k - 1]) == Some(states[k])
    ensures states[k - 1].site == site && states[k - 1].start == start && states[k].phase != Returned(true)
  {
    assert Runs(src, site, force, start, states, events, k - 1);
    assert Happened(src, states, events, k - 1);
    hide Step, AttemptsStay, AllGuarded, GoodSite;
    GuardedAt(src, site, force, start, states, events, k - 1);
    RunReaches(src, site, force, start, states, events, k - 1);
  }

  lemma RunReaches(src: Source, site: Site, force: bool, start: FileSystem,
                   states: seq<Download>, events: seq<Event>, k: nat)
    requires GoodSite(site, start) && Runs(src, site, force, start, states, events, k)
    ensures DiskOk(states[k]) && states[k].site == site && states[k].start == start
  {
    assert Starts(states[0]);
    hide DiskOk, DownloadProtocol.Inv, History;
    Reaches(src, states, events, k);
  }

  lemma NothingClearedStep(src: Source, d: Download, e: Event, d': Download)
    requires DiskOk(d) && Step(src, d, e) == Some(d') && AllGuarded(src, d) && StaysIn(d.site.Scratch(), d.touched)
    requires d.site.Dst() !in d.start && d'.phase != Returned(true)
    ensures StaysIn(d.site.Scratch(), d'.touched)
  {
    SiblingsApart(d.site, d.site.Dst());
    AbsentDoesNotExist(d.site, d);
    UnfinishedStepStays(src, d, e, d');
  }

  lemma AbsentDoesNotExist(site: Site, d: Download)
    requires DiskOk(d) && d.site == site && site.Dst() !in d.start && StaysIn(site.Scratch(), d.touched)
    requires !(site.Scratch() <= site.Dst())
    ensures site.Dst() !in d.disk && !Exists(d.disk, site.Dst())
  {
    assert site.Dst() !in d.touched;
    DstIsItself(site, d.disk);
  }

  lemma UnfinishedStepStays(src: Source, d: Download, e: Event, d': Download)
    requires DiskOk(d) && Step(src, d, e) == Some(d') && AllGuarded(src, d) && StaysIn(d.site.Scratch(), d.touched)
    requires !Exists(d.disk, d.site.Dst()) && d'.phase != Returned(true)
    ensures StaysIn(d.site.Scratch(), d'.touched)
  {
    if e.ExtractNext? || e.Break? {
      ScratchRooted(d);
      EntryGuardedIff(d.disk, d.site.Scratch(), NextEntry(src, d, e.j));
    }
    hide EntryGuarded, Touched, Extract, Exists;
  }

  /**
   When a download that has not returned nil leaves everything but its scratch alone: in
   every state of every run, if and only if every entry stays and it is not the case that
   there is a destination and the run can commit.  In that case a failed rename loses it.
   (A destination that is a link to nowhere can be neither cleared nor replaced.)
   */
  lemma DestinationIsSafeIff(src: Source, site: Site, force: bool, start: FileSystem)
    requires GoodSite(site, start) && Replaceable(start, site.Dst())
    ensures (forall states: seq<Download>, events: seq<Event>, k: nat ::
               Unfinished(src, site, force, start, states, events, k) ==> StaysIn(site.Scratch(), states[k].touched))
            <==> AttemptsStay(src, site, force, start) && !(site.Dst() in start && CanCommit(src, site, force, start))
  {
    if site.Dst() in start && CanCommit(src, site, force, start) {
      var states, events := LosingRun(src, site, force, start);
      assert Unfinished(src, site, force, start, states, events, |events|);
    } else if !AttemptsStay(src, site, force, start) {
      var states, events := StrayRun(src, site, force, start);
      NotReturnedYet(src, states, events, |events|);
      assert Unfinished(src, site, force, start, states, events, |events|);
    } else {
      forall states: seq<Download>, events: seq<Event>, k: nat | Unfinished(src, site, force, start, states, events, k)
        ensures StaysIn(site.Scratch(), states[k].touched)
      {
        if site.Dst() in start {
          NeverExtracts(src, site, force, start, states, events, k);
        } else {
          NothingIsCleared(src, site, force, start, states, events, k);
        }
      }
    }
  }

  /** A run that has not returned or has returned an error never returned nil. */
  lemma {:induction false} NotReturnedYet(src: Source, states: seq<Download>, events: seq<Event>, k: nat)
    requires History(src, states, events) && k <= |events|
    requires states[k].phase != Returned(true) && !states[k].phase.Crashed?
    ensures forall i :: 0 <= i <= k ==> states[i].phase != Returned(true)
  {
    if k > 0 {
      assert Happened(src, states, events, k - 1);
      NotReturnedYet(src, states, events, k - 1);
    }
  }

  /** Making the scratch directory changes nothing about the destination. */
  lemma FreshReplaceable(site: Site, start: FileSystem)
    requires GoodSite(site, start) && Replaceable(start, site.Dst())
    ensures Replaceable(Fresh(site, start), site.Dst()) && (site.Dst() in Fresh(site, start) <==> site.Dst() in start)
    ensures site.Dst() in start ==> Exists(Fresh(site, start), site.Dst())
  {
    SiblingsApart(site, site.Dst());
    if site.Dst() in start { LocateGrows(start, Fresh(site, start), [], site.Dst(), MAX_LINKS); }
  }

  lemma LosingRun(src: Source, site: Site, force: bool, start: FileSystem)
    returns (states: seq<Download>, events: seq<Event>)
    requires GoodSite(site, start) && Replaceable(start, site.Dst())
    requires site.Dst() in start && CanCommit(src, site, force, start)
    ensures Unfinished(src, site, force, start, states, events, |events|)
    ensures !StaysIn(site.Scratch(), states[|events|].touched) && site.Dst() !in states[|events|].disk
  {
    FreshReplaceable(site, start);
    states, events := CutShortRun(src, site, force, 1, start, false);
    NotReturnedYet(src, states, events, |events|);
    SiblingsApart(site, site.Dst());
    hide Exists;
  }

  // ---------------------------------------------- the gap a cancellation leaves

  ghost predicate SucceedsEmpty(src: Source, site: Site, force: bool, start: FileSystem,
                                states: seq<Download>, events: seq<Event>) {
    && Runs(src, site, force, start, states, events, |events|) && states[|events|].phase == Returned(true)
    && Sub(states[|events|].disk, site.Dst()) == EMPTY_DIR && NoneWon(states[|events|])
  }

  /**
   A download can return nil with an empty datadir and no part fetched if and only if it
   can commit at all.  SuccessfulDownload says that only the caller's cancellation does it.
   */
  lemma CancelledDownloadSucceedsEmptyIff(src: Source, site: Site, force: bool, start: FileSystem)
    requires GoodSite(site, start) && Replaceable(start, site.Dst())
    ensures (exists states: seq<Download>, events: seq<Event> :: SucceedsEmpty(src, site, force, start, states, events))
            <==> CanCommit(src, site, force, start)
  {
    if CanCommit(src, site, force, start) {
      var states, events := EmptySuccess(src, site, force, start);
      assert SucceedsEmpty(src, site, force, start, states, events);
    }
    forall states: seq<Download>, events: seq<Event> | SucceedsEmpty(src, site, force, start, states, events)
      ensures CanCommit(src, site, force, start)
    {
      if !CanCommit(src, site, force, start) { NeverExtracts(src, site, force, start, states, events, |events|); }
    }
  }

  lemma EmptySuccess(src: Source, site: Site, force: bool, start: FileSystem)
    returns (states: seq<Download>, events: seq<Event>)
    requires GoodSite(site, start) && Replaceable(start, site.Dst()) && CanCommit(src, site, force, start)
    ensures SucceedsEmpty(src, site, force, start, states, events)
  {
    FreshReplaceable(site, start);
    FreshIsEmpty(site, start);
    states, events := CutShortRun(src, site, force, 1, start, true);
    var fs := Fresh(site, start);
    assert Cleared(fs, site.Dst()) == fs || Cleared(fs, site.Dst()) == Without(fs, site.Dst());
    ClearedScratch(site, fs, Cleared(fs, site.Dst()));
    RenamedScratch(site, Cleared(fs, site.Dst()));
    hide Exists, Sub, Renamed, Cleared;
  }

  // ------------------------------------------------- what is in the way of a download

  /** A run that the guard stops does nothing at all. */
  lemma {:induction false} StoppedAtOnce(src: Source, site: Site, start: FileSystem,
                                         states: seq<Download>, events: seq<Event>, k: nat)
    requires Runs(src, site, false, start, states, events, k) && !EmptyEnough(start, site.Dst(), false)
    ensures var d := states[k];
      && d.disk == start && d.site == site && !d.force && d.touched == {}
      && (d.phase.Preparing? || d.phase == Returned(false) || d.phase.Crashed?)
  {
    if k > 0 {
      assert Runs(src, site, false, start, states, events, k - 1);
      StoppedAtOnce(src, site, start, states, events, k - 1);
      assert Happened(src, states, events, k - 1);
      hide EmptyEnough, Extract, Touched;
    }
  }

  /** The guard lets the run through to its scratch directory. */
  lemma LetThrough(src: Source, site: Site, force: bool, start: FileSystem)
    returns (states: seq<Download>, events: seq<Event>)
    requires GoodSite(site, start) && EmptyEnough(start, site.Dst(), force)
    ensures Runs(src, site, force, start, states, events, |events|) && states[|events|].disk != start
  {
    states, events := [Begin(site, force, 1, start)], [];
    states, events := Extend(src, states, events, Prepare(true));
    assert site.Scratch() in states[|events|].disk;
  }

  /**
   The guard on an existing datadir, exactly.  Every run leaves the disk as it is in every
   state and none returns nil, if and only if force is not given and the destination leads
   to a file, to a directory with anything below it, or cannot be looked at.  Wherever the
   manifest is well-formed, some run succeeds if and only if the guard does not refuse.
   */
  lemma DestinationGuardIff(src: Source, site: Site, force: bool, start: FileSystem)
    requires GoodSite(site, start)
    ensures var refused := !force && match Where(start, site.Dst())
        case Missing => false
        case Refused => true
        case At(q) => q in start && (start[q] != ODir || exists p :: p in start && q < p);
      && ((forall states: seq<Download>, events: seq<Event>, k: nat :: Runs(src, site, force, start, states, events, k)
             ==> states[k].disk == start && states[k].phase != Returned(true)) <==> refused)
      && (src.manifest.Some? && WellFormed(src.manifest.value) && Replaceable(start, site.Dst()) ==>
            ((exists states: seq<Download>, events: seq<Event> ::
                Runs(src, site, force, start, states, events, |events|) && states[|events|].phase == Returned(true))
             <==> !refused))
  {
    EmptyEnoughIff(start, site.Dst(), force);
    if EmptyEnough(start, site.Dst(), force) {
      var states, events := LetThrough(src, site, force, start);
      assert Runs(src, site, force, start, states, events, |events|);
      if src.manifest.Some? && WellFormed(src.manifest.value) && Replaceable(start, site.Dst()) {
        var states, events := EmptySuccess(src, site, force, start);
        assert Runs(src, site, force, start, states, events, |events|);
      }
    } else {
      forall states: seq<Download>, events: seq<Event>, k: nat | Runs(src, site, force, start, states, events, k)
        ensures states[k].disk == start && states[k].phase != Returned(true)
      {
        StoppedAtOnce(src, site, start, states, events, k);
      }
    }
    hide Runs, EmptyEnough, Sub;
  }

  // ------------------------------------------------- why the guard is a condition

  /** Two entries of an archive that safeExtract accepts: a relative link, and a file through it. */
  function SteppingOut(site: Site, content: Bytes): seq<TarEntry> {
    [TarEntry("x", OLink("../" + site.name)), TarEntry("x/f", OFile(content))]
  }

  lemma SteppingOutNames()
    ensures SafePath("x") == Some(["x"]) && SafePath("x/f") == Some(["x", "f"])
  {
    assert ["x", "f"][1..] == ["f"] && Render(["f"]) == "f" && Render(["x", "f"]) == "x/f" && Render(["x"]) == "x";
    SafePathOfRendered(["x"]);
    SafePathOfRendered(["x", "f"]);
  }

  lemma TargetComponents(name: string)
    requires ValidName(name)
    ensures Components("../" + name) == ["..", name] && !IsAbs("../" + name)
  {
    SplitSlash("..", name);
    SplitPlain(name);
    assert ".." + "/" + name == "../" + name;
    var segs := ["..", name];
    assert [".."] + [name] == segs;
    assert segs[1..] == [name] && [name][1..] == [];
    assert DropDots([name]) == [name] + DropDots([]);
  }

  /** A place for a new link right below a canonical directory. */
  lemma LinkBelow(fs: FileSystem, root: Path, s: string, target: string)
    requires Rooted(fs, root) && ValidName(s) && root + [s] !in fs && target != "" && !IsAbs(target)
    ensures Make(fs, root + [s], OLink(target)) == Outcome(fs[root + [s] := OLink(target)], true)
  {
    assert [] + root == root && root + [] == root && Parent(root + [s]) == root;
    LocateFrom(fs, [], root, [], MAX_LINKS);
  }

  /** Through the link the file lands in the destination. */
  lemma FileThroughLink(fs: FileSystem, site: Site, content: Bytes)
    requires ValidSite(site, fs) && site.Scratch() in fs && fs[site.Scratch()] == ODir
    requires site.Scratch() + ["x"] in fs && fs[site.Scratch() + ["x"]] == OLink("../" + site.name)
    requires site.Dst() in fs && fs[site.Dst()] == ODir && site.Dst() + ["f"] !in fs
    ensures Make(fs, site.Scratch() + ["x", "f"], OFile(content)) ==
            Outcome(fs[site.Dst() + ["f"] := OFile(content)], true)
  {
    var p := site.Scratch() + ["x", "f"];
    assert Parent(p) == site.Scratch() + ["x"] && p == site.Scratch() + ["x"] + ["f"];
    ThroughLink(fs, site, []);
    ThroughLink(fs, site, ["f"]);
    assert site.Scratch() + (["x"] + []) == Parent(p) && site.Scratch() + (["x"] + ["f"]) == p;
    assert Locate(fs, site.Dst(), ["f"], MAX_LINKS - 1) == At(site.Dst() + ["f"]) by { assert ["f"][1..] == []; }
  }

  lemma ThroughLink(fs: FileSystem, site: Site, rest: Path)
    requires ValidSite(site, fs) && site.Scratch() in fs && fs[site.Scratch()] == ODir
    requires site.Scratch() + ["x"] in fs && fs[site.Scratch() + ["x"]] == OLink("../" + site.name)
    requires site.Dst() in fs && fs[site.Dst()] == ODir
    ensures Where(fs, site.Scratch() + (["x"] + rest)) == Locate(fs, site.Dst(), rest, MAX_LINKS - 1)
  {
    var root := site.Scratch();
    assert [] + root == root && (["x"] + rest)[1..] == rest;
    LocateFrom(fs, [], root, ["x"] + rest, MAX_LINKS);
    TargetComponents(site.name);
    var way := ["..", site.name] + rest;
    assert way[1..] == [site.name] + rest && ([site.name] + rest)[1..] == rest;
    assert Parent(root) == site.home && way[0] == ".." && root + ["x"][..1] == root + ["x"];
    assert (["x"] + rest)[0] == "x" && Components("../" + site.name) + rest == way;
    assert Locate(fs, root, ["x"] + rest, MAX_LINKS) == Locate(fs, root, way, MAX_LINKS - 1);
    assert Locate(fs, root, way, MAX_LINKS - 1) == Locate(fs, site.home, [site.name] + rest, MAX_LINKS - 1);
    assert ([site.name] + rest)[0] == site.name;
  }

  /** The worker of the only part extracts both entries. */
  lemma TwoSteps(src: Source, d: Download, p: Part, content: Bytes)
    requires d.phase.Extracting? && d.parts == [p] && d.pool == Done(1, 0) && d.sched == []
    requires StreamOf(src, p) == SteppingOut(d.site, content)
    requires ValidSite(d.site, d.disk) && d.site.Scratch() in d.disk && d.disk[d.site.Scratch()] == ODir
    requires d.site.Scratch() + ["x"] !in d.disk
    requires d.site.Dst() in d.disk && d.disk[d.site.Dst()] == ODir && d.site.Dst() + ["f"] !in d.disk
    ensures Step(src, d, ExtractNext(0)).Some?
    ensures var d1 := Step(src, d, ExtractNext(0)).value;
      && Step(src, d1, ExtractNext(0)).Some?
      && var d2 := Step(src, d1, ExtractNext(0)).value;
         && d2.phase.Extracting? && d2.pool == Done(1, 0) && d2.parts == [p] && d2.site == d.site
         && d.site.Dst() + ["f"] in d2.disk && d2.disk[d.site.Dst() + ["f"]] == OFile(content)
  {
    SteppingOutExtracts(d.site, d.disk, content);
    var disk1 := d.disk[d.site.Scratch() + ["x"] := OLink("../" + d.site.name)];
    assert Count([], 0) == 0 && [0][..0] == [] && Count([0], 0) == 1 && |SteppingOut(d.site, content)| == 2;
    hide Extract, SteppingOut, Step, Count, Done;
    OneStep(src, d, p, disk1);
    OneStep(src, Step(src, d, ExtractNext(0)).value, p, disk1[d.site.Dst() + ["f"] := OFile(content)]);
    assert [] + [0] == [0];
  }

  lemma SteppingOutExtracts(site: Site, disk: FileSystem, content: Bytes)
    requires ValidSite(site, disk) && site.Scratch() in disk && disk[site.Scratch()] == ODir
    requires site.Scratch() + ["x"] !in disk
    requires site.Dst() in disk && disk[site.Dst()] == ODir && site.Dst() + ["f"] !in disk
    ensures var disk1 := disk[site.Scratch() + ["x"] := OLink("../" + site.name)];
      && Extract(disk, site.Scratch(), SteppingOut(site, content)[0]) == Some(disk1)
      && Extract(disk1, site.Scratch(), SteppingOut(site, content)[1]) ==
          Some(disk1[site.Dst() + ["f"] := OFile(content)])
  {
    SteppingOutNames();
    TargetComponents(site.name);
    LinkBelow(disk, site.Scratch(), "x", "../" + site.name);
    var disk1 := disk[site.Scratch() + ["x"] := OLink("../" + site.name)];
    AddDir(disk, site.Scratch(), "x", OLink("../" + site.name));
    SiblingsApart(site, site.Dst() + ["f"]);
    SiblingsApart(site, site.Dst());
    FileThroughLink(disk1, site, content);
    hide Make, SafePath, Touched;
  }

  lemma OneStep(src: Source, d: Download, p: Part, disk: FileSystem)
    requires d.phase.Extracting? && d.parts == [p] && d.pool == Done(1, 0) && Count(d.sched, 0) < |StreamOf(src, p)|
    requires Extract(d.disk, d.site.Scratch(), StreamOf(src, p)[Count(d.sched, 0)]) == Some(disk)
    ensures Step(src, d, ExtractNext(0)).Some?
    ensures var d' := Step(src, d, ExtractNext(0)).value;
      d' == d.(disk := disk, sched := d.sched + [0], touched := d'.touched)
  {
    ExtractStep(src, d, 0);
    hide Extract, Touched, StreamOf, Count, Step;
  }

  /**
   The documented promises need the guard.  For every disk with a destination directory
   and every part whose archive holds these two entries and whose digest differs, some
   run returns an error before Commit and has written into the destination.
   */
  lemma LinkedEntryChangesTheDestination(src: Source, site: Site, force: bool, start: FileSystem, p: Part,
      content: Bytes)
    returns (states: seq<Download>, events: seq<Event>)
    requires GoodSite(site, start) && CanCommit(src, site, force, start)
    requires src.manifest.value.parts == [p] && StreamOf(src, p) == SteppingOut(site, content)
    requires site.Dst() in start && start[site.Dst()] == ODir && site.Dst() + ["f"] !in start
    ensures Runs(src, site, force, start, states, events, |events|) && BeforeCommit(events, |events|)
    ensures states[|events|].phase == Returned(false)
    ensures site.Dst() + ["f"] in states[|events|].disk && states[|events|].disk[site.Dst() + ["f"]] == OFile(content)
  {
    states, events := OpenRun(src, site, force, 1, start);
    assert seq(1, _ => WorkerPool.Idle) == SplitSlots(1, 0, WorkerPool.Busy, WorkerPool.Idle);
    states, events := LaunchAll(src, states, events, 1, 0);
    SteppingOutFits(site, start);
    FreshIsEmpty(site, start);
    hide EmptyEnough, WellFormed, Sub;
    TwoSteps(src, states[|events|], p, content);
    states, events := Extend(src, states, events, ExtractNext(0));
    states, events := Extend(src, states, events, ExtractNext(0));
    ExtractingIsBeforeCommit(src, states, events, |events|);
    SiblingsApart(site, site.Dst() + ["f"]);
    hide Step, History;
    states, events := FailNow(src, states, events);
  }

  /** The digest differs, and the run returns the error. */
  lemma FailNow(src: Source, states: seq<Download>, events: seq<Event>)
    returns (states': seq<Download>, events': seq<Event>)
    requires History(src, states, events) && BeforeCommit(events, |events|)
    requires states[|events|].phase.Extracting? && |states[|events|].parts| == 1 && states[|events|].pool == Done(1, 0)
    ensures History(src, states', events') && BeforeCommit(events', |events'|) && states'[0] == states[0]
    ensures states'[|events'|].phase == Returned(false)
    ensures states'[|events'|].disk == Without(states[|events|].disk, states[|events|].site.Scratch())
  {
    states', events' := Extend(src, states, events, GiveUp(0));
    states', events' := Extend(src, states', events', Collect);
  }

  lemma SteppingOutFits(site: Site, start: FileSystem)
    requires GoodSite(site, start) && site.Dst() in start
    ensures site.Scratch() + ["x"] !in Fresh(site, start) && site.Dst() != site.Scratch()
    ensures site.Dst() + ["f"] in Fresh(site, start) <==> site.Dst() + ["f"] in start
  {
    SiblingsApart(site, site.Dst() + ["f"]);
    SiblingsApart(site, site.Dst());
    if site.Scratch() + ["x"] in start { BelowIsIn(start, site.Scratch(), site.Scratch() + ["x"]); }
  }
}
