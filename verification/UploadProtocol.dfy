/**
 One upload run against a store: parts and their sidecars are committed by the worker
 pool in any interleaving, and the manifest is written last.  The run may crash, and its
 caller may cancel, between any two steps.
 */
module UploadProtocol {
  import opened Basics
  import opened Manifests
  import opened WorkerPool

  /** A part to upload: its key, the bytes its encoder produces, and its sidecar. */
  datatype Planned = Planned(name: string, bytes: Bytes, uncompressed: nat, tocName: string, toc: Bytes, files: nat)

  datatype Phase = Checking | Uploading | Publishing | Succeeded | Failed | Crashed

  /** How far the goroutine of one part has come. */
  datatype Stage = Streaming | PartVisible | TocVisible

  datatype Upload = Upload(
    name: string,
    role: string,
    overwrite: bool,
    plan: seq<Planned>,
    phase: Phase,
    pool: Pool,
    stages: seq<Stage>,
    results: seq<Part>,
    objects: map<string, Bytes>,
    manifest: Option<Manifest>)

  datatype Event =
    | CheckOverwrite(statOk: bool)
    | PoolLoop(m: Move)            // Check, Launch or CancelParent
    | CommitPart(j: nat)           // the part writer's Close returned nil
    | CommitToc(j: nat)            // the sidecar writer's Close returned nil
    | Finish(j: nat)               // the goroutine stores its result
    | GiveUp(j: nat)               // any error in the goroutine; writers not closed are aborted
    | Collect                      // wg.Wait(), then Manifest.Validate
    | Publish(ok: bool)            // writeManifest
    | Crash

  function Begin(name: string, role: string, overwrite: bool, plan: seq<Planned>, parallel: int,
                 objects: map<string, Bytes>, manifest: Option<Manifest>): Upload {
    Upload(name, role, overwrite, plan, Checking, NewPool(|plan|, parallel),
           seq(|plan|, _ => Streaming), seq(|plan|, _ => ZERO_PART), objects, manifest)
  }

  /** What uploadPart returns: lengths and digests of the bytes it committed. */
  function Record(hash: Bytes -> string, p: Planned): Part {
    Part(p.name, p.uncompressed, |p.bytes|, hash(p.bytes), Some(TocRef(p.tocName, |p.toc|, hash(p.toc), p.files)))
  }

  ghost function ManifestOf(u: Upload): Manifest {
    Manifest(MANIFEST_VERSION, u.name, u.role, u.results)
  }

  ghost predicate Working(u: Upload, j: nat) {
    u.phase.Uploading? && j < |u.plan| && j < |u.pool.slots| && j < |u.stages| && j < |u.results|
        && u.pool.slots[j].Busy?
  }

  /** The state after an event, or None where it cannot happen. */
  ghost function Step(hash: Bytes -> string, u: Upload, e: Event): Option<Upload> {
    match e
    case CheckOverwrite(statOk) =>
      if !u.phase.Checking? then None
      else if u.overwrite then Some(u.(phase := Uploading))
      else if !statOk || u.manifest.Some? then Some(u.(phase := Failed))
      else Some(u.(phase := Uploading))
    case PoolLoop(m) =>
      if u.phase.Uploading? && !m.Win? && !m.Lose? && Next(u.pool, m).Some? then
        Some(u.(pool := Next(u.pool, m).value))
      else None
    case CommitPart(j) =>
      if Working(u, j) && u.stages[j].Streaming? then
        Some(u.(stages := u.stages[j := PartVisible], objects := u.objects[u.plan[j].name := u.plan[j].bytes]))
      else None
    case CommitToc(j) =>
      if Working(u, j) && u.stages[j].PartVisible? then
        Some(u.(stages := u.stages[j := TocVisible], objects := u.objects[u.plan[j].tocName := u.plan[j].toc]))
      else None
    case Finish(j) =>
      if Working(u, j) && u.stages[j].TocVisible? && Next(u.pool, Win(j)).Some? then
        Some(u.(pool := Next(u.pool, Win(j)).value, results := u.results[j := Record(hash, u.plan[j])]))
      else None
    case GiveUp(j) =>
      if Working(u, j) && Next(u.pool, Lose(j)).Some? then Some(u.(pool := Next(u.pool, Lose(j)).value)) else None
    case Collect =>
      if u.phase.Uploading? && Ended(u.pool) then
        Some(u.(phase := if u.pool.firstErr.None? && WellFormed(ManifestOf(u)) then Publishing else Failed))
      else None
    case Publish(ok) =>
      if !u.phase.Publishing? then None
      else if ok then Some(u.(phase := Succeeded, manifest := Some(ManifestOf(u))))
      else Some(u.(phase := Failed))
    case Crash => Some(u.(phase := Crashed))
  }

  ghost predicate History(hash: Bytes -> string, states: seq<Upload>, events: seq<Event>) {
    && |states| == |events| + 1
    && forall i :: 0 <= i < |events| ==> Happened(hash, states, events, i)
  }

  ghost predicate Happened(hash: Bytes -> string, states: seq<Upload>, events: seq<Event>, i: nat)
    requires i < |events| < |states|
  {
    Step(hash, states[i], events[i]) == Some(states[i + 1])
  }

  // ---------------------------------------------------------------- invariant

  /** All object keys of a plan are different, and part keys are not empty. */
  ghost predicate DistinctNames(plan: seq<Planned>) {
    && (forall i :: 0 <= i < |plan| ==> plan[i].name != "")
    && (forall i, j :: 0 <= i < |plan| && 0 <= j < |plan| ==> plan[i].name != plan[j].tocName)
    && (forall i, j :: 0 <= i < j < |plan| ==> plan[i].name != plan[j].name && plan[i].tocName != plan[j].tocName)
  }

  ghost predicate Stored(objects: map<string, Bytes>, name: string, bytes: Bytes) {
    name in objects && objects[name] == bytes
  }

  ghost predicate SlotOk(hash: Bytes -> string, u: Upload, j: nat)
    requires j < |u.plan| == |u.stages| == |u.results| == |u.pool.slots|
  {
    && (!u.stages[j].Streaming? ==> Stored(u.objects, u.plan[j].name, u.plan[j].bytes))
    && (u.stages[j].TocVisible? ==> Stored(u.objects, u.plan[j].tocName, u.plan[j].toc))
    && (u.pool.slots[j].Won? ==> u.stages[j].TocVisible? && u.results[j] == Record(hash, u.plan[j]))
    && (!u.pool.slots[j].Won? ==> u.results[j] == ZERO_PART)
  }

  ghost predicate Inv(hash: Bytes -> string, u: Upload) {
    && WorkerPool.Inv(u.pool)
    && |u.plan| == |u.stages| == |u.results| == |u.pool.slots|
    && (forall j :: 0 <= j < |u.plan| ==> SlotOk(hash, u, j))
    && (u.phase.Publishing? ==> Ended(u.pool) && WellFormed(ManifestOf(u)))
    && (u.phase.Checking? ==> forall j :: 0 <= j < |u.plan| ==> u.pool.slots[j].Idle?)
  }

  /** The manifest this run publishes is its own and lists every planned part, as committed. */
  ghost predicate Published(hash: Bytes -> string, u: Upload) {
    u.manifest.Some? ==>
      && u.manifest.value.version == 1 && u.manifest.value.name == u.name && u.manifest.value.role == u.role
      && |u.manifest.value.parts| == |u.plan| == |u.stages|
      && forall j :: 0 <= j < |u.plan| ==>
          u.manifest.value.parts[j] == Record(hash, u.plan[j]) && u.stages[j].TocVisible?
  }

  lemma BeginInv(hash: Bytes -> string, u: Upload, parallel: int)
    requires u == Begin(u.name, u.role, u.overwrite, u.plan, parallel, u.objects, u.manifest)
    ensures Inv(hash, u)
  {
    NewPoolInv(|u.plan|, parallel);
  }

  /** Committing one part's object leaves every other part's objects alone. */
  lemma CommitKeeps(hash: Bytes -> string, u: Upload, e: Event)
    requires Inv(hash, u) && DistinctNames(u.plan) && Step(hash, u, e).Some?
    requires e.CommitPart? || e.CommitToc?
    ensures Inv(hash, Step(hash, u, e).value)
  {
    var u' := Step(hash, u, e).value;
    forall j | 0 <= j < |u.plan| ensures SlotOk(hash, u', j) {
      assert SlotOk(hash, u, j);
    }
  }

  lemma PoolStepKeeps(hash: Bytes -> string, u: Upload, e: Event)
    requires Inv(hash, u) && Step(hash, u, e).Some?
    requires e.PoolLoop? || e.Finish? || e.GiveUp?
    ensures Inv(hash, Step(hash, u, e).value)
  {
    var u' := Step(hash, u, e).value;
    var m := if e.PoolLoop? then e.m else if e.Finish? then Win(e.j) else Lose(e.j);
    NextKeepsInv(u.pool, m);
    forall j | 0 <= j < |u.plan| ensures SlotOk(hash, u', j) {
      assert SlotOk(hash, u, j);
    }
  }

  lemma StepKeepsInv(hash: Bytes -> string, u: Upload, e: Event)
    requires Inv(hash, u) && DistinctNames(u.plan) && Step(hash, u, e).Some?
    ensures Inv(hash, Step(hash, u, e).value)
    ensures Step(hash, u, e).value.plan == u.plan
    ensures Step(hash, u, e).value.name == u.name && Step(hash, u, e).value.role == u.role
  {
    if e.CommitPart? || e.CommitToc? {
      CommitKeeps(hash, u, e);
    } else if e.PoolLoop? || e.Finish? || e.GiveUp? {
      PoolStepKeeps(hash, u, e);
    } else {
      var u' := Step(hash, u, e).value;
      forall j | 0 <= j < |u.plan| ensures SlotOk(hash, u', j) { assert SlotOk(hash, u, j); }
    }
  }

  /** Slots left empty by a cut-short loop fail validation, so only complete results publish. */
  lemma PublishIsComplete(hash: Bytes -> string, u: Upload)
    requires Inv(hash, u) && u.phase.Publishing?
    ensures Published(hash, u.(manifest := Some(ManifestOf(u))))
  {
    forall j | 0 <= j < |u.plan| ensures u.results[j] == Record(hash, u.plan[j]) && u.stages[j].TocVisible? {
      assert SlotOk(hash, u, j);
      assert ManifestOf(u).parts[j].name != "";
    }
  }

  /** After wg.Wait() the run goes on to publish exactly when every part was uploaded. */
  lemma CollectPublishesIff(hash: Bytes -> string, u: Upload)
    requires Inv(hash, u) && DistinctNames(u.plan) && u.phase.Uploading? && Ended(u.pool)
    requires u.plan != [] && u.name != "" && ValidRole(u.role) && forall b :: hash(b) != ""
    ensures Step(hash, u, Collect).Some?
    ensures Step(hash, u, Collect).value.phase.Publishing? <==> forall j :: 0 <= j < |u.plan| ==> u.pool.slots[j].Won?
    ensures u.pool.broke ==> Step(hash, u, Collect).value.phase.Failed?
  {
    var m := ManifestOf(u);
    if WellFormed(m) {
      forall j | 0 <= j < |u.plan| ensures u.pool.slots[j].Won? {
        assert SlotOk(hash, u, j);
        assert m.parts[j].name != "";
      }
    }
    if forall j :: 0 <= j < |u.plan| ==> u.pool.slots[j].Won? {
      forall j | 0 <= j < |u.plan| ensures m.parts[j] == Record(hash, u.plan[j]) { assert SlotOk(hash, u, j); }
      assert WellFormed(m);
    }
    if u.pool.broke { assert u.pool.slots[u.pool.next].Idle?; }
  }

  // ------------------------------------------------------------ main theorems

  /** Readers who find the manifest find every part and sidecar it lists, with its size and digest. */
  ghost predicate Safe(hash: Bytes -> string, u: Upload) {
    u.manifest.Some? ==> forall p | p in u.manifest.value.parts ::
      && Matches(hash, u.objects, p.name, p.compressedSize, p.sha256)
      && (p.toc.Some? ==> Matches(hash, u.objects, p.toc.value.name, p.toc.value.size, p.toc.value.sha256))
  }

  ghost predicate Matches(hash: Bytes -> string, objects: map<string, Bytes>, name: string, size: nat, digest: string) {
    name in objects && |objects[name]| == size && hash(objects[name]) == digest
  }

  /** A manifest entry says of a planned part and its sidecar what they are. */
  ghost predicate Describes(hash: Bytes -> string, p: Part, planned: Planned) {
    && p.name == planned.name && p.uncompressedSize == planned.uncompressed
    && p.compressedSize == |planned.bytes| && p.sha256 == hash(planned.bytes)
    && p.toc.Some? && p.toc.value.name == planned.tocName && p.toc.value.entries == planned.files
    && p.toc.value.size == |planned.toc| && p.toc.value.sha256 == hash(planned.toc)
  }

  ghost predicate PublishedLast(hash: Bytes -> string, u: Upload) {
    && Inv(hash, u) && Published(hash, u)
    && (u.manifest.Some? ==> u.phase.Succeeded? || u.phase.Crashed?)
  }

  lemma StepKeepsPublishedLast(hash: Bytes -> string, u: Upload, e: Event)
    requires PublishedLast(hash, u) && DistinctNames(u.plan) && Step(hash, u, e).Some?
    ensures PublishedLast(hash, Step(hash, u, e).value)
  {
    StepKeepsInv(hash, u, e);
    if e.Publish? { PublishIsComplete(hash, u); }
  }

  lemma PublishedIsSafe(hash: Bytes -> string, u: Upload)
    requires PublishedLast(hash, u)
    ensures Safe(hash, u)
  {
    if u.manifest.Some? {
      forall p | p in u.manifest.value.parts
        ensures Matches(hash, u.objects, p.name, p.compressedSize, p.sha256)
        ensures p.toc.Some? ==> Matches(hash, u.objects, p.toc.value.name, p.toc.value.size, p.toc.value.sha256)
      {
        var j :| 0 <= j < |u.manifest.value.parts| && u.manifest.value.parts[j] == p;
        assert SlotOk(hash, u, j);
      }
    }
  }

  lemma {:induction false} ReachesPublishedLast(hash: Bytes -> string, states: seq<Upload>, events: seq<Event>, k: nat)
    requires History(hash, states, events) && k <= |events|
    requires PublishedLast(hash, states[0]) && DistinctNames(states[0].plan)
    ensures PublishedLast(hash, states[k]) && states[k].plan == states[0].plan
    ensures states[k].name == states[0].name && states[k].role == states[0].role
  {
    if k > 0 {
      ReachesPublishedLast(hash, states, events, k - 1);
      assert Happened(hash, states, events, k - 1);
      StepKeepsInv(hash, states[k - 1], events[k - 1]);
      StepKeepsPublishedLast(hash, states[k - 1], events[k - 1]);
    }
  }

  /**
   Manifest-last safety.  A run that starts with no manifest at the name shows one only
   when every planned part and sidecar is stored with the listed size and digest, in
   every reachable state: after any failure, cancellation or crash.  It is a version 1
   manifest with the run's own name and role.
   */
  lemma ManifestIsLast(hash: Bytes -> string, states: seq<Upload>, events: seq<Event>, parallel: int, k: nat)
    requires History(hash, states, events) && k <= |events| && states[0].manifest.None?
    requires states[0] == Begin(states[0].name, states[0].role, states[0].overwrite, states[0].plan, parallel,
                                states[0].objects, None)
    requires DistinctNames(states[0].plan)
    ensures Safe(hash, states[k])
    ensures states[k].manifest.Some? ==> forall p | p in states[k].manifest.value.parts :: p.toc.Some?
    ensures states[k].phase.Succeeded? ==> states[k].manifest.Some?
    ensures states[k].manifest.Some? ==>
      var m := states[k].manifest.value;
      && m.version == 1 && m.name == states[0].name && m.role == states[0].role && |m.parts| == |states[0].plan|
      && forall j :: 0 <= j < |m.parts| ==> Describes(hash, m.parts[j], states[0].plan[j])
    ensures states[k].manifest.Some? ==>
      states[k].manifest.value.parts ==
          seq(|states[0].plan|, j requires 0 <= j < |states[0].plan| => Record(hash, states[0].plan[j]))
  {
    BeginInv(hash, states[0], parallel);
    ReachesPublishedLast(hash, states, events, k);
    PublishedIsSafe(hash, states[k]);
    SucceededHasManifest(hash, states, events, k);
  }

  lemma {:induction false} SucceededHasManifest(hash: Bytes -> string, states: seq<Upload>, events: seq<Event>, k: nat)
    requires History(hash, states, events) && k <= |events| && states[0].phase.Checking?
    ensures states[k].phase.Succeeded? ==> states[k].manifest.Some?
  {
    if k > 0 {
      SucceededHasManifest(hash, states, events, k - 1);
      assert Happened(hash, states, events, k - 1);
    }
  }

  /** Without --overwrite, a run at an existing name changes nothing, ever. */
  lemma {:induction false} ExistingSnapshotUntouched(hash: Bytes -> string, states: seq<Upload>,
      events: seq<Event>, k: nat)
    requires History(hash, states, events) && k <= |events|
    requires states[0].phase.Checking? && !states[0].overwrite && states[0].manifest.Some?
    ensures states[k].objects == states[0].objects && states[k].manifest == states[0].manifest
    ensures !states[k].overwrite && (states[k].phase.Checking? || states[k].phase.Failed? || states[k].phase.Crashed?)
  {
    if k > 0 {
      ExistingSnapshotUntouched(hash, states, events, k - 1);
      assert Happened(hash, states, events, k - 1);
    }
  }

  /** Without --overwrite nothing is stored unless the check was answered and found the name free. */
  lemma {:induction false} NothingStoredUnchecked(hash: Bytes -> string, states: seq<Upload>,
      events: seq<Event>, k: nat)
    requires History(hash, states, events) && k <= |events|
    requires states[0].phase.Checking? && !states[0].overwrite
    ensures !(exists i: nat :: i < k && events[i] == CheckOverwrite(true) && states[i].manifest.None?) ==>
      && states[k].objects == states[0].objects && states[k].manifest == states[0].manifest && !states[k].overwrite
      && (states[k].phase.Checking? || states[k].phase.Failed? || states[k].phase.Crashed?)
  {
    if k > 0 {
      NothingStoredUnchecked(hash, states, events, k - 1);
      assert Happened(hash, states, events, k - 1);
    }
  }

  // ------------------------------------------------- an undisturbed run publishes

  /** Jobs 0..j-1 have succeeded and job j is next. */
  ghost predicate Quiet(hash: Bytes -> string, u: Upload, j: nat) {
    && Inv(hash, u) && u.phase.Uploading? && u.pool.next == j && !u.pool.admitted && !u.pool.broke
    && u.pool.firstErr.None? && !u.pool.parentGone
    && (forall i :: 0 <= i < j ==> u.pool.slots[i].Won?)
    && (forall i :: j <= i < |u.plan| ==> u.stages[i].Streaming?)
  }

  lemma Happens(hash: Bytes -> string, states: seq<Upload>, events: seq<Event>, e: Event)
    requires History(hash, states, events) && Step(hash, states[|events|], e).Some?
    ensures History(hash, states + [Step(hash, states[|events|], e).value], events + [e])
  {
    var states', events' := states + [Step(hash, states[|events|], e).value], events + [e];
    forall i | 0 <= i < |events'| ensures Happened(hash, states', events', i) {
      if i < |events| { assert Happened(hash, states, events, i); }
    }
  }

  /** One job from its context check to its stored result, with nothing going wrong. */
  lemma RunJob(hash: Bytes -> string, states: seq<Upload>, events: seq<Event>, j: nat)
    returns (states': seq<Upload>, events': seq<Event>)
    requires History(hash, states, events) && Quiet(hash, states[|events|], j)
    requires j < |states[|events|].plan| && DistinctNames(states[|events|].plan)
    ensures History(hash, states', events') && states'[0] == states[0]
    ensures Quiet(hash, states'[|events'|], j + 1)
    ensures states'[|events'|] == states[|events|].(pool := states'[|events'|].pool,
        stages := states'[|events'|].stages,
                                  results := states'[|events'|].results, objects := states'[|events'|].objects)
  {
    var u := states[|events|];
    NoneBusy(u.pool.slots);
    states', events' := states, events;
    var script := [PoolLoop(Check), PoolLoop(WorkerPool.Launch), CommitPart(j), CommitToc(j), Finish(j)];
    var p1 := u.pool.(admitted := true);
    var p2 := p1.(slots := p1.slots[j := Busy], next := j + 1, admitted := false);
    var u1, u2 := u.(pool := p1), u.(pool := p2);
    var u3 := u2.(stages := u.stages[j := PartVisible], objects := u.objects[u.plan[j].name := u.plan[j].bytes]);
    var u4 := u3.(stages := u3.stages[j := TocVisible], objects := u3.objects[u.plan[j].tocName := u.plan[j].toc]);
    var u5 := u4.(pool := p2.(slots := p2.slots[j := Won]), results := u.results[j := Record(hash, u.plan[j])]);
    assert Step(hash, u, script[0]) == Some(u1);
    Happens(hash, states', events', script[0]);
    states', events' := states' + [u1], events' + [script[0]];
    assert Step(hash, u1, script[1]) == Some(u2);
    Happens(hash, states', events', script[1]);
    states', events' := states' + [u2], events' + [script[1]];
    assert Step(hash, u2, script[2]) == Some(u3);
    Happens(hash, states', events', script[2]);
    states', events' := states' + [u3], events' + [script[2]];
    assert Step(hash, u3, script[3]) == Some(u4);
    Happens(hash, states', events', script[3]);
    states', events' := states' + [u4], events' + [script[3]];
    assert Step(hash, u4, script[4]) == Some(u5);
    Happens(hash, states', events', script[4]);
    states', events' := states' + [u5], events' + [script[4]];
    StepKeepsInv(hash, u, script[0]);
    StepKeepsInv(hash, u1, script[1]);
    StepKeepsInv(hash, u2, script[2]);
    StepKeepsInv(hash, u3, script[3]);
    StepKeepsInv(hash, u4, script[4]);
  }

  lemma {:induction false} RunJobs(hash: Bytes -> string, states: seq<Upload>, events: seq<Event>, j: nat)
    returns (states': seq<Upload>, events': seq<Event>)
    requires History(hash, states, events) && Quiet(hash, states[|events|], j)
    requires j <= |states[|events|].plan| && DistinctNames(states[|events|].plan)
    ensures History(hash, states', events') && states'[0] == states[0]
    ensures Quiet(hash, states'[|events'|], |states[|events|].plan|)
    ensures states'[|events'|] == states[|events|].(pool := states'[|events'|].pool,
        stages := states'[|events'|].stages,
                                  results := states'[|events'|].results, objects := states'[|events'|].objects)
    decreases |states[|events|].plan| - j
  {
    states', events' := states, events;
    if j < |states[|events|].plan| {
      states', events' := RunJob(hash, states, events, j);
      states', events' := RunJobs(hash, states', events', j + 1);
    }
  }

  /** Every plan has a run that publishes it: the safety theorems are not about an empty set of runs. */
  lemma UploadCanSucceed(hash: Bytes -> string, u: Upload, parallel: int)
    returns (states: seq<Upload>, events: seq<Event>)
    requires u == Begin(u.name, u.role, u.overwrite, u.plan, parallel, u.objects, None) && DistinctNames(u.plan)
    requires u.plan != [] && u.name != "" && ValidRole(u.role) && forall b :: hash(b) != ""
    ensures History(hash, states, events) && states[0] == u && states[|events|].phase.Succeeded?
    ensures states[|events|].manifest.Some? && WellFormed(states[|events|].manifest.value)
  {
    BeginInv(hash, u, parallel);
    states, events := [u], [];
    Happens(hash, states, events, CheckOverwrite(true));
    states, events := states + [u.(phase := Uploading)], [CheckOverwrite(true)];
    StepKeepsInv(hash, u, CheckOverwrite(true));
    states, events := RunJobs(hash, states, events, 0);
    var last := states[|events|];
    CollectPublishesIff(hash, last);
    Happens(hash, states, events, Collect);
    var collected := Step(hash, last, Collect).value;
    states, events := states + [collected], events + [Collect];
    Happens(hash, states, events, Publish(true));
    states, events := states + [Step(hash, collected, Publish(true)).value], events + [Publish(true)];
  }

  // ------------------------------------------------------- when overwriting tears

  /** The manifest lists this object with this size and digest, as a part or as a sidecar. */
  ghost predicate Lists(m: Manifest, name: string, size: nat, digest: string) {
    exists p :: p in m.parts &&
      ((p.name == name && p.compressedSize == size && p.sha256 == digest)
       || (p.toc.Some? && p.toc.value.name == name && p.toc.value.size == size && p.toc.value.sha256 == digest))
  }

  /** The plan writes these bytes to this object. */
  ghost predicate Writes(plan: seq<Planned>, name: string, bytes: Bytes) {
    exists j :: 0 <= j < |plan| &&
      ((name == plan[j].name && bytes == plan[j].bytes) || (name == plan[j].tocName && bytes == plan[j].toc))
  }

  /** Some object the manifest lists is planned with another size or digest. */
  ghost predicate Conflicts(hash: Bytes -> string, m: Manifest, plan: seq<Planned>) {
    exists name, size: nat, digest, bytes ::
      Lists(m, name, size, digest) && Writes(plan, name, bytes) && (|bytes| != size || hash(bytes) != digest)
  }

  /** Safe, object by object. */
  lemma SafeIs(hash: Bytes -> string, u: Upload)
    requires u.manifest.Some?
    ensures Safe(hash, u) <==>
      (forall name, size: nat, digest | Lists(u.manifest.value, name, size, digest) ::
          Matches(hash, u.objects, name, size, digest))
  {
    var m := u.manifest.value;
    forall p | p in m.parts ensures Lists(m, p.name, p.compressedSize, p.sha256) {
    }
    forall p | p in m.parts && p.toc.Some? ensures Lists(m, p.toc.value.name, p.toc.value.size, p.toc.value.sha256) {
    }
  }

  /** Until it is replaced, the old manifest is intact if the plan does not conflict with it. */
  ghost predicate StillIntact(hash: Bytes -> string, u: Upload, was: Manifest) {
    Inv(hash, u) && ((u.manifest == Some(was) && Safe(hash, u)) || PublishedLast(hash, u))
  }

  lemma StoringKeepsSafe(hash: Bytes -> string, u: Upload, name: string, bytes: Bytes)
    requires u.manifest.Some? && Safe(hash, u)
    requires forall size: nat, digest | Lists(u.manifest.value, name, size, digest) ::
               |bytes| == size && hash(bytes) == digest
    ensures Safe(hash, u.(objects := u.objects[name := bytes]))
  {
    SafeIs(hash, u);
    SafeIs(hash, u.(objects := u.objects[name := bytes]));
  }

  lemma StepKeepsIntact(hash: Bytes -> string, u: Upload, e: Event, was: Manifest)
    requires StillIntact(hash, u, was) && DistinctNames(u.plan) && !Conflicts(hash, was, u.plan)
        && Step(hash, u, e).Some?
    ensures StillIntact(hash, Step(hash, u, e).value, was)
  {
    var u' := Step(hash, u, e).value;
    StepKeepsInv(hash, u, e);
    if PublishedLast(hash, u) {
      StepKeepsPublishedLast(hash, u, e);
    } else if e.Publish? {
      PublishIsComplete(hash, u);
    } else if e.CommitPart? || e.CommitToc? {
      var planned := u.plan[e.j];
      var name, bytes := if e.CommitPart? then planned.name else planned.tocName,
          if e.CommitPart? then planned.bytes else planned.toc;
      assert Writes(u.plan, name, bytes);
      StoringKeepsSafe(hash, u, name, bytes);
      SameObjectsSameSafety(hash, u.(objects := u.objects[name := bytes]), u');
    } else {
      SameObjectsSameSafety(hash, u, u');
    }
  }

  lemma SameObjectsSameSafety(hash: Bytes -> string, u: Upload, u': Upload)
    requires Safe(hash, u) && u'.objects == u.objects && u'.manifest == u.manifest
    ensures Safe(hash, u')
  {
  }

  lemma {:induction false} StaysIntact(hash: Bytes -> string, states: seq<Upload>, events: seq<Event>,
      was: Manifest, k: nat)
    requires History(hash, states, events) && k <= |events| && StillIntact(hash, states[0], was)
    requires DistinctNames(states[0].plan) && !Conflicts(hash, was, states[0].plan)
    ensures StillIntact(hash, states[k], was) && states[k].plan == states[0].plan
  {
    if k > 0 {
      StaysIntact(hash, states, events, was, k - 1);
      assert Happened(hash, states, events, k - 1);
      StepKeepsInv(hash, states[k - 1], events[k - 1]);
      StepKeepsIntact(hash, states[k - 1], events[k - 1], was);
    }
  }

  /** A run whose parts are all stored while the old manifest still stands. */
  lemma AllStored(hash: Bytes -> string, u: Upload, parallel: int)
    returns (states: seq<Upload>, events: seq<Event>)
    requires u == Begin(u.name, u.role, true, u.plan, parallel, u.objects, u.manifest) && DistinctNames(u.plan)
    ensures History(hash, states, events) && states[0] == u && states[|events|].manifest == u.manifest
    ensures forall name, bytes | Writes(u.plan, name, bytes) :: Stored(states[|events|].objects, name, bytes)
  {
    BeginInv(hash, u, parallel);
    states, events := [u], [];
    Happens(hash, states, events, CheckOverwrite(true));
    states, events := states + [u.(phase := Uploading)], [CheckOverwrite(true)];
    StepKeepsInv(hash, u, CheckOverwrite(true));
    states, events := RunJobs(hash, states, events, 0);
    var last := states[|events|];
    forall name, bytes | Writes(u.plan, name, bytes) ensures Stored(last.objects, name, bytes) {
      var j :| 0 <= j < |u.plan| &&
        ((name == u.plan[j].name && bytes == u.plan[j].bytes) || (name == u.plan[j].tocName && bytes == u.plan[j].toc));
      assert SlotOk(hash, last, j);
    }
  }

  ghost predicate Tears(hash: Bytes -> string, u: Upload, states: seq<Upload>, events: seq<Event>, k: nat) {
    History(hash, states, events) && states[0] == u && k <= |events| && !Safe(hash, states[k])
  }

  /**
   When an upload can leave a torn snapshot: where a manifest is already visible and its
   objects are intact, some run reaches a state in which a listed object is missing or
   differs, if and only if it overwrites and plans another size or digest for one of them.
   */
  lemma UploadTearsIff(hash: Bytes -> string, u: Upload, parallel: int)
    requires u == Begin(u.name, u.role, u.overwrite, u.plan, parallel, u.objects, u.manifest) && DistinctNames(u.plan)
    requires u.manifest.Some? && Safe(hash, u)
    ensures (exists states: seq<Upload>, events: seq<Event>, k: nat :: Tears(hash, u, states, events, k))
            <==> u.overwrite && Conflicts(hash, u.manifest.value, u.plan)
  {
    if u.overwrite && Conflicts(hash, u.manifest.value, u.plan) {
      var states, events := AllStored(hash, u, parallel);
      ConflictIsUnsafe(hash, u, states[|events|]);
      assert Tears(hash, u, states, events, |events|);
    }
    forall states: seq<Upload>, events: seq<Event>, k: nat | Tears(hash, u, states, events, k)
      ensures u.overwrite && Conflicts(hash, u.manifest.value, u.plan)
    {
      if !(u.overwrite && Conflicts(hash, u.manifest.value, u.plan)) { SafeThroughout(hash, u, parallel,
          states, events, k); }
    }
  }

  lemma SafeThroughout(hash: Bytes -> string, u: Upload, parallel: int, states: seq<Upload>, events: seq<Event>, k: nat)
    requires u == Begin(u.name, u.role, u.overwrite, u.plan, parallel, u.objects, u.manifest) && DistinctNames(u.plan)
    requires u.manifest.Some? && Safe(hash, u) && !(u.overwrite && Conflicts(hash, u.manifest.value, u.plan))
    requires History(hash, states, events) && states[0] == u && k <= |events|
    ensures Safe(hash, states[k])
  {
    if !u.overwrite {
      ExistingSnapshotUntouched(hash, states, events, k);
      SameObjectsSameSafety(hash, u, states[k]);
    } else {
      BeginInv(hash, u, parallel);
      StaysIntact(hash, states, events, u.manifest.value, k);
      if PublishedLast(hash, states[k]) { PublishedIsSafe(hash, states[k]); }
    }
  }

  lemma ConflictIsUnsafe(hash: Bytes -> string, u: Upload, u': Upload)
    requires u.manifest.Some? && u'.manifest == u.manifest && Conflicts(hash, u.manifest.value, u.plan)
    requires forall name, bytes | Writes(u.plan, name, bytes) :: Stored(u'.objects, name, bytes)
    ensures !Safe(hash, u')
  {
    SafeIs(hash, u');
  }

  /** A store with a published one-part snapshot, about to be overwritten with other bytes. */
  function TearStart(): Upload {
    Begin("n", "full", true, [Planned("p", [2], 1, "t", [1], 0)], 1, map["p" := [1], "t" := [1]],
          Some(Manifest(MANIFEST_VERSION, "n", "full", [Part("p", 1, 1, "old", Some(TocRef("t", 1, "old", 0)))])))
  }

  lemma TearStartConflicts(hash: Bytes -> string)
    requires hash([1]) == "old"
    ensures var u := TearStart();
      Safe(hash, u) && DistinctNames(u.plan) && u.manifest.Some? && (hash([2]) != "old" ==>
          Conflicts(hash, u.manifest.value, u.plan))
  {
    var u := TearStart();
    var p := u.manifest.value.parts[0];
    assert p in u.manifest.value.parts && p.name == "p" && p.compressedSize == 1 && p.sha256 == "old";
    assert Lists(u.manifest.value, "p", 1, "old");
    assert u.plan[0].name == "p" && u.plan[0].bytes == [2];
    assert Writes(u.plan, "p", [2]);
  }

  /** With --overwrite the old manifest can stand beside a new part: safety needs the exclusion. */
  lemma OverwriteCanTear()
    ensures exists hash: Bytes -> string, states: seq<Upload>, events: seq<Event> ::
      && History(hash, states, events) && states[0].overwrite && Safe(hash, states[0])
      && DistinctNames(states[0].plan) && !Safe(hash, states[|events|])
  {
    var hash: Bytes -> string := b => if b == [1] then "old" else "new";
    TearStartConflicts(hash);
    var states, events := TornRun(hash, TearStart());
    assert History(hash, states, events) && Safe(hash, states[0]) && !Safe(hash, states[|events|]);
  }

  lemma TornRun(hash: Bytes -> string, u: Upload) returns (states: seq<Upload>, events: seq<Event>)
    requires u == Begin(u.name, u.role, true, u.plan, 1, u.objects, u.manifest) && DistinctNames(u.plan)
    requires u.manifest.Some? && Conflicts(hash, u.manifest.value, u.plan)
    ensures History(hash, states, events) && states[0] == u && !Safe(hash, states[|events|])
  {
    states, events := AllStored(hash, u, 1);
    ConflictIsUnsafe(hash, u, states[|events|]);
  }
}
