/**
 Many multipart writers on one backend, sharing one pool of part buffers.

 Here a buffer is an address into a shared memory: writers and uploads hold
 addresses, and UploadPart sends whatever the memory holds when it answers.  Every
 step of this system is, for the writer that takes it, a step of module Multipart,
 and is invisible to every other writer; that is what exclusive buffer ownership
 buys, and it carries stream preservation over to the shared pool.
 */
module SharedBuffers {
  import opened Basics
  import opened Multipart

  type BufId = nat
  type WriterId = nat

  datatype Job = Job(num: nat, buf: BufId)

  /** A multipartWriter; `finishing` holds the buffers of parts already answered. */
  datatype Handle = Handle(
    buf: BufId,
    partNum: nat,
    waiting: Option<Job>,
    inFlight: map<nat, BufId>,
    finishing: map<nat, BufId>,
    parts: seq<nat>,
    failed: bool,
    phase: Phase,
    remote: Remote,
    cut: seq<Bytes>)

  datatype Backend = Backend(
    partSize: nat,
    concurrency: nat,
    mem: map<BufId, Bytes>,
    pool: set<BufId>,
    unused: BufId,
    writers: map<WriterId, Handle>)

  /** sync.Pool.Get hands back some pooled buffer or makes a new one. */
  datatype Source = Pooled(b: BufId) | New

  datatype Action =
    | Put(w: WriterId, src: Source)
    | Do(w: WriterId, l: Label, src: Source)
    | Release(w: WriterId, n: nat)            // the worker returns its buffer and its slot
    | Evict(b: BufId)                         // the garbage collector empties part of the pool

  datatype Taken = Taken(be: Backend, buf: BufId)

  /** acquireBuf: a buffer of length zero. */
  function Acquired(be: Backend, src: Source): Option<Taken> {
    match src
    case Pooled(b) =>
      if b in be.pool then Some(Taken(be.(pool := be.pool - {b}, mem := be.mem[b := []]), b)) else None
    case New =>
      Some(Taken(be.(unused := be.unused + 1, mem := be.mem[be.unused := []]), be.unused))
  }

  function At(be: Backend, b: BufId): Bytes {
    if b in be.mem then be.mem[b] else []
  }

  function SlotsUsed(h: Handle): nat {
    |h.inFlight| + |h.finishing|
  }

  function WithHandle(be: Backend, w: WriterId, h: Handle): Backend {
    be.(writers := be.writers[w := h])
  }

  /** One step of writer w, in terms of addresses. */
  function WriterStep(be: Backend, w: WriterId, l: Label, src: Source): Option<Backend>
    requires w in be.writers
  {
    var h := be.writers[w];
    match l
    case Append(p) =>
      if h.phase.Writing? && h.waiting.None? && p != [] && |At(be, h.buf)| + |p| <= be.partSize then
        Some(be.(mem := be.mem[h.buf := At(be, h.buf) + p]))
      else None
    case Rotate =>
      var body := At(be, h.buf);
      var taken := Acquired(be, src);
      if && ((h.phase.Writing? && |body| == be.partSize) || h.phase.Closing?)
         && body != [] && h.waiting.None? && !h.failed && taken.Some?
      then
        Some(WithHandle(taken.value.be, w,
                        h.(buf := taken.value.buf, waiting := Some(Job(h.partNum, h.buf)),
                           partNum := h.partNum + 1, cut := h.cut + [body])))
      else None
    case Acquire =>
      if h.waiting.Some? && SlotsUsed(h) < be.concurrency then
        Some(WithHandle(be, w, h.(waiting := None,
                                  inFlight := h.inFlight[h.waiting.value.num := h.waiting.value.buf])))
      else None
    case Succeed(n) =>
      if n in h.inFlight && n <= MAX_PARTS && h.remote.Open? then
        Some(WithHandle(be, w,
                        h.(inFlight := h.inFlight - {n}, finishing := h.finishing[n := h.inFlight[n]],
                           parts := h.parts + [n],
                           remote := Open(h.remote.stored[n := At(be, h.inFlight[n])]))))
      else None
    case Fail(n, landed) =>
      if n in h.inFlight && h.remote.Open? then
        Some(WithHandle(be, w,
                        h.(inFlight := h.inFlight - {n}, finishing := h.finishing[n := h.inFlight[n]],
                           failed := true,
                           remote := if landed then Open(h.remote.stored[n := At(be, h.inFlight[n])])
                                     else h.remote)))
      else None
    case BeginClose =>
      if h.phase.Writing? && h.waiting.None? then Some(WithHandle(be, w, h.(phase := Closing))) else None
    case FinishClose(accepted, reaped) =>
      if && h.phase.Closing? && h.waiting.None? && SlotsUsed(h) == 0
         && (h.failed || At(be, h.buf) == []) && h.remote.Open?
      then
        if !h.failed && accepted then
          Some(WithHandle(be, w, h.(phase := Finished(true),
                                    remote := Completed(Assemble(h.remote.stored, SortParts(h.parts))))))
        else
          Some(WithHandle(be, w, h.(phase := Finished(false), remote := Discard(h.remote, reaped))))
      else None
    case BeginAbort =>
      if h.phase.Writing? && h.waiting.None? then
        Some(WithHandle(be, w, h.(phase := Aborting, failed := true)))
      else None
    case FinishAbort(reaped) =>
      if h.phase.Aborting? && SlotsUsed(h) == 0 then
        Some(WithHandle(be, w, h.(phase := Finished(false), remote := Discard(h.remote, reaped))))
      else None
  }

  function Act(be: Backend, a: Action): Option<Backend> {
    match a
    case Put(w, src) =>
      var taken := Acquired(be, src);
      if w !in be.writers && taken.Some? then
        Some(WithHandle(taken.value.be, w,
                        Handle(taken.value.buf, 1, None, map[], map[], [], false, Writing, Open(map[]), [])))
      else None
    case Do(w, l, src) =>
      if w in be.writers then WriterStep(be, w, l, src) else None
    case Release(w, n) =>
      if w in be.writers && n in be.writers[w].finishing then
        var h := be.writers[w];
        var be' := WithHandle(be, w, h.(finishing := h.finishing - {n}));
        Some(be'.(pool := be.pool + {h.finishing[n]}))
      else None
    case Evict(b) =>
      Some(be.(pool := be.pool - {b}))
  }

  // ---------------------------------------------------------------- ownership

  datatype Place =
    | InPool
    | Current(w: WriterId)
    | Waiting(w: WriterId)
    | Flying(w: WriterId, n: nat)
    | Finishing(w: WriterId, n: nat)

  ghost predicate Holds(be: Backend, p: Place, b: BufId) {
    match p
    case InPool => b in be.pool
    case Current(w) => w in be.writers && be.writers[w].buf == b
    case Waiting(w) => w in be.writers && be.writers[w].waiting.Some? && be.writers[w].waiting.value.buf == b
    case Flying(w, n) => w in be.writers && n in be.writers[w].inFlight && be.writers[w].inFlight[n] == b
    case Finishing(w, n) => w in be.writers && n in be.writers[w].finishing && be.writers[w].finishing[n] == b
  }

  /** No buffer is in two places. */
  ghost predicate Exclusive(be: Backend) {
    forall p: Place, q: Place, b: BufId :: Holds(be, p, b) && Holds(be, q, b) ==> p == q
  }

  ghost predicate Allocated(be: Backend) {
    forall p: Place, b: BufId :: Holds(be, p, b) ==> b < be.unused && b in be.mem
  }

  ghost predicate SlotsBounded(be: Backend) {
    forall w | w in be.writers :: SlotsUsed(be.writers[w]) <= be.concurrency
  }

  ghost predicate Inv(be: Backend) {
    && 0 < be.partSize && 0 < be.concurrency
    && Exclusive(be) && Allocated(be) && SlotsBounded(be)
  }

  /** A step moves the buffers in `dest` to the places named there, and no other. */
  ghost predicate Moved(be: Backend, be': Backend, dest: map<BufId, Place>) {
    forall p: Place, b: BufId :: Holds(be', p, b) ==> if b in dest then p == dest[b] else Holds(be, p, b)
  }

  lemma MovedKeepsExclusive(be: Backend, be': Backend, dest: map<BufId, Place>)
    requires Exclusive(be) && Moved(be, be', dest)
    ensures Exclusive(be')
  {
  }

  lemma MovedKeepsAllocated(be: Backend, be': Backend, dest: map<BufId, Place>)
    requires Allocated(be) && Moved(be, be', dest) && be.unused <= be'.unused && be.mem.Keys <= be'.mem.Keys
    requires forall b | b in dest :: b < be'.unused && b in be'.mem
    ensures Allocated(be')
  {
  }

  /** The buffers a step moves, and where to. */
  ghost function Moves(be: Backend, a: Action): map<BufId, Place> {
    match a
    case Put(w, src) => map[SourceBuf(be, src) := Current(w)]
    case Do(w, l, src) =>
      if w !in be.writers then map[]
      else
        var h := be.writers[w];
        if l.Rotate? then map[SourceBuf(be, src) := Current(w)][h.buf := Waiting(w)]
        else if l.Acquire? && h.waiting.Some? then
          map[h.waiting.value.buf := Flying(w, h.waiting.value.num)]
        else if (l.Succeed? || l.Fail?) && l.n in h.inFlight then map[h.inFlight[l.n] := Finishing(w, l.n)]
        else map[]
    case Release(w, n) =>
      if w in be.writers && n in be.writers[w].finishing then map[be.writers[w].finishing[n] := InPool]
      else map[]
    case Evict(_) => map[]
  }

  ghost function SourceBuf(be: Backend, src: Source): BufId {
    if src.Pooled? then src.b else be.unused
  }

  lemma PutMoves(be: Backend, w: WriterId, src: Source)
    requires Inv(be) && Act(be, Put(w, src)).Some?
    ensures Moved(be, Act(be, Put(w, src)).value, Moves(be, Put(w, src)))
  {
    var be', dest := Act(be, Put(w, src)).value, Moves(be, Put(w, src));
    assert src.Pooled? ==> Holds(be, InPool, src.b);
    forall p: Place, b: BufId | Holds(be', p, b) ensures if b in dest then p == dest[b] else Holds(be, p, b) {
      if p != Current(w) { assert Holds(be, p, b); }
    }
  }

  lemma RotateMoves(be: Backend, w: WriterId, src: Source)
    requires Inv(be) && Act(be, Do(w, Rotate, src)).Some?
    ensures Moved(be, Act(be, Do(w, Rotate, src)).value, Moves(be, Do(w, Rotate, src)))
  {
    var be', dest := Act(be, Do(w, Rotate, src)).value, Moves(be, Do(w, Rotate, src));
    assert src.Pooled? ==> Holds(be, InPool, src.b);
    assert Holds(be, Current(w), be.writers[w].buf);
    forall p: Place, b: BufId | Holds(be', p, b) ensures if b in dest then p == dest[b] else Holds(be, p, b) {
      if p != Current(w) && p != Waiting(w) { assert Holds(be, p, b); }
    }
  }

  lemma AcquireMoves(be: Backend, w: WriterId, src: Source)
    requires Inv(be) && Act(be, Do(w, Acquire, src)).Some?
    ensures Moved(be, Act(be, Do(w, Acquire, src)).value, Moves(be, Do(w, Acquire, src)))
  {
    var be', dest := Act(be, Do(w, Acquire, src)).value, Moves(be, Do(w, Acquire, src));
    assert Holds(be, Waiting(w), be.writers[w].waiting.value.buf);
    forall p: Place, b: BufId | Holds(be', p, b) ensures if b in dest then p == dest[b] else Holds(be, p, b) {
      if p != Flying(w, be.writers[w].waiting.value.num) { assert Holds(be, p, b); }
    }
  }

  lemma AnswerMoves(be: Backend, w: WriterId, l: Label, src: Source)
    requires Inv(be) && (l.Succeed? || l.Fail?) && Act(be, Do(w, l, src)).Some?
    ensures Moved(be, Act(be, Do(w, l, src)).value, Moves(be, Do(w, l, src)))
  {
    var be', dest := Act(be, Do(w, l, src)).value, Moves(be, Do(w, l, src));
    assert Holds(be, Flying(w, l.n), be.writers[w].inFlight[l.n]);
    forall p: Place, b: BufId | Holds(be', p, b) ensures if b in dest then p == dest[b] else Holds(be, p, b) {
      if p != Finishing(w, l.n) { assert Holds(be, p, b); }
    }
  }

  lemma ReleaseMoves(be: Backend, w: WriterId, n: nat)
    requires Inv(be) && Act(be, Release(w, n)).Some?
    ensures Moved(be, Act(be, Release(w, n)).value, Moves(be, Release(w, n)))
  {
    var be', dest := Act(be, Release(w, n)).value, Moves(be, Release(w, n));
    assert Holds(be, Finishing(w, n), be.writers[w].finishing[n]);
    forall p: Place, b: BufId | Holds(be', p, b) ensures if b in dest then p == dest[b] else Holds(be, p, b) {
      if p != InPool { assert Holds(be, p, b); }
    }
  }

  lemma QuietEffect(be: Backend, w: WriterId, l: Label, src: Source)
    requires Act(be, Do(w, l, src)).Some?
    requires l.Append? || l.BeginClose? || l.FinishClose? || l.BeginAbort? || l.FinishAbort?
    ensures w in be.writers
    ensures var be' := Act(be, Do(w, l, src)).value;
      && w in be'.writers && be'.pool == be.pool && be'.writers == be.writers[w := be'.writers[w]]
      && SameBuffers(be.writers[w], be'.writers[w])
  {
  }

  ghost predicate SameBuffers(h: Handle, h': Handle) {
    h'.buf == h.buf && h'.waiting == h.waiting && h'.inFlight == h.inFlight && h'.finishing == h.finishing
  }

  lemma QuietMoves(be: Backend, w: WriterId, l: Label, src: Source)
    requires Inv(be) && Act(be, Do(w, l, src)).Some?
    requires l.Append? || l.BeginClose? || l.FinishClose? || l.BeginAbort? || l.FinishAbort?
    ensures Moved(be, Act(be, Do(w, l, src)).value, map[])
  {
    QuietEffect(be, w, l, src);
    hide Act, Inv;
  }

  lemma ActMoves(be: Backend, a: Action)
    requires Inv(be) && Act(be, a).Some?
    ensures Moved(be, Act(be, a).value, Moves(be, a))
  {
    match a
    case Put(w, src) => PutMoves(be, w, src);
    case Do(w, l, src) =>
      match l {
        case Rotate => RotateMoves(be, w, src);
        case Acquire => AcquireMoves(be, w, src);
        case Succeed(_) => AnswerMoves(be, w, l, src);
        case Fail(_, _) => AnswerMoves(be, w, l, src);
        case _ => QuietMoves(be, w, l, src);
      }
    case Release(w, n) => ReleaseMoves(be, w, n);
    case Evict(_) =>
  }

  lemma CountAfterUpdate<V>(m: map<nat, V>, n: nat, v: V)
    ensures |m[n := v]| <= |m| + 1
  {
    assert m[n := v].Keys == m.Keys + {n};
  }

  /** Append and Rotate touch memory; every other step changes w's handle alone. */
  lemma OnlyHandle(be: Backend, w: WriterId, l: Label, src: Source)
    requires w in be.writers && WriterStep(be, w, l, src).Some? && !l.Append? && !l.Rotate?
    ensures var be' := WriterStep(be, w, l, src).value;
      && be'.writers == be.writers[w := be'.writers[w]]
      && be' == be.(writers := be'.writers)
  {
  }

  lemma AppendEffect(be: Backend, w: WriterId, l: Label, src: Source)
    requires w in be.writers && WriterStep(be, w, l, src).Some? && l.Append?
    ensures WriterStep(be, w, l, src).value
         == be.(mem := be.mem[be.writers[w].buf := At(be, be.writers[w].buf) + l.p])
  {
  }

  lemma RotateEffect(be: Backend, w: WriterId, l: Label, src: Source)
    requires w in be.writers && WriterStep(be, w, l, src).Some? && l.Rotate?
    ensures Acquired(be, src).Some?
    ensures var be', taken, h := WriterStep(be, w, l, src).value, Acquired(be, src).value, be.writers[w];
      && be' == WithHandle(taken.be, w, be'.writers[w])
      && be'.writers[w].inFlight == h.inFlight && be'.writers[w].finishing == h.finishing
  {
  }

  ghost predicate Grows(be: Backend, be': Backend) {
    && be'.partSize == be.partSize && be'.concurrency == be.concurrency
    && be.unused <= be'.unused && be.mem.Keys <= be'.mem.Keys
    && be.writers.Keys <= be'.writers.Keys
  }

  lemma ActGrows(be: Backend, a: Action)
    requires Act(be, a).Some?
    ensures Grows(be, Act(be, a).value)
  {
    if a.Do? {
      if a.l.Append? { AppendEffect(be, a.w, a.l, a.src); }
      else if a.l.Rotate? { RotateEffect(be, a.w, a.l, a.src); }
      else { OnlyHandle(be, a.w, a.l, a.src); }
    }
  }

  ghost predicate GetsNew(a: Action) {
    (a.Put? || (a.Do? && a.l.Rotate?)) && a.src.New?
  }

  lemma NewIsAllocated(be: Backend, a: Action)
    requires Act(be, a).Some? && GetsNew(a)
    ensures be.unused < Act(be, a).value.unused && be.unused in Act(be, a).value.mem
  {
    if a.Do? { RotateEffect(be, a.w, a.l, a.src); }
  }

  lemma MovedWereHeld(be: Backend, a: Action, b: BufId)
    requires Act(be, a).Some? && b in Moves(be, a)
    ensures (exists p: Place :: Holds(be, p, b)) || (GetsNew(a) && b == be.unused)
  {
    match a
    case Put(w, src) =>
      assert src.Pooled? ==> Holds(be, InPool, src.b);
    case Do(w, l, src) =>
      var h := be.writers[w];
      if l.Rotate? {
        RotateEffect(be, w, l, src);
        assert src.Pooled? ==> Holds(be, InPool, src.b);
        assert Holds(be, Current(w), h.buf);
      } else if l.Acquire? {
        assert Holds(be, Waiting(w), h.waiting.value.buf);
      } else {
        assert Holds(be, Flying(w, l.n), h.inFlight[l.n]);
      }
    case Release(w, n) =>
      assert Holds(be, Finishing(w, n), be.writers[w].finishing[n]);
    case Evict(_) =>
  }

  lemma AcquireSlots(be: Backend, w: WriterId, src: Source)
    requires w in be.writers && WriterStep(be, w, Acquire, src).Some?
    ensures SlotsUsed(WriterStep(be, w, Acquire, src).value.writers[w]) <= be.concurrency
  {
    var h := be.writers[w];
    CountAfterUpdate(h.inFlight, h.waiting.value.num, h.waiting.value.buf);
  }

  lemma AnswerSlots(be: Backend, w: WriterId, l: Label, src: Source)
    requires w in be.writers && (l.Succeed? || l.Fail?) && WriterStep(be, w, l, src).Some?
    ensures SlotsUsed(WriterStep(be, w, l, src).value.writers[w]) <= SlotsUsed(be.writers[w])
  {
    var h := be.writers[w];
    RemovedIsSmaller(h.inFlight, l.n);
    CountAfterUpdate(h.finishing, l.n, h.inFlight[l.n]);
  }

  lemma QuietSlots(be: Backend, w: WriterId, l: Label, src: Source)
    requires w in be.writers && WriterStep(be, w, l, src).Some?
    requires !l.Acquire? && !l.Succeed? && !l.Fail?
    ensures SlotsUsed(WriterStep(be, w, l, src).value.writers[w]) == SlotsUsed(be.writers[w])
  {
    if l.Rotate? { RotateEffect(be, w, l, src); }
  }

  lemma OtherHandlesKept(be: Backend, w: WriterId, l: Label, src: Source, x: WriterId)
    requires w in be.writers && WriterStep(be, w, l, src).Some?
    ensures var be' := WriterStep(be, w, l, src).value;
      be'.writers.Keys == be.writers.Keys && (x in be.writers && x != w ==> be'.writers[x] == be.writers[x])
  {
    if l.Append? { AppendEffect(be, w, l, src); }
    else if l.Rotate? { RotateEffect(be, w, l, src); }
    else { OnlyHandle(be, w, l, src); }
  }

  lemma WriterStepKeepsSlots(be: Backend, w: WriterId, l: Label, src: Source)
    requires Inv(be) && w in be.writers && WriterStep(be, w, l, src).Some?
    ensures SlotsBounded(WriterStep(be, w, l, src).value)
  {
    var be' := WriterStep(be, w, l, src).value;
    assert be'.concurrency == be.concurrency by { ActGrows(be, Do(w, l, src)); }
    forall x | x in be'.writers ensures SlotsUsed(be'.writers[x]) <= be'.concurrency {
      OtherHandlesKept(be, w, l, src, x);
      if x == w {
        if l.Acquire? { AcquireSlots(be, w, src); }
        else if l.Succeed? || l.Fail? { AnswerSlots(be, w, l, src); }
        else { QuietSlots(be, w, l, src); }
      }
    }
  }

  lemma ActKeepsInv(be: Backend, a: Action)
    requires Inv(be) && Act(be, a).Some?
    ensures Inv(Act(be, a).value)
  {
    var be' := Act(be, a).value;
    ActMoves(be, a);
    ActGrows(be, a);
    MovedKeepsExclusive(be, be', Moves(be, a));
    forall b | b in Moves(be, a) ensures b < be'.unused && b in be'.mem {
      MovedWereHeld(be, a, b);
      if GetsNew(a) { NewIsAllocated(be, a); }
    }
    MovedKeepsAllocated(be, be', Moves(be, a));
    match a
    case Put(_, _) =>
    case Do(w, l, src) => WriterStepKeepsSlots(be, w, l, src);
    case Release(w, n) => RemovedIsSmaller(be.writers[w].finishing, n);
    case Evict(_) =>
  }

  // --------------------------------------------------------------- refinement

  /** Writer w as module Multipart sees it: addresses replaced by their contents. */
  ghost function View(be: Backend, w: WriterId): Writer
    requires w in be.writers
  {
    var h := be.writers[w];
    Writer(be.partSize, be.concurrency, At(be, h.buf), h.partNum,
           if h.waiting.Some? then Some(Pending(h.waiting.value.num, At(be, h.waiting.value.buf))) else None,
           map n | n in h.inFlight :: At(be, h.inFlight[n]),
           h.parts, h.failed, h.phase, h.remote, h.cut)
  }

  /** Two backends in which w has the same handle and its buffers the same contents. */
  lemma SameView(be: Backend, be': Backend, w: WriterId)
    requires w in be.writers && w in be'.writers
    requires be'.partSize == be.partSize && be'.concurrency == be.concurrency
    requires be'.writers[w] == be.writers[w].(finishing := be'.writers[w].finishing)
    requires At(be', be.writers[w].buf) == At(be, be.writers[w].buf)
    requires be.writers[w].waiting.Some? ==>
               At(be', be.writers[w].waiting.value.buf) == At(be, be.writers[w].waiting.value.buf)
    requires forall n | n in be.writers[w].inFlight ::
               At(be', be.writers[w].inFlight[n]) == At(be, be.writers[w].inFlight[n])
    ensures View(be', w) == View(be, w)
  {
  }

  /** The one buffer whose contents a step changes, and the place it was in. */
  ghost predicate OnlyChanges(be: Backend, be': Backend, b: BufId) {
    forall x: BufId :: x != b ==> At(be', x) == At(be, x)
  }

  lemma Untouched(be: Backend, be': Backend, w: WriterId, b: BufId)
    requires Inv(be) && w in be.writers && OnlyChanges(be, be', b)
    requires w in be'.writers && be'.partSize == be.partSize && be'.concurrency == be.concurrency
    requires be'.writers[w] == be.writers[w].(finishing := be'.writers[w].finishing)
    requires !Holds(be, Current(w), b) && !Holds(be, Waiting(w), b)
    requires forall n :: !Holds(be, Flying(w, n), b)
    ensures View(be', w) == View(be, w)
  {
    assert forall n | n in be.writers[w].inFlight :: Holds(be, Flying(w, n), be.writers[w].inFlight[n]);
    assert be.writers[w].waiting.Some? ==> Holds(be, Waiting(w), be.writers[w].waiting.value.buf);
    SameView(be, be', w);
  }

  /** The buffer a step writes to, if any, was the acting writer's own, pooled or new. */
  lemma WritesOwn(be: Backend, a: Action)
    requires Inv(be) && Act(be, a).Some?
    ensures Act(be, a).value.mem != be.mem ==>
      && OnlyChanges(be, Act(be, a).value, Target(be, a))
      && (Holds(be, InPool, Target(be, a)) || Target(be, a) == be.unused
          || (a.Do? && Holds(be, Current(a.w), Target(be, a))))
  {
    if a.Do? {
      if a.l.Append? { AppendEffect(be, a.w, a.l, a.src); }
      else if a.l.Rotate? { RotateEffect(be, a.w, a.l, a.src); }
      else { OnlyHandle(be, a.w, a.l, a.src); }
    }
  }

  ghost function Target(be: Backend, a: Action): BufId {
    match a
    case Put(_, src) => SourceBuf(be, src)
    case Do(w, l, src) => if l.Append? && w in be.writers then be.writers[w].buf else SourceBuf(be, src)
    case _ => be.unused
  }

  /** A step of another writer, of a worker's clean-up or of the pool is invisible to w. */
  lemma OthersUndisturbed(be: Backend, a: Action, w: WriterId)
    requires Inv(be) && Act(be, a).Some? && w in be.writers
    requires a.Do? ==> a.w != w
    ensures w in Act(be, a).value.writers && View(Act(be, a).value, w) == View(be, w)
  {
    var be' := Act(be, a).value;
    ActGrows(be, a);
    if a.Do? { OtherHandlesKept(be, a.w, a.l, a.src, w); }
    WritesOwn(be, a);
    if be'.mem == be.mem {
      SameView(be, be', w);
    } else {
      Untouched(be, be', w, Target(be, a));
    }
  }

  lemma SameSize<V, W>(m: map<nat, V>, m': map<nat, W>)
    requires m.Keys == m'.Keys
    ensures |m| == |m'|
  {
    assert |m| == |m.Keys| && |m'| == |m'.Keys|;
  }

  lemma AppendRefines(be: Backend, w: WriterId, l: Label, src: Source)
    requires Inv(be) && w in be.writers && WriterStep(be, w, l, src).Some? && l.Append?
    ensures Step(View(be, w), l) == Some(View(WriterStep(be, w, l, src).value, w))
  {
    AppendEffect(be, w, l, src);
    var h, be' := be.writers[w], WriterStep(be, w, l, src).value;
    assert Holds(be, Current(w), h.buf);
    assert h.waiting.None?;
    assert View(be', w).inFlight == View(be, w).inFlight by {
      forall n | n in h.inFlight ensures At(be', h.inFlight[n]) == At(be, h.inFlight[n]) {
        assert Holds(be, Flying(w, n), h.inFlight[n]);
      }
    }
  }

  lemma RotateRefines(be: Backend, w: WriterId, l: Label, src: Source)
    requires Inv(be) && w in be.writers && WriterStep(be, w, l, src).Some? && l.Rotate?
    ensures Step(View(be, w), l) == Some(View(WriterStep(be, w, l, src).value, w))
  {
    RotateEffect(be, w, l, src);
    var h, be', x := be.writers[w], WriterStep(be, w, l, src).value, SourceBuf(be, src);
    assert src.Pooled? ==> Holds(be, InPool, x);
    assert Holds(be, Current(w), h.buf);
    assert View(be', w).inFlight == View(be, w).inFlight by {
      forall n | n in h.inFlight ensures At(be', h.inFlight[n]) == At(be, h.inFlight[n]) {
        assert Holds(be, Flying(w, n), h.inFlight[n]);
      }
    }
  }

  lemma AcquireRefines(be: Backend, w: WriterId, l: Label, src: Source)
    requires Inv(be) && w in be.writers && WriterStep(be, w, l, src).Some? && l.Acquire?
    ensures Step(View(be, w), l) == Some(View(WriterStep(be, w, l, src).value, w))
  {
    var v := View(be, w);
    SameSize(v.inFlight, be.writers[w].inFlight);
    assert View(WriterStep(be, w, l, src).value, w).inFlight
        == v.inFlight[v.waiting.value.num := v.waiting.value.body];
  }

  lemma SucceedRefines(be: Backend, w: WriterId, l: Label, src: Source)
    requires Inv(be) && w in be.writers && WriterStep(be, w, l, src).Some? && l.Succeed?
    ensures Step(View(be, w), l) == Some(View(WriterStep(be, w, l, src).value, w))
  {
    assert View(WriterStep(be, w, l, src).value, w).inFlight == View(be, w).inFlight - {l.n};
  }

  lemma FailRefines(be: Backend, w: WriterId, l: Label, src: Source)
    requires Inv(be) && w in be.writers && WriterStep(be, w, l, src).Some? && l.Fail?
    ensures Step(View(be, w), l) == Some(View(WriterStep(be, w, l, src).value, w))
  {
    assert View(WriterStep(be, w, l, src).value, w).inFlight == View(be, w).inFlight - {l.n};
  }

  lemma BeginRefines(be: Backend, w: WriterId, l: Label, src: Source)
    requires Inv(be) && w in be.writers && WriterStep(be, w, l, src).Some? && (l.BeginClose? || l.BeginAbort?)
    ensures Step(View(be, w), l) == Some(View(WriterStep(be, w, l, src).value, w))
  {
    assert View(WriterStep(be, w, l, src).value, w).inFlight == View(be, w).inFlight;
  }

  lemma FinishRefines(be: Backend, w: WriterId, l: Label, src: Source)
    requires Inv(be) && w in be.writers && WriterStep(be, w, l, src).Some? && (l.FinishClose? || l.FinishAbort?)
    ensures Step(View(be, w), l) == Some(View(WriterStep(be, w, l, src).value, w))
  {
    var h := be.writers[w];
    assert |h.inFlight| == 0;
    SameSize(View(be, w).inFlight, h.inFlight);
    assert View(be, w).inFlight == map[];
    assert View(WriterStep(be, w, l, src).value, w).inFlight == View(be, w).inFlight;
  }

  /** Refinement: through the shared memory, a writer takes exactly its own steps. */
  lemma WriterStepRefines(be: Backend, w: WriterId, l: Label, src: Source)
    requires Inv(be) && w in be.writers && Act(be, Do(w, l, src)).Some?
    ensures Step(View(be, w), l) == Some(View(Act(be, Do(w, l, src)).value, w))
  {
    match l
    case Append(_) => AppendRefines(be, w, l, src);
    case Rotate => RotateRefines(be, w, l, src);
    case Acquire => AcquireRefines(be, w, l, src);
    case Succeed(_) => SucceedRefines(be, w, l, src);
    case Fail(_, _) => FailRefines(be, w, l, src);
    case BeginClose => BeginRefines(be, w, l, src);
    case BeginAbort => BeginRefines(be, w, l, src);
    case FinishClose(_, _) => FinishRefines(be, w, l, src);
    case FinishAbort(_) => FinishRefines(be, w, l, src);
  }

  // --------------------------------------------------------------------- runs

  function Start(partSize: nat, concurrency: nat): Backend {
    Backend(partSize, concurrency, map[], {}, 0, map[])
  }

  ghost predicate History(states: seq<Backend>, acts: seq<Action>) {
    && |states| == |acts| + 1
    && forall i :: 0 <= i < |acts| ==> Goes(states, acts, i)
  }

  ghost predicate Goes(states: seq<Backend>, acts: seq<Action>, i: nat)
    requires i < |acts| < |states|
  {
    Act(states[i], acts[i]) == Some(states[i + 1])
  }

  /** `acts`, by any number of writers in any order, take a fresh backend to `be`. */
  ghost predicate Arrives(partSize: nat, concurrency: nat, acts: seq<Action>, be: Backend) {
    && 0 < partSize && 0 < concurrency
    && exists states :: History(states, acts) && states[0] == Start(partSize, concurrency) && states[|acts|] == be
  }

  /** The steps writer w took since its Put. */
  function Project(acts: seq<Action>, w: WriterId): seq<Label> {
    if acts == [] then []
    else
      var a, before := acts[|acts| - 1], Project(acts[..|acts| - 1], w);
      if a.Do? && a.w == w then before + [a.l]
      else if a.Put? && a.w == w then []
      else before
  }

  ghost predicate WritersReached(be: Backend, acts: seq<Action>) {
    forall w | w in be.writers :: Reached(be.partSize, be.concurrency, Project(acts, w), View(be, w))
  }

  lemma ActKeepsReached(be: Backend, acts: seq<Action>, a: Action)
    requires Inv(be) && WritersReached(be, acts) && Act(be, a).Some?
    ensures WritersReached(Act(be, a).value, acts + [a])
  {
    var be' := Act(be, a).value;
    ActGrows(be, a);
    assert (acts + [a])[..|acts|] == acts;
    forall w | w in be'.writers
      ensures Reached(be'.partSize, be'.concurrency, Project(acts + [a], w), View(be', w))
    {
      if a.Do? && a.w == w {
        WriterStepRefines(be, w, a.l, a.src);
        ReachedSnoc(be.partSize, be.concurrency, Project(acts, w), View(be, w), a.l);
      } else if w in be.writers {
        OthersUndisturbed(be, a, w);
      } else {
        FirstSeen(be, a, w);
        ReachedInit(be.partSize, be.concurrency);
      }
    }
  }

  lemma FirstSeen(be: Backend, a: Action, w: WriterId)
    requires Act(be, a).Some? && w !in be.writers && w in Act(be, a).value.writers
    ensures a.Put? && a.w == w
    ensures View(Act(be, a).value, w) == Multipart.Init(be.partSize, be.concurrency)
  {
    if a.Do? { OtherHandlesKept(be, a.w, a.l, a.src, w); }
  }

  lemma {:induction false} HistoryFacts(states: seq<Backend>, acts: seq<Action>)
    requires History(states, acts)
    requires states[0] == Start(states[0].partSize, states[0].concurrency)
    requires 0 < states[0].partSize && 0 < states[0].concurrency
    ensures Inv(states[|acts|]) && WritersReached(states[|acts|], acts)
    ensures states[|acts|].partSize == states[0].partSize && states[|acts|].concurrency == states[0].concurrency
  {
    if acts != [] {
      var k := |acts| - 1;
      var states', acts' := states[..k + 1], acts[..k];
      forall i | 0 <= i < k ensures Goes(states', acts', i) { assert Goes(states, acts, i); }
      HistoryFacts(states', acts');
      assert Goes(states, acts, k);
      ActKeepsInv(states[k], acts[k]);
      ActGrows(states[k], acts[k]);
      ActKeepsReached(states[k], acts', acts[k]);
      assert acts == acts' + [acts[k]];
    }
  }

  /** Every reachable state: one holder per buffer, bounded slots, and each writer on a run of its own. */
  lemma SharedPoolIsSafe(partSize: nat, concurrency: nat, acts: seq<Action>, be: Backend)
    requires Arrives(partSize, concurrency, acts, be)
    ensures Inv(be) && be.partSize == partSize && be.concurrency == concurrency
    ensures WritersReached(be, acts)
  {
    var states :| History(states, acts) && states[0] == Start(partSize, concurrency) && states[|acts|] == be;
    HistoryFacts(states, acts);
  }

  /** Stream preservation for every writer, whatever the others do to the shared pool. */
  lemma SharedStreamPreserved(partSize: nat, concurrency: nat, acts: seq<Action>, be: Backend, w: WriterId)
    requires Arrives(partSize, concurrency, acts, be) && w in be.writers
    ensures be.writers[w].phase == Finished(true) <==>
            be.writers[w].remote == Completed(Multipart.Written(Project(acts, w)))
    ensures HasTrouble(Project(acts, w)) ==> !be.writers[w].remote.Completed?
  {
    SharedPoolIsSafe(partSize, concurrency, acts, be);
    StreamPreserved(partSize, concurrency, Project(acts, w), View(be, w));
  }

  /** The buffers writer w has taken out of the pool and not given back. */
  ghost function CheckedOut(h: Handle): set<BufId> {
    {h.buf} + (if h.waiting.Some? then {h.waiting.value.buf} else {}) + h.inFlight.Values + h.finishing.Values
  }

  lemma {:induction false} ValuesAtMost(m: map<nat, BufId>)
    ensures |m.Values| <= |m|
  {
    if m != map[] {
      var k :| k in m;
      var rest := m - {k};
      RemovedIsSmaller(m, k);
      ValuesAtMost(rest);
      assert m.Values == rest.Values + {m[k]} by {
        forall v | v in m.Values ensures v in rest.Values + {m[k]} {
          var n :| n in m && m[n] == v;
          assert n == k || (n in rest && rest[n] == v);
        }
      }
    }
  }

  /** At most `concurrency` uploads in flight and `concurrency + 2` buffers out per writer. */
  lemma BoundedMemory(partSize: nat, concurrency: nat, acts: seq<Action>, be: Backend, w: WriterId)
    requires Arrives(partSize, concurrency, acts, be) && w in be.writers
    ensures |be.writers[w].inFlight| <= concurrency
    ensures |CheckedOut(be.writers[w])| <= concurrency + 2
    ensures CheckedOut(be.writers[w]) !! be.pool
  {
    SharedPoolIsSafe(partSize, concurrency, acts, be);
    var h := be.writers[w];
    ValuesAtMost(h.inFlight);
    ValuesAtMost(h.finishing);
    CheckedOutNotPooled(be, w);
  }

  lemma CheckedOutNotPooled(be: Backend, w: WriterId)
    requires Inv(be) && w in be.writers
    ensures CheckedOut(be.writers[w]) !! be.pool
  {
    var h := be.writers[w];
    forall b | b in CheckedOut(h) ensures b !in be.pool {
      var p := if b == h.buf then Current(w)
               else if h.waiting.Some? && b == h.waiting.value.buf then Waiting(w)
               else if b in h.inFlight.Values then (var n :| n in h.inFlight && h.inFlight[n] == b; Flying(w, n))
               else (var n :| n in h.finishing && h.finishing[n] == b; Finishing(w, n));
      assert Holds(be, p, b) && (Holds(be, InPool, b) ==> p == InPool);
    }
  }

  // -------------------------------------------------------- the bound is reached

  lemma ArrivesSnoc(partSize: nat, concurrency: nat, acts: seq<Action>, be: Backend, a: Action)
    requires Arrives(partSize, concurrency, acts, be) && Act(be, a).Some?
    ensures Arrives(partSize, concurrency, acts + [a], Act(be, a).value)
  {
    var states :| History(states, acts) && states[0] == Start(partSize, concurrency) && states[|acts|] == be;
    var states' := states + [Act(be, a).value];
    forall i | 0 <= i < |acts + [a]| ensures Goes(states', acts + [a], i) {
      if i < |acts| { assert Goes(states, acts, i); }
    }
    assert History(states', acts + [a]);
  }

  /** Parts 1..k are in flight, part n in buffer n - 1. */
  ghost predicate FliesInTurn(h: Handle, k: nat) {
    h.inFlight.Keys == UpTo(k) && forall n | n in h.inFlight :: h.inFlight[n] + 1 == n
  }

  /** One writer with k parts in flight, each in a buffer of its own, and an empty current buffer. */
  ghost predicate Loaded(be: Backend, k: nat) {
    && 0 in be.writers && be.unused == k + 1 && At(be, k) == []
    && var h := be.writers[0];
      && h.phase.Writing? && h.waiting.None? && !h.failed && h.buf == k && h.partNum == k + 1
      && h.finishing == map[] && FliesInTurn(h, k)
  }

  /** A full buffer is rotated out: the part waits and a new buffer is taken. */
  lemma {:induction false} RotateFull(partSize: nat, concurrency: nat, acts: seq<Action>, be: Backend, k: nat)
    returns (acts': seq<Action>, be': Backend)
    requires Arrives(partSize, concurrency, acts, be) && Loaded(be, k) && be.partSize == partSize
    ensures Arrives(partSize, concurrency, acts', be') && 0 in be'.writers
    ensures be'.unused == k + 2 && At(be', k + 1) == []
    ensures be'.partSize == be.partSize && be'.concurrency == be.concurrency
    ensures be'.writers[0] == be.writers[0].(buf := k + 1, waiting := Some(Job(k + 1, k)), partNum := k + 2,
                                            cut := be'.writers[0].cut)
  {
    var body: Bytes := seq(partSize, _ => 0);
    var append, rotate := Do(0, Append(body), New), Do(0, Rotate, New);
    ArrivesSnoc(partSize, concurrency, acts, be, append);
    var full := Act(be, append).value;
    ArrivesSnoc(partSize, concurrency, acts + [append], full, rotate);
    acts', be' := acts + [append] + [rotate], Act(full, rotate).value;
  }

  lemma FirstPut(partSize: nat, concurrency: nat) returns (acts: seq<Action>, be: Backend)
    requires 0 < partSize && 0 < concurrency
    ensures Arrives(partSize, concurrency, acts, be) && Loaded(be, 0)
    ensures be.partSize == partSize && be.concurrency == concurrency
  {
    var states := [Start(partSize, concurrency)];
    assert History(states, []);
    ArrivesSnoc(partSize, concurrency, [], states[0], Put(0, New));
    acts, be := [] + [Put(0, New)], Act(states[0], Put(0, New)).value;
  }

  /** The waiting part gets a free slot. */
  lemma {:induction false} FlyNext(partSize: nat, concurrency: nat, acts: seq<Action>, be: Backend, k: nat)
    returns (acts': seq<Action>, be': Backend)
    requires Arrives(partSize, concurrency, acts, be) && 0 in be.writers && k < be.concurrency
    requires be.unused == k + 2 && At(be, k + 1) == []
    requires var h := be.writers[0];
      && h.phase.Writing? && h.waiting == Some(Job(k + 1, k)) && !h.failed && h.buf == k + 1 && h.partNum == k + 2
      && h.finishing == map[] && FliesInTurn(h, k)
    ensures Arrives(partSize, concurrency, acts', be') && Loaded(be', k + 1)
    ensures be'.partSize == be.partSize && be'.concurrency == be.concurrency
  {
    var h := be.writers[0];
    UpToFacts(k);
    assert |h.inFlight| == |h.inFlight.Keys| == k;
    var acquire := Do(0, Acquire, New);
    assert UpTo(k + 1) == UpTo(k) + {k + 1};
    hide UpTo;
    ArrivesSnoc(partSize, concurrency, acts, be, acquire);
    acts', be' := acts + [acquire], Act(be, acquire).value;
    assert be'.writers[0].inFlight == h.inFlight[k + 1 := k];
  }

  lemma {:induction false} LoadUp(partSize: nat, concurrency: nat, k: nat) returns (acts: seq<Action>, be: Backend)
    requires 0 < partSize && 0 < concurrency && k <= concurrency
    ensures Arrives(partSize, concurrency, acts, be) && Loaded(be, k)
    ensures be.partSize == partSize && be.concurrency == concurrency
  {
    if k == 0 {
      acts, be := FirstPut(partSize, concurrency);
    } else {
      acts, be := LoadUp(partSize, concurrency, k - 1);
      hide UpTo, Arrives, At;
      acts, be := RotateFull(partSize, concurrency, acts, be, k - 1);
      acts, be := FlyNext(partSize, concurrency, acts, be, k - 1);
    }
  }

  /** The bound on memory is tight: for every concurrency a writer comes to hold two buffers more. */
  lemma MemoryBoundIsReached(partSize: nat, concurrency: nat) returns (acts: seq<Action>, be: Backend)
    requires 0 < partSize && 0 < concurrency
    ensures Arrives(partSize, concurrency, acts, be) && 0 in be.writers
    ensures |be.writers[0].inFlight| == concurrency && |CheckedOut(be.writers[0])| == concurrency + 2
  {
    acts, be := LoadUp(partSize, concurrency, concurrency);
    ghost var flying := be.writers[0].inFlight;
    acts, be := RotateFull(partSize, concurrency, acts, be, concurrency);
    UpToFacts(concurrency);
    assert flying.Keys == UpTo(concurrency);
    EveryBufferIsOut(be.writers[0], concurrency);
    BoundedMemory(partSize, concurrency, acts, be, 0);
  }

  lemma FlyingIsOut(h: Handle, n: nat, b: BufId)
    requires n in h.inFlight && h.inFlight[n] == b
    ensures b in CheckedOut(h)
  {
    assert h.inFlight[n] in h.inFlight.Values;
  }

  lemma {:induction false} FliesFrom(h: Handle, k: nat, b: BufId)
    requires FliesInTurn(h, k) && b < k
    ensures b + 1 in h.inFlight && h.inFlight[b + 1] == b
  {
    UpToFacts(k);
    assert b + 1 in UpTo(k);
  }

  lemma {:induction false} BufferIsOut(h: Handle, k: nat, b: BufId)
    requires FliesInTurn(h, k) && h.buf == k + 1 && h.waiting == Some(Job(k + 1, k)) && b <= k + 1
    ensures b in CheckedOut(h)
  {
    hide FliesInTurn;
    if b < k {
      FliesFrom(h, k, b);
      hide CheckedOut;
      FlyingIsOut(h, b + 1, b);
    }
  }

  lemma {:induction false} EveryBufferIsOut(h: Handle, k: nat)
    requires FliesInTurn(h, k) && h.buf == k + 1 && h.waiting == Some(Job(k + 1, k))
    ensures |CheckedOut(h)| >= k + 2
  {
    UpToFacts(k + 1);
    hide UpTo, CheckedOut, FliesInTurn;
    var all := UpTo(k + 1) + {0};
    forall b | b in all ensures b in CheckedOut(h) { BufferIsOut(h, k, b); }
    assert 0 !in UpTo(k + 1) && |all| == k + 2;
    SubsetSize(all, CheckedOut(h));
  }
}
