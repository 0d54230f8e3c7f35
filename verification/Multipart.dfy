/**
 One S3 multipart upload as a transition system.

 The state is what a multipartWriter and the remote upload hold between two
 atomic steps; a label says which step is taken and how the environment chose
 (which in-flight part finishes, whether the remote accepted a request).  Worker
 goroutines may finish in any order and at any time, so a run is any sequence of
 enabled labels.
 */
module Multipart {
  import opened Basics

  /** S3 accepts part numbers 1..10000. */
  const MAX_PARTS: nat := 10_000

  /** The remote side: part bodies received so far, or the committed object. */
  datatype Remote = Open(stored: map<nat, Bytes>) | Completed(content: Bytes) | Gone

  datatype Phase = Writing | Closing | Aborting | Finished(ok: bool)

  datatype Pending = Pending(num: nat, body: Bytes)

  /**
   `waiting` is a part already cut from the stream whose dispatcher is blocked on
   the semaphore.  `cut` is history: the bodies cut so far, in part-number order.
   */
  datatype Writer = Writer(
    partSize: nat,
    concurrency: nat,
    buf: Bytes,
    partNum: nat,
    waiting: Option<Pending>,
    inFlight: map<nat, Bytes>,
    parts: seq<nat>,
    failed: bool,
    phase: Phase,
    remote: Remote,
    cut: seq<Bytes>)

  datatype Label =
    | Append(p: Bytes)                            // Write copies a chunk into buf
    | Rotate                                      // dispatchBuffered swaps the buffer
    | Acquire                                     // the dispatcher gets a semaphore slot
    | Succeed(n: nat)                             // UploadPart n returned without error
    | Fail(n: nat, landed: bool)                  // UploadPart n failed; its body may have landed
    | BeginClose
    | FinishClose(accepted: bool, reaped: bool)   // CompleteMultipartUpload answered
    | BeginAbort
    | FinishAbort(reaped: bool)                   // AbortMultipartUpload is best effort

  function Init(partSize: nat, concurrency: nat): Writer {
    Writer(partSize, concurrency, [], 1, None, map[], [], false, Writing, Open(map[]), [])
  }

  /** Part numbers in ascending order, as CompleteMultipartUpload needs them. */
  function SortParts(s: seq<nat>): seq<nat> {
    if s == [] then [] else Insert(s[0], SortParts(s[1..]))
  }

  function Insert(x: nat, s: seq<nat>): seq<nat> {
    if s == [] || x <= s[0] then [x] + s else [s[0]] + Insert(x, s[1..])
  }

  /** The object the remote builds from an ordered list of part numbers. */
  function Assemble(stored: map<nat, Bytes>, order: seq<nat>): Bytes {
    if order == [] then []
    else
      var last := order[|order| - 1];
      Assemble(stored, order[..|order| - 1]) + if last in stored then stored[last] else []
  }

  function Discard(r: Remote, reaped: bool): Remote {
    if reaped then Gone else r
  }

  /** The state after one step, or None where the step cannot be taken. */
  function Step(s: Writer, l: Label): Option<Writer> {
    match l
    case Append(p) =>
      if s.phase.Writing? && s.waiting.None? && p != [] && |s.buf| + |p| <= s.partSize then
        Some(s.(buf := s.buf + p))
      else None
    case Rotate =>
      if && ((s.phase.Writing? && |s.buf| == s.partSize) || s.phase.Closing?)
         && s.buf != [] && s.waiting.None? && !s.failed
      then
        Some(s.(buf := [], waiting := Some(Pending(s.partNum, s.buf)),
                partNum := s.partNum + 1, cut := s.cut + [s.buf]))
      else None
    case Acquire =>
      if s.waiting.Some? && |s.inFlight| < s.concurrency then
        Some(s.(waiting := None, inFlight := s.inFlight[s.waiting.value.num := s.waiting.value.body]))
      else None
    case Succeed(n) =>
      if n in s.inFlight && n <= MAX_PARTS && s.remote.Open? then
        Some(s.(inFlight := s.inFlight - {n}, parts := s.parts + [n],
                remote := Open(s.remote.stored[n := s.inFlight[n]])))
      else None
    case Fail(n, landed) =>
      if n in s.inFlight && s.remote.Open? then
        Some(s.(inFlight := s.inFlight - {n}, failed := true,
                remote := if landed then Open(s.remote.stored[n := s.inFlight[n]]) else s.remote))
      else None
    case BeginClose =>
      if s.phase.Writing? && s.waiting.None? then Some(s.(phase := Closing)) else None
    case FinishClose(accepted, reaped) =>
      if && s.phase.Closing? && s.waiting.None? && s.inFlight == map[]
         && (s.failed || s.buf == []) && s.remote.Open?
      then
        if !s.failed && accepted then
          Some(s.(phase := Finished(true),
                  remote := Completed(Assemble(s.remote.stored, SortParts(s.parts)))))
        else
          Some(s.(phase := Finished(false), remote := Discard(s.remote, reaped)))
      else None
    case BeginAbort =>
      if s.phase.Writing? && s.waiting.None? then Some(s.(phase := Aborting, failed := true)) else None
    case FinishAbort(reaped) =>
      if s.phase.Aborting? && s.inFlight == map[] then
        Some(s.(phase := Finished(false), remote := Discard(s.remote, reaped)))
      else None
  }

  /** The states a run passes through, first to last. */
  ghost predicate Behaviour(states: seq<Writer>, run: seq<Label>) {
    && |states| == |run| + 1
    && forall i :: 0 <= i < |run| ==> Moves(states, run, i)
  }

  ghost predicate Moves(states: seq<Writer>, run: seq<Label>, i: nat)
    requires i < |run| < |states|
  {
    Step(states[i], run[i]) == Some(states[i + 1])
  }

  /** `run` takes a fresh upload to state `s`. */
  ghost predicate Reached(partSize: nat, concurrency: nat, run: seq<Label>, s: Writer) {
    && 0 < partSize && 0 < concurrency
    && exists states :: Behaviour(states, run) && states[0] == Init(partSize, concurrency) && states[|run|] == s
  }

  /** Every byte the run's Write calls copied in, in order. */
  function Written(run: seq<Label>): Bytes {
    if run == [] then []
    else
      var last := run[|run| - 1];
      var before := Written(run[..|run| - 1]);
      if last.Append? then before + last.p else before
  }

  // ---------------------------------------------------------------- invariant

  /** Every part but the last is exactly partSize long; the last is 1..partSize. */
  ghost predicate Geometry(s: Writer) {
    && 0 < s.partSize && 0 < s.concurrency
    && |s.buf| <= s.partSize && s.partNum == |s.cut| + 1
    && (forall i :: 0 <= i < |s.cut| ==> 0 < |s.cut[i]| <= s.partSize)
    && (forall i :: 0 <= i < |s.cut| - 1 ==> |s.cut[i]| == s.partSize)
    && (s.cut != [] && |s.cut[|s.cut| - 1]| < s.partSize ==> s.buf == [] && !s.phase.Writing?)
  }

  /** Each part number cut so far is in exactly one place, with its own body. */
  ghost predicate Accounting(s: Writer) {
    && |s.inFlight| <= s.concurrency
    && NoDup(s.parts)
    && (forall n | n in s.inFlight :: 1 <= n <= |s.cut| && s.inFlight[n] == s.cut[n - 1])
    && (forall n | n in s.parts :: 1 <= n <= |s.cut| && n <= MAX_PARTS && n !in s.inFlight)
    && (s.waiting.Some? ==>
          && s.waiting.value.num == |s.cut| > 0
          && s.waiting.value.body == s.cut[|s.cut| - 1]
          && |s.cut| !in s.inFlight && |s.cut| !in s.parts)
    && (!s.failed ==> forall n :: 1 <= n <= |s.cut| ==> Placed(s, n))
    && (s.remote.Open? ==>
          forall n | n in s.parts :: n in s.remote.stored && s.remote.stored[n] == s.cut[n - 1])
  }

  ghost predicate Placed(s: Writer, n: nat) {
    n in s.parts || n in s.inFlight || (s.waiting.Some? && s.waiting.value.num == n)
  }

  ghost predicate Lifecycle(s: Writer) {
    && (!s.phase.Finished? ==> s.remote.Open?)
    && (s.phase.Finished? ==> s.inFlight == map[] && s.waiting.None?)
    && (s.phase.Aborting? ==> s.failed && s.waiting.None?)
    && (s.remote.Completed? <==> s.phase == Finished(true))
    && (s.remote.Completed? ==> !s.failed && s.buf == [] && s.remote.content == Concat(s.cut))
  }

  ghost predicate Inv(s: Writer) {
    Geometry(s) && Accounting(s) && Lifecycle(s)
  }

  // ------------------------------------------------------------- sorted parts

  ghost predicate Ascending(s: seq<nat>) {
    forall i, j :: 0 <= i < j < |s| ==> s[i] < s[j]
  }

  lemma {:induction false} InsertHolds(x: nat, s: seq<nat>)
    ensures forall y :: y in Insert(x, s) <==> y == x || y in s
  {
    if s != [] && s[0] < x {
      InsertHolds(x, s[1..]);
      assert s == [s[0]] + s[1..];
    }
  }

  lemma {:induction false} InsertSorts(x: nat, s: seq<nat>)
    requires Ascending(s) && x !in s
    ensures Ascending(Insert(x, s))
    ensures forall y :: y in Insert(x, s) <==> y == x || y in s
  {
    InsertHolds(x, s);
    if s != [] && s[0] < x {
      assert Ascending(s[1..]);
      InsertSorts(x, s[1..]);
      var rest := Insert(x, s[1..]);
      hide Insert;
      forall i | 0 <= i < |rest| ensures s[0] < rest[i] {
        assert rest[i] in rest;
      }
    }
  }

  lemma SortSorts(s: seq<nat>)
    requires NoDup(s)
    ensures Ascending(SortParts(s))
    ensures forall y :: y in SortParts(s) <==> y in s
  {
    if s != [] {
      SortSorts(s[1..]);
      assert s == [s[0]] + s[1..];
      InsertSorts(s[0], SortParts(s[1..]));
    }
  }

  /** An ascending list that holds exactly 1..k is 1, 2, .., k. */
  lemma {:induction false} AscendingIsCount(s: seq<nat>, k: nat)
    requires Ascending(s) && forall n :: n in s <==> 1 <= n <= k
    ensures |s| == k && forall i :: 0 <= i < k ==> s[i] == i + 1
  {
    if s == [] {
      assert k < 1 || k in s;
    } else {
      assert s[0] in s && k in s;
      var last := |s| - 1;
      assert s[last] in s;
      assert forall j :: 0 <= j < last ==> s[j] < s[last] <= k;
      assert s[last] == k;
      var t := s[..last];
      forall n ensures n in t <==> 1 <= n <= k - 1 {
        if n in t { assert n in s; }
        if 1 <= n <= k - 1 {
          assert n in s;
          var i :| 0 <= i < |s| && s[i] == n;
          assert t[i] == n;
        }
      }
      AscendingIsCount(t, k - 1);
    }
  }

  lemma {:induction false} AssembleCount(stored: map<nat, Bytes>, order: seq<nat>, cut: seq<Bytes>)
    requires |order| <= |cut| && forall i :: 0 <= i < |order| ==> order[i] == i + 1
    requires forall n :: 1 <= n <= |order| ==> n in stored && stored[n] == cut[n - 1]
    ensures Assemble(stored, order) == Concat(cut[..|order|])
  {
    if order != [] {
      var k := |order| - 1;
      AssembleCount(stored, order[..k], cut);
      assert cut[..k + 1] == cut[..k] + [cut[k]];
      ConcatSnoc(cut[..k], cut[k]);
    }
  }

  /** What Close sends to CompleteMultipartUpload rebuilds the stream cut so far. */
  lemma CompleteListRebuilds(s: Writer)
    requires Inv(s) && s.phase.Closing? && s.waiting.None? && s.inFlight == map[] && !s.failed
    ensures Assemble(s.remote.stored, SortParts(s.parts)) == Concat(s.cut)
  {
    SortSorts(s.parts);
    var order := SortParts(s.parts);
    forall n ensures n in order <==> 1 <= n <= |s.cut| {
      if 1 <= n <= |s.cut| { assert Placed(s, n); }
    }
    AscendingIsCount(order, |s.cut|);
    assert forall n :: 1 <= n <= |order| ==> n in order;
    AssembleCount(s.remote.stored, order, s.cut);
    assert s.cut[..|order|] == s.cut;
  }

  // ------------------------------------------------------------ preservation

  lemma StepKeepsGeometry(s: Writer, l: Label)
    requires Geometry(s) && Step(s, l).Some?
    ensures Geometry(Step(s, l).value)
  {
    if l.Rotate? {
      assert forall i :: 0 <= i < |s.cut| ==> (s.cut + [s.buf])[i] == s.cut[i];
    }
  }

  lemma RotateKeepsAccounting(s: Writer)
    requires Geometry(s) && Accounting(s) && Step(s, Rotate).Some?
    ensures Accounting(Step(s, Rotate).value)
  {
    var s' := Step(s, Rotate).value;
    assert forall i :: 0 <= i < |s.cut| ==> s'.cut[i] == s.cut[i];
    forall n | 1 <= n <= |s'.cut| ensures Placed(s', n) {
      if n < |s'.cut| { assert Placed(s, n); }
    }
  }

  lemma SucceedKeepsAccounting(s: Writer, k: nat)
    requires Accounting(s) && Step(s, Succeed(k)).Some?
    ensures Accounting(Step(s, Succeed(k)).value)
  {
    var s' := Step(s, Succeed(k)).value;
    assert s'.parts[|s.parts|] == k;
    forall n | 1 <= n <= |s'.cut| && !s'.failed ensures Placed(s', n) {
      assert Placed(s, n);
      if n in s.parts { assert n in s'.parts; }
    }
    RemovedIsSmaller(s.inFlight, k);
  }

  lemma RemovedIsSmaller<V>(m: map<nat, V>, k: nat)
    requires k in m
    ensures |m - {k}| == |m| - 1
  {
    assert (m - {k}).Keys == m.Keys - {k};
  }

  lemma FailKeepsAccounting(s: Writer, k: nat, landed: bool)
    requires Accounting(s) && Step(s, Fail(k, landed)).Some?
    ensures Accounting(Step(s, Fail(k, landed)).value)
  {
    RemovedIsSmaller(s.inFlight, k);
  }

  lemma AcquireKeepsAccounting(s: Writer)
    requires Accounting(s) && Step(s, Acquire).Some?
    ensures Accounting(Step(s, Acquire).value)
  {
    var s' := Step(s, Acquire).value;
    assert s'.inFlight.Keys == s.inFlight.Keys + {s.waiting.value.num};
    forall n | 1 <= n <= |s'.cut| && !s'.failed ensures Placed(s', n) { assert Placed(s, n); }
  }

  lemma SameBooks(s: Writer, s': Writer)
    requires Accounting(s) && (s.failed ==> s'.failed) && (s'.remote == s.remote || !s'.remote.Open?)
    requires s'.cut == s.cut && s'.parts == s.parts && s'.inFlight == s.inFlight
    requires s'.waiting == s.waiting && s'.concurrency == s.concurrency
    ensures Accounting(s')
  {
    forall n | 1 <= n <= |s'.cut| && !s'.failed ensures Placed(s', n) { assert Placed(s, n); }
  }

  lemma StepKeepsAccounting(s: Writer, l: Label)
    requires Geometry(s) && Accounting(s) && Step(s, l).Some?
    ensures Accounting(Step(s, l).value)
  {
    match l
    case Rotate => RotateKeepsAccounting(s);
    case Acquire => AcquireKeepsAccounting(s);
    case Succeed(n) => SucceedKeepsAccounting(s, n);
    case Fail(n, landed) => FailKeepsAccounting(s, n, landed);
    case Append(_) => SameBooks(s, Step(s, l).value);
    case BeginClose => SameBooks(s, Step(s, l).value);
    case FinishClose(_, _) => SameBooks(s, Step(s, l).value);
    case BeginAbort => SameBooks(s, Step(s, l).value);
    case FinishAbort(_) => SameBooks(s, Step(s, l).value);
  }

  lemma FinishCloseKeepsLifecycle(s: Writer, accepted: bool, reaped: bool)
    requires Inv(s) && Step(s, FinishClose(accepted, reaped)).Some?
    ensures Lifecycle(Step(s, FinishClose(accepted, reaped)).value)
  {
    if !s.failed { CompleteListRebuilds(s); }
    hide Geometry, Accounting, Assemble, SortParts, Concat;
  }

  lemma FinishAbortKeepsLifecycle(s: Writer, reaped: bool)
    requires Lifecycle(s) && Step(s, FinishAbort(reaped)).Some?
    ensures Lifecycle(Step(s, FinishAbort(reaped)).value)
  {
  }

  lemma PartKeepsLifecycle(s: Writer, l: Label)
    requires Lifecycle(s) && Step(s, l).Some? && (l.Rotate? || l.Acquire? || l.Succeed? || l.Fail?)
    ensures Lifecycle(Step(s, l).value)
  {
  }

  lemma CallKeepsLifecycle(s: Writer, l: Label)
    requires Lifecycle(s) && Step(s, l).Some? && (l.Append? || l.BeginClose? || l.BeginAbort?)
    ensures Lifecycle(Step(s, l).value)
  {
  }

  /** Every step keeps the invariant, whoever takes it. */
  lemma StepKeepsInv(s: Writer, l: Label)
    requires Inv(s) && Step(s, l).Some?
    ensures Inv(Step(s, l).value)
  {
    StepKeepsGeometry(s, l);
    StepKeepsAccounting(s, l);
    hide Step, Geometry, Accounting, Lifecycle;
    match l
    case FinishClose(accepted, reaped) => FinishCloseKeepsLifecycle(s, accepted, reaped);
    case FinishAbort(reaped) => FinishAbortKeepsLifecycle(s, reaped);
    case Rotate => PartKeepsLifecycle(s, l);
    case Acquire => PartKeepsLifecycle(s, l);
    case Succeed(_) => PartKeepsLifecycle(s, l);
    case Fail(_, _) => PartKeepsLifecycle(s, l);
    case Append(_) => CallKeepsLifecycle(s, l);
    case BeginClose => CallKeepsLifecycle(s, l);
    case BeginAbort => CallKeepsLifecycle(s, l);
  }

  lemma BehaviourSnoc(states: seq<Writer>, run: seq<Label>, l: Label, next: Writer)
    requires Behaviour(states, run) && Step(states[|run|], l) == Some(next)
    ensures Behaviour(states + [next], run + [l])
    ensures (states + [next])[0] == states[0]
    ensures Written(run + [l]) == if l.Append? then Written(run) + l.p else Written(run)
  {
    forall i | 0 <= i < |run + [l]| ensures Moves(states + [next], run + [l], i) {
      if i < |run| { assert Moves(states, run, i); }
    }
    WrittenSnoc(run, l);
  }

  lemma BehaviourPrefix(states: seq<Writer>, run: seq<Label>)
    requires Behaviour(states, run) && run != []
    ensures Behaviour(states[..|run|], run[..|run| - 1])
    ensures Step(states[|run| - 1], run[|run| - 1]) == Some(states[|run|])
  {
    var states', run' := states[..|run|], run[..|run| - 1];
    forall i | 0 <= i < |run'| ensures Moves(states', run', i) { assert Moves(states, run, i); }
    assert Moves(states, run, |run| - 1);
  }

  /** What a run establishes about its last state, by induction over its steps. */
  ghost predicate Summary(start: Writer, run: seq<Label>, s: Writer) {
    && Inv(s) && s.partSize == start.partSize && s.concurrency == start.concurrency
    && Concat(s.cut) + s.buf == Written(run)
    && (s.failed <==> HasTrouble(run))
  }

  lemma {:induction false} Summarize(states: seq<Writer>, run: seq<Label>)
    requires Behaviour(states, run) && states[0] == Init(states[0].partSize, states[0].concurrency)
    requires 0 < states[0].partSize && 0 < states[0].concurrency
    ensures Summary(states[0], run, states[|run|])
  {
    if run != [] {
      BehaviourPrefix(states, run);
      Summarize(states[..|run|], run[..|run| - 1]);
      SummaryStep(states[0], run[..|run| - 1], states[|run| - 1], run[|run| - 1]);
      assert run == run[..|run| - 1] + [run[|run| - 1]];
    }
  }

  lemma SummaryStep(start: Writer, run: seq<Label>, s: Writer, l: Label)
    requires Summary(start, run, s) && Step(s, l).Some?
    ensures Summary(start, run + [l], Step(s, l).value)
  {
    StepKeepsInv(s, l);
    StepKeepsStream(run, s, l);
    TroubleSnoc(run, l);
    StepEffect(s, l);
    hide Step, Inv, Written, HasTrouble, Concat;
  }

  lemma StepEffect(s: Writer, l: Label)
    requires Step(s, l).Some?
    ensures var s' := Step(s, l).value;
      && s'.partSize == s.partSize && s'.concurrency == s.concurrency
      && (s'.failed <==> s.failed || l.Fail? || l.BeginAbort?)
  {
  }

  lemma StepKeepsStream(run: seq<Label>, s: Writer, l: Label)
    requires Concat(s.cut) + s.buf == Written(run) && Step(s, l).Some?
    ensures var s' := Step(s, l).value; Concat(s'.cut) + s'.buf == Written(run + [l])
  {
    WrittenSnoc(run, l);
    StreamEffect(s, l);
    ConcatSnoc(s.cut, s.buf);
    hide Step, Written, Concat;
    var s' := Step(s, l).value;
    if l.Rotate? {
      EmptyTail(Concat(s'.cut));
    } else if l.Append? {
      TailAssociates(Concat(s.cut), s.buf, l.p);
    }
  }

  lemma EmptyTail(a: Bytes)
    ensures a + [] == a
  {
  }

  lemma TailAssociates(a: Bytes, b: Bytes, c: Bytes)
    ensures a + (b + c) == a + b + c
  {
  }

  lemma StreamEffect(s: Writer, l: Label)
    requires Step(s, l).Some?
    ensures var s' := Step(s, l).value;
      && (l.Rotate? ==> s'.cut == s.cut + [s.buf] && s'.buf == [])
      && (l.Append? ==> s'.cut == s.cut && s'.buf == s.buf + l.p)
      && (!l.Rotate? && !l.Append? ==> s'.cut == s.cut && s'.buf == s.buf)
  {
  }

  lemma WrittenSnoc(run: seq<Label>, l: Label)
    ensures Written(run + [l]) == if l.Append? then Written(run) + l.p else Written(run)
  {
    assert (run + [l])[..|run|] == run;
  }

  /** A part failed or the caller aborted. */
  ghost predicate HasTrouble(run: seq<Label>) {
    exists l: Label :: l in run && (l.Fail? || l.BeginAbort?)
  }

  lemma TroubleSnoc(run: seq<Label>, l: Label)
    ensures HasTrouble(run + [l]) <==> HasTrouble(run) || l.Fail? || l.BeginAbort?
  {
    assert forall x :: x in run + [l] <==> x in run || x == l;
  }

  lemma ReachedSummary(partSize: nat, concurrency: nat, run: seq<Label>, s: Writer)
    requires Reached(partSize, concurrency, run, s)
    ensures Summary(Init(partSize, concurrency), run, s)
  {
    var states :| Behaviour(states, run) && states[0] == Init(partSize, concurrency) && states[|run|] == s;
    Summarize(states, run);
  }

  lemma ReachedInit(partSize: nat, concurrency: nat)
    requires 0 < partSize && 0 < concurrency
    ensures Reached(partSize, concurrency, [], Init(partSize, concurrency))
  {
    var states := [Init(partSize, concurrency)];
    assert Behaviour(states, []);
  }

  lemma ReachedSnoc(partSize: nat, concurrency: nat, run: seq<Label>, s: Writer, l: Label)
    requires Reached(partSize, concurrency, run, s) && Step(s, l).Some?
    ensures Reached(partSize, concurrency, run + [l], Step(s, l).value)
    ensures Written(run + [l]) == if l.Append? then Written(run) + l.p else Written(run)
  {
    var states :| Behaviour(states, run) && states[0] == Init(partSize, concurrency) && states[|run|] == s;
    BehaviourSnoc(states, run, l, Step(s, l).value);
  }

  // -------------------------------------------------------- part-number bound

  /** The part numbers 1..n. */
  function UpTo(n: nat): set<nat> {
    if n == 0 then {} else UpTo(n - 1) + {n}
  }

  lemma {:induction false} UpToFacts(n: nat)
    ensures |UpTo(n)| == n && forall i :: i in UpTo(n) <==> 1 <= i <= n
  {
    if n > 0 { UpToFacts(n - 1); }
  }

  lemma {:induction false} SubsetSize(a: set<nat>, b: set<nat>)
    requires a <= b
    ensures |a| <= |b|
  {
    if a != {} {
      var x :| x in a;
      SubsetSize(a - {x}, b - {x});
    }
  }

  /** A buffer is cut only while all earlier parts are uploaded or in flight. */
  lemma CutsAreBounded(s: Writer)
    requires Accounting(s) && !s.failed && s.waiting.None?
    ensures |s.cut| <= MAX_PARTS + |s.inFlight|
  {
    var done := set n | n in s.parts;
    UpToFacts(|s.cut|);
    UpToFacts(MAX_PARTS);
    forall n | n in UpTo(|s.cut|) ensures n in done + s.inFlight.Keys { assert Placed(s, n); }
    SubsetSize(UpTo(|s.cut|), done + s.inFlight.Keys);
    assert done <= UpTo(MAX_PARTS);
    SubsetSize(done, UpTo(MAX_PARTS));
    assert |done + s.inFlight.Keys| <= |done| + |s.inFlight.Keys|;
  }

  lemma {:induction false} PartNumAlong(states: seq<Writer>, run: seq<Label>)
    requires Behaviour(states, run) && states[0] == Init(states[0].partSize, states[0].concurrency)
    requires 0 < states[0].partSize && 0 < states[0].concurrency
    ensures states[|run|].partNum <= MAX_PARTS + states[0].concurrency + 2
  {
    if run != [] {
      BehaviourPrefix(states, run);
      PartNumAlong(states[..|run|], run[..|run| - 1]);
      Summarize(states[..|run|], run[..|run| - 1]);
      hide Step, Inv, Behaviour;
      PartNumStep(states[|run| - 1], run[|run| - 1]);
    }
  }

  lemma PartNumStep(s: Writer, l: Label)
    requires Inv(s) && Step(s, l).Some?
    ensures Step(s, l).value.partNum == s.partNum ||
            (l.Rotate? && Step(s, l).value.partNum <= MAX_PARTS + s.concurrency + 2)
  {
    if l.Rotate? { CutsAreBounded(s); }
    hide Accounting, Lifecycle;
  }

  /** The int32 part counter cannot wrap for any concurrency below 2^31 - 10002. */
  lemma PartNumBounded(partSize: nat, concurrency: nat, run: seq<Label>, s: Writer)
    requires Reached(partSize, concurrency, run, s)
    ensures s.partNum <= MAX_PARTS + concurrency + 2
  {
    var states :| Behaviour(states, run) && states[0] == Init(partSize, concurrency) && states[|run|] == s;
    PartNumAlong(states, run);
  }

  // ------------------------------------------------------------ main theorems

  /** Cut parts in order followed by the buffer are always the bytes written. */
  lemma NothingLostOrReordered(partSize: nat, concurrency: nat, run: seq<Label>, s: Writer)
    requires Reached(partSize, concurrency, run, s)
    ensures Concat(s.cut) + s.buf == Written(run)
    ensures s.waiting.Some? ==> 0 < s.waiting.value.num == |s.cut| && s.waiting.value.body == s.cut[|s.cut| - 1]
    ensures forall n | n in s.inFlight :: 1 <= n <= |s.cut| && s.inFlight[n] == s.cut[n - 1]
  {
    ReachedSummary(partSize, concurrency, run, s);
  }

  /**
   Stream preservation.  For every way the input was split into Write calls and
   every completion order, a Close that succeeds has committed exactly the bytes
   written; a failed part, an Abort or a refused completion commits nothing.
   */
  lemma StreamPreserved(partSize: nat, concurrency: nat, run: seq<Label>, s: Writer)
    requires Reached(partSize, concurrency, run, s)
    ensures s.phase == Finished(true) <==> s.remote == Completed(Written(run))
    ensures s.phase != Finished(true) ==> !s.remote.Completed?
    ensures HasTrouble(run) ==> !s.remote.Completed?
  {
    ReachedSummary(partSize, concurrency, run, s);
  }

  /** While no part has failed, parts 1..partNum-1 are each in exactly one place. */
  lemma PartsAccounted(partSize: nat, concurrency: nat, run: seq<Label>, s: Writer, n: nat)
    requires Reached(partSize, concurrency, run, s) && !s.failed && 1 <= n < s.partNum
    ensures (if n in s.parts then 1 else 0) + (if n in s.inFlight then 1 else 0)
            + (if s.waiting.Some? && s.waiting.value.num == n then 1 else 0) == 1
    ensures multiset(s.parts)[n] <= 1
  {
    ReachedSummary(partSize, concurrency, run, s);
    assert Placed(s, n);
    NoDupCount(s.parts, n);
  }

  lemma {:induction false} NoDupCount(s: seq<nat>, n: nat)
    requires NoDup(s)
    ensures multiset(s)[n] <= 1
  {
    if s != [] {
      var k := |s| - 1;
      assert s == s[..k] + [s[k]];
      NoDupCount(s[..k], n);
      assert s[k] !in s[..k];
    }
  }

  lemma {:induction false} FullPiecesLength(pieces: seq<Bytes>, size: nat)
    requires forall i :: 0 <= i < |pieces| ==> |pieces[i]| == size
    ensures |Concat(pieces)| == |pieces| * size
  {
    if pieces != [] {
      FullPiecesLength(pieces[..|pieces| - 1], size);
      assert |pieces| * size == (|pieces| - 1) * size + size;
    }
  }

  /**
   Part geometry.  The number of parts of a committed object is the ceiling of
   total/partSize, and it fits the remote's limit exactly when the total does.
   */
  lemma CommittedGeometry(partSize: nat, concurrency: nat, run: seq<Label>, s: Writer)
    requires Reached(partSize, concurrency, run, s) && s.phase == Finished(true)
    ensures |s.cut| == (|Written(run)| + partSize - 1) / partSize
    ensures |s.cut| <= MAX_PARTS
    ensures |Written(run)| <= MAX_PARTS * partSize
    ensures forall i :: 0 <= i < |s.cut| - 1 ==> |s.cut[i]| == partSize
  {
    ReachedSummary(partSize, concurrency, run, s);
    PartCount(s.cut, partSize);
    if s.cut != [] {
      assert Placed(s, |s.cut|);
      assert |s.cut| in s.parts;
    }
    assert s.cut == [] || |s.cut| <= MAX_PARTS;
  }

  lemma MulMonotone(a: nat, b: nat, c: nat)
    requires a <= b
    ensures a * c <= b * c
  {
    assert b * c == a * c + (b - a) * c;
  }

  lemma PartCount(cut: seq<Bytes>, size: nat)
    requires 0 < size
    requires forall i :: 0 <= i < |cut| ==> 0 < |cut[i]| <= size
    requires forall i :: 0 <= i < |cut| - 1 ==> |cut[i]| == size
    ensures |cut| == (|Concat(cut)| + size - 1) / size
    ensures |cut| <= MAX_PARTS <==> |Concat(cut)| <= MAX_PARTS * size
  {
    if cut == [] {
      QuotientIs(size - 1, 0, size - 1, size);
    } else {
      var k := |cut| - 1;
      PiecesLength(cut, size);
      hide Concat;
      CeilDiv(|Concat(cut)|, k, |cut[k]|, size);
      WithinLimit(|Concat(cut)|, k, |cut[k]|, size);
    }
  }

  lemma PiecesLength(cut: seq<Bytes>, size: nat)
    requires cut != [] && forall i :: 0 <= i < |cut| - 1 ==> |cut[i]| == size
    ensures |Concat(cut)| == (|cut| - 1) * size + |cut[|cut| - 1]|
  {
    FullPiecesLength(cut[..|cut| - 1], size);
  }

  lemma WithinLimit(total: nat, k: nat, rest: nat, size: nat)
    requires 0 < rest <= size && total == k * size + rest
    ensures k + 1 <= MAX_PARTS <==> total <= MAX_PARTS * size
  {
    assert (k + 1) * size == k * size + size;
    if k + 1 <= MAX_PARTS {
      MulMonotone(k + 1, MAX_PARTS, size);
    } else {
      MulMonotone(MAX_PARTS, k, size);
    }
  }

  lemma CeilDiv(total: nat, k: nat, rest: nat, size: nat)
    requires 0 < rest <= size && total == k * size + rest
    ensures (total + size - 1) / size == k + 1
  {
    assert (k + 1) * size == k * size + size;
    QuotientIs(total + size - 1, k + 1, rest - 1, size);
  }

  lemma QuotientIs(n: nat, q: nat, r: nat, d: nat)
    requires r < d && n == q * d + r
    ensures n / d == q
  {
    var q': int, r': int := n / d, n % d;
    var gap: int := q' - q;
    assert n == q' * d + r' && 0 <= r' < d;
    MultipleIsFar(gap, d);
    assert gap * d == q' * d - q * d;
  }

  lemma MultipleIsFar(a: int, d: nat)
    ensures a >= 1 ==> a * d >= d
    ensures a <= -1 ==> a * d + d <= 0
  {
    if a >= 1 {
      var b: nat := a;
      MulMonotone(1, b, d);
    } else if a <= -1 {
      var b: nat := -a;
      MulMonotone(1, b, d);
      assert a * d == -(b * d);
    }
  }

  /** A blocked dispatcher, Close or Abort always has a step that unblocks it. */
  lemma NeverStuck(partSize: nat, concurrency: nat, run: seq<Label>, s: Writer)
    requires Reached(partSize, concurrency, run, s) && !s.phase.Finished?
    requires s.waiting.Some? || !s.phase.Writing?
    ensures exists l: Label ::
              (l.Rotate? || l.Acquire? || l.Fail? || l.FinishClose? || l.FinishAbort?) && Step(s, l).Some?
  {
    ReachedSummary(partSize, concurrency, run, s);
    if s.inFlight != map[] {
      var n :| n in s.inFlight;
      assert Step(s, Fail(n, false)).Some?;
    } else if s.waiting.Some? {
      assert Step(s, Acquire).Some?;
    } else if s.phase.Aborting? {
      assert Step(s, FinishAbort(true)).Some?;
    } else if s.failed || s.buf == [] {
      assert Step(s, FinishClose(true, true)).Some?;
    } else {
      assert Step(s, Rotate).Some?;
    }
  }

  /** How much a writer still has to do before it can only be finished. */
  function Left(s: Writer): nat {
    (if s.buf != [] then 3 else 0) + (if s.waiting.Some? then 2 else 0) + |s.inFlight|
    + (match s.phase case Writing => 2 case Finished(_) => 0 case _ => 1)
  }

  lemma AddedIsLarger<V>(m: map<nat, V>, k: nat, v: V)
    ensures |m[k := v]| <= |m| + 1
  {
    assert m[k := v].Keys == m.Keys + {k};
  }

  lemma AnswerUsesUp(s: Writer, l: Label)
    requires Step(s, l).Some? && (l.Succeed? || l.Fail?)
    ensures Left(Step(s, l).value) < Left(s)
  {
    RemovedIsSmaller(s.inFlight, l.n);
    hide Assemble, SortParts;
  }

  lemma AcquireUsesUp(s: Writer)
    requires Step(s, Acquire).Some?
    ensures Left(Step(s, Acquire).value) < Left(s)
  {
    AddedIsLarger(s.inFlight, s.waiting.value.num, s.waiting.value.body);
    hide Assemble, SortParts;
  }

  lemma QuietUsesUp(s: Writer, l: Label)
    requires Step(s, l).Some? && !l.Append? && !l.Acquire? && !l.Succeed? && !l.Fail?
    ensures Left(Step(s, l).value) < Left(s)
  {
    hide Assemble, SortParts;
  }

  /** Every step but copying in more bytes lowers what is left. */
  lemma StepsUseUpWhatIsLeft(s: Writer, l: Label)
    requires Step(s, l).Some? && !l.Append?
    ensures Left(Step(s, l).value) < Left(s)
  {
    hide Step, Left;
    if l.Acquire? { AcquireUsesUp(s); } else if l.Succeed?
        || l.Fail? { AnswerUsesUp(s, l); } else { QuietUsesUp(s, l); }
  }

  /**
   A Close or Abort that has begun ends: from there a run has at most concurrency + 6
   steps, in whatever order they come, and NeverStuck gives it one until it has ended.
   */
  lemma {:induction false} BegunEnds(states: seq<Writer>, run: seq<Label>)
    requires Behaviour(states, run) && Inv(states[0]) && !states[0].phase.Writing?
    ensures Inv(states[|run|]) && !states[|run|].phase.Writing?
    ensures |run| + Left(states[|run|]) <= Left(states[0]) <= states[0].concurrency + 6
  {
    if run != [] {
      BehaviourPrefix(states, run);
      BegunEnds(states[..|run|], run[..|run| - 1]);
      var s, l := states[|run| - 1], run[|run| - 1];
      StepKeepsInv(s, l);
      BegunStays(s, l);
      hide Step, Inv, Left;
      StepsUseUpWhatIsLeft(s, l);
    }
  }

  lemma BegunStays(s: Writer, l: Label)
    requires Step(s, l).Some? && !s.phase.Writing?
    ensures !l.Append? && !Step(s, l).value.phase.Writing?
  {
  }

  // ------------------------------------------------- every stream that fits

  /** A writer with nothing waiting, in flight or failed. */
  ghost predicate Calm(s: Writer) {
    s.waiting.None? && s.inFlight == map[] && !s.failed && s.remote.Open? && 0 < s.concurrency
        && s.partNum == |s.cut| + 1
  }

  /** The buffer goes all the way to the remote with nothing going wrong. */
  lemma UploadBuffer(partSize: nat, concurrency: nat, run: seq<Label>, s: Writer) returns (run': seq<Label>, s': Writer)
    requires Reached(partSize, concurrency, run, s) && Calm(s) && s.buf != [] && s.partNum <= MAX_PARTS
    requires (s.phase.Writing? && |s.buf| == s.partSize) || s.phase.Closing?
    ensures Reached(partSize, concurrency, run', s') && Calm(s') && Written(run') == Written(run)
    ensures s'.buf == [] && s'.cut == s.cut + [s.buf] && s'.phase == s.phase && s'.partSize == s.partSize
  {
    var n := s.partNum;
    var rotated := s.(buf := [], waiting := Some(Pending(n, s.buf)), partNum := n + 1, cut := s.cut + [s.buf]);
    var flying := rotated.(waiting := None, inFlight := map[n := s.buf]);
    s' := flying.(inFlight := map[], parts := s.parts + [n], remote := Open(s.remote.stored[n := s.buf]));
    assert Step(s, Rotate) == Some(rotated);
    ReachedSnoc(partSize, concurrency, run, s, Rotate);
    assert Step(rotated, Acquire) == Some(flying);
    ReachedSnoc(partSize, concurrency, run + [Rotate], rotated, Acquire);
    assert flying.inFlight - {n} == map[];
    assert Step(flying, Succeed(n)) == Some(s');
    ReachedSnoc(partSize, concurrency, run + [Rotate] + [Acquire], flying, Succeed(n));
    run' := run + [Rotate] + [Acquire] + [Succeed(n)];
  }

  /** Writing data that fits, a byte at a time, with every part accepted. */
  lemma {:induction false} WriteCalmly(partSize: nat, concurrency: nat, data: Bytes)
      returns (run: seq<Label>, s: Writer)
    requires 0 < partSize && 0 < concurrency && |data| <= MAX_PARTS * partSize
    ensures Reached(partSize, concurrency, run, s) && Written(run) == data
    ensures Calm(s) && s.phase.Writing? && s.partSize == partSize
    ensures |s.cut| * partSize + |s.buf| == |data| && |s.buf| <= partSize && (data != [] ==> s.buf != [])
  {
    if data == [] {
      ReachedInit(partSize, concurrency);
      return [], Init(partSize, concurrency);
    }
    var n := |data| - 1;
    run, s := WriteCalmly(partSize, concurrency, data[..n]);
    hide Reached, Written;
    if |s.buf| == partSize {
      RoomForOneMore(|s.cut|, partSize, |data|);
      run, s := UploadBuffer(partSize, concurrency, run, s);
    }
    run, s := WriteByte(partSize, concurrency, run, s, data[n]);
    assert data[..n] + [data[n]] == data;
  }

  /** Full parts below the limit leave a part number free. */
  lemma RoomForOneMore(parts: nat, size: nat, total: nat)
    requires parts * size + size < total <= MAX_PARTS * size
    ensures parts + 1 <= MAX_PARTS && (parts + 1) * size == parts * size + size
  {
    assert (parts + 1) * size == parts * size + size;
    if parts + 1 > MAX_PARTS { MulMonotone(MAX_PARTS, parts + 1, size); }
  }

  lemma WriteByte(partSize: nat, concurrency: nat, run: seq<Label>, s: Writer, b: byte)
      returns (run': seq<Label>, s': Writer)
    requires Reached(partSize, concurrency, run, s) && Calm(s) && s.phase.Writing? && |s.buf| < s.partSize
    ensures Reached(partSize, concurrency, run', s') && Written(run') == Written(run) + [b]
    ensures s' == s.(buf := s.buf + [b])
  {
    ReachedSnoc(partSize, concurrency, run, s, Append([b]));
    run', s' := run + [Append([b])], s.(buf := s.buf + [b]);
  }

  /** A stream can be committed, by some run and whatever the part size, exactly when it fits in 10000 parts. */
  lemma CommitsIffItFits(partSize: nat, concurrency: nat, data: Bytes)
    requires 0 < partSize && 0 < concurrency
    ensures |data| <= 10_000 * partSize <==>
      exists run, s :: Reached(partSize, concurrency, run, s) && Written(run) == data && s.phase == Finished(true)
  {
    if |data| <= MAX_PARTS * partSize {
      var run, s := WriteCalmly(partSize, concurrency, data);
      ReachedSnoc(partSize, concurrency, run, s, BeginClose);
      run, s := run + [BeginClose], s.(phase := Closing);
      if s.buf != [] {
        if |s.cut| + 1 > MAX_PARTS { MulMonotone(MAX_PARTS, |s.cut|, partSize); }
        run, s := UploadBuffer(partSize, concurrency, run, s);
      }
      var l := FinishClose(true, true);
      ReachedSnoc(partSize, concurrency, run, s, l);
      run, s := run + [l], Step(s, l).value;
      assert Reached(partSize, concurrency, run, s) && Written(run) == data;
    }
    forall run, s | Reached(partSize, concurrency, run, s) && Written(run) == data && s.phase == Finished(true)
      ensures |data| <= MAX_PARTS * partSize
    {
      CommittedGeometry(partSize, concurrency, run, s);
    }
  }
}
