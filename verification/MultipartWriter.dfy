/**
 The S3 backend's writer object, method by method.

 `Valid` says the object's fields are a state that the transition system of module
 Multipart reaches by the logged run, so every theorem there holds of the object.
 Worker goroutines run whenever a method looks at shared state or blocks: RunWorker
 finishes an arbitrary in-flight part with an arbitrary outcome.
 */
module MultipartWriters {
  import opened Basics
  import opened Multipart
  import WriterContract

  const DEFAULT_PART_SIZE: nat := 256 * 1024 * 1024
  const DEFAULT_CONCURRENCY: nat := 5

  /** The visible objects of a bucket. */
  class ObjectStore {
    var objects: map<string, Bytes>

    constructor (objects: map<string, Bytes>)
      ensures this.objects == objects
    {
      this.objects := objects;
    }
  }

  class MultipartWriter {
    const store: ObjectStore
    const key: string
    const partSize: nat
    const concurrency: nat

    var buf: Bytes
    var partNum: nat
    var inFlight: map<nat, Bytes>
    var parts: seq<nat>
    var failed: bool
    var done: bool
    var remote: Remote

    ghost var waiting: Option<Pending>
    ghost var phase: Phase
    ghost var cut: seq<Bytes>
    ghost var run: seq<Label>
    ghost var states: seq<Writer>

    ghost function State(): Writer
      reads this
    {
      Writer(partSize, concurrency, buf, partNum, waiting, inFlight, parts, failed, phase, remote, cut)
    }

    /** The writer as its caller sees it. */
    ghost function Contract(): WriterContract.Handle
      reads this, store
    {
      WriterContract.Handle(Written(run), done,
                            if key in store.objects then Some(store.objects[key]) else None)
    }

    /** The fields are what the logged run leads to from a fresh upload. */
    ghost predicate Logged()
      reads this
    {
      && 0 < partSize && 0 < concurrency
      && Behaviour(states, run)
      && states[0] == Init(partSize, concurrency) && states[|run|] == State()
      && (done <==> !phase.Writing?)
    }

    lemma LoggedFacts()
      requires Logged()
      ensures Reached(partSize, concurrency, run, State()) && Inv(State())
    {
      ReachedSummary(partSize, concurrency, run, State());
    }

    lemma BufferFits()
      requires Logged()
      ensures |buf| <= partSize
    {
      LoggedFacts();
    }

    lemma StillOpen()
      requires Logged()
      ensures !phase.Finished? ==> remote.Open?
      ensures inFlight != map[] ==> !phase.Finished?
    {
      LoggedFacts();
    }

    lemma Outcome()
      requires Logged()
      ensures phase == Finished(true) <==> remote == Completed(Written(run))
      ensures phase != Finished(true) ==> !remote.Completed?
    {
      LoggedFacts();
      StreamPreserved(partSize, concurrency, run, State());
    }

    /** Logged, and no method is in progress. */
    ghost predicate Valid()
      reads this
    {
      Logged() && waiting.None? && (phase.Writing? || phase.Finished?)
    }

    /** New clamps non-positive tunables to the defaults; Put starts the upload. */
    constructor (store: ObjectStore, key: string, partSize: int, concurrency: int)
      ensures Valid() && !done && !failed && run == []
      ensures this.store == store && this.key == key
      ensures this.partSize == if partSize <= 0 then 268_435_456 else partSize
      ensures this.concurrency == if concurrency <= 0 then 5 else concurrency
    {
      this.store, this.key := store, key;
      var size := if partSize <= 0 then DEFAULT_PART_SIZE else partSize;
      var slots := if concurrency <= 0 then DEFAULT_CONCURRENCY else concurrency;
      this.partSize, this.concurrency := size, slots;
      buf, partNum, inFlight, parts, failed, done, remote := [], 1, map[], [], false, false, Open(map[]);
      waiting, phase, cut, run := None, Writing, [], [];
      states := [Init(size, slots)];
    }

    /** Appends the step just taken to the log. */
    ghost method Log(before: Writer, l: Label)
      requires 0 < partSize && 0 < concurrency && Behaviour(states, run)
      requires states[0] == Init(partSize, concurrency) && states[|run|] == before
      requires Step(before, l) == Some(State())
      requires done <==> !phase.Writing?
      modifies this`run, this`states
      ensures Logged() && run == old(run) + [l]
      ensures Written(run) == if l.Append? then Written(old(run)) + l.p else Written(old(run))
    {
      BehaviourSnoc(states, run, l, State());
      run, states := run + [l], states + [State()];
    }

    /** One worker goroutine finishes its UploadPart, in either way. */
    method RunWorker()
      requires Logged() && inFlight != map[]
      modifies this`inFlight, this`parts, this`failed, this`remote, this`run, this`states
      ensures Logged() && |inFlight| < |old(inFlight)|
      ensures Written(run) == Written(old(run))
      ensures old(failed) ==> failed
    {
      StillOpen();
      ghost var before := State();
      var n :| n in inFlight;
      RemovedIsSmaller(inFlight, n);
      var accepted: bool, landed: bool := *, *;
      if accepted && n <= MAX_PARTS {
        remote := Open(remote.stored[n := inFlight[n]]);
        parts := parts + [n];
        inFlight := inFlight - {n};
        Log(before, Succeed(n));
      } else {
        if landed { remote := Open(remote.stored[n := inFlight[n]]); }
        failed := true;
        inFlight := inFlight - {n};
        Log(before, Fail(n, landed));
      }
    }

    /** Any number of workers finish before the caller looks again. */
    method LetWorkersRun()
      requires Logged()
      modifies this`inFlight, this`parts, this`failed, this`remote, this`run, this`states
      ensures Logged() && |inFlight| <= |old(inFlight)|
      ensures Written(run) == Written(old(run))
      ensures old(failed) ==> failed
    {
      var more: bool := *;
      while more && inFlight != map[]
        invariant Logged() && |inFlight| <= |old(inFlight)|
        invariant Written(run) == Written(old(run))
        invariant old(failed) ==> failed
        decreases |inFlight|
      {
        RunWorker();
        more := *;
      }
    }

    method PeekErr() returns (err: bool)
      requires Logged()
      modifies this`inFlight, this`parts, this`failed, this`remote, this`run, this`states
      ensures Logged() && err == failed && |inFlight| <= |old(inFlight)|
      ensures Written(run) == Written(old(run))
      ensures old(failed) ==> failed
    {
      LetWorkersRun();
      err := failed;
    }

    /** wg.Wait(): every launched worker finishes. */
    method WaitAll()
      requires Logged()
      modifies this`inFlight, this`parts, this`failed, this`remote, this`run, this`states
      ensures Logged() && inFlight == map[]
      ensures Written(run) == Written(old(run))
      ensures old(failed) ==> failed
    {
      while inFlight != map[]
        invariant Logged()
        invariant Written(run) == Written(old(run))
        invariant old(failed) ==> failed
        decreases |inFlight|
      {
        RunWorker();
      }
    }

    /** Starts an upload of the buffer, blocking while all slots are taken. */
    method DispatchBuffered() returns (err: bool)
      requires Logged() && waiting.None?
      requires phase.Closing? || (phase.Writing? && |buf| == partSize)
      modifies this`buf, this`partNum, this`inFlight, this`parts, this`failed, this`remote
      modifies this`waiting, this`cut, this`run, this`states
      ensures Logged() && waiting.None?
      ensures Written(run) == Written(old(run))
      ensures old(failed) ==> failed
      ensures err ==> failed && buf == old(buf)
      ensures !err ==> buf == []
    {
      if |buf| == 0 { return false; }
      err := PeekErr();
      if err { return; }

      ghost var before := State();
      var body, pn := buf, partNum;
      buf, partNum := [], partNum + 1;
      waiting, cut := Some(Pending(pn, body)), cut + [body];
      Log(before, Rotate);
      Launch(pn, body);
    }

    /** Takes a semaphore slot, waiting for a worker while none is free, and starts the worker. */
    method Launch(pn: nat, body: Bytes)
      requires Logged() && waiting == Some(Pending(pn, body))
      modifies this`inFlight, this`parts, this`failed, this`remote, this`waiting, this`run, this`states
      ensures Logged() && waiting.None?
      ensures Written(run) == Written(old(run))
      ensures old(failed) ==> failed
    {
      LetWorkersRun();
      while |inFlight| >= concurrency
        invariant Logged() && waiting == Some(Pending(pn, body))
        invariant Written(run) == Written(old(run))
        invariant old(failed) ==> failed
        decreases |inFlight|
      {
        RunWorker();
      }
      ghost var before := State();
      inFlight := inFlight[pn := body];
      waiting := None;
      Log(before, Acquire);
    }

    /**
     Copies p into part-sized buffers.  On success all of p has been accepted; on
     error some prefix has, and a part has failed.
     */
    method Write(p: Bytes) returns (n: nat, err: bool)
      requires Valid() && !done
      modifies this`buf, this`partNum, this`inFlight, this`parts, this`failed, this`remote
      modifies this`waiting, this`cut, this`run, this`states
      ensures Valid() && !done
      ensures !err ==> n == |p| && Written(run) == Written(old(run)) + p
      ensures WriterContract.Allowed(old(Contract()), WriterContract.Write(p, !err), Contract())
      ensures err ==> n == 0 && failed && exists k :: 0 <= k <= |p| && Written(run) == Written(old(run)) + p[..k]
      ensures old(failed) ==> err
    {
      assert p[..0] == [] && p[..|p|] == p;
      err := PeekErr();
      if err { return 0, true; }
      var rest := p;
      ghost var k := 0;
      while |rest| > 0
        invariant Valid() && !done && !old(failed)
        invariant 0 <= k <= |p| && rest == p[k..] && Written(run) == Written(old(run)) + p[..k]
        decreases |rest|, |buf|
      {
        BufferFits();
        var room := partSize - |buf|;
        if room == 0 {
          err := DispatchBuffered();
          if err { return 0, true; }
          continue;
        }
        var size := if |rest| > room then room else |rest|;
        Copy(rest[..size]);
        assert Written(old(run)) + p[..k + size] == Written(old(run)) + p[..k] + rest[..size];
        rest, k := rest[size..], k + size;
      }
      return |p|, false;
    }

    /** w.buf = append(w.buf, chunk...): never grows past the buffer's capacity. */
    method Copy(chunk: Bytes)
      requires Valid() && !done && chunk != [] && |buf| + |chunk| <= partSize
      modifies this`buf, this`run, this`states
      ensures Valid() && !done && buf == old(buf) + chunk
      ensures Written(run) == Written(old(run)) + chunk
    {
      ghost var before := State();
      buf := buf + chunk;
      Log(before, Append(chunk));
    }

    /**
     The first Close returns nil exactly when the remote committed the object, which
     is then every byte written and visible at the key; otherwise no object changes.
     A Close after Close or Abort does nothing and returns nil.
     */
    method Close() returns (err: bool)
      requires Valid()
      modifies this`buf, this`partNum, this`inFlight, this`parts, this`failed, this`remote, this`done
      modifies this`waiting, this`cut, this`run, this`states, this`phase, store`objects
      ensures Valid() && done
      ensures WriterContract.Allowed(old(Contract()), WriterContract.Close(!err), Contract())
      ensures old(done) ==> !err && State() == old(State()) && run == old(run)
      ensures !old(done) && !err ==>
        && remote == Completed(Written(old(run)))
        && store.objects == old(store.objects)[key := Written(old(run))]
      ensures old(done) || err ==> store.objects == old(store.objects)
      ensures err ==> !remote.Completed?
      ensures !old(done) && old(failed) ==> err
      ensures Written(run) == Written(old(run))
    {
      if done { return false; }
      var flushErr := Flush();
      if failed || flushErr {
        err := Complete(false);
        return true;
      }
      var accepted: bool := *;
      err := Complete(accepted);
    }

    /** Close up to wg.Wait(): the buffered tail goes out as the last part. */
    method Flush() returns (flushErr: bool)
      requires Valid() && !done
      modifies this`buf, this`partNum, this`inFlight, this`parts, this`failed, this`remote, this`done
      modifies this`waiting, this`cut, this`run, this`states, this`phase
      ensures Logged() && phase.Closing? && waiting.None? && inFlight == map[] && (failed || buf == [])
      ensures Written(run) == Written(old(run))
      ensures flushErr || old(failed) ==> failed
    {
      ghost var before := State();
      done, phase := true, Closing;
      Log(before, BeginClose);
      flushErr := DispatchBuffered();
      WaitAll();
    }

    /** CompleteMultipartUpload (when `accepted`), or abortRemote. */
    method Complete(accepted: bool) returns (err: bool)
      requires Logged() && phase.Closing? && waiting.None? && inFlight == map[] && (failed || buf == [])
      modifies this`remote, this`run, this`states, this`phase, store`objects
      ensures Valid() && Written(run) == Written(old(run))
      ensures err == (failed || !accepted)
      ensures !err ==>
        && remote == Completed(Written(old(run)))
        && store.objects == old(store.objects)[key := Written(old(run))]
      ensures err ==> !remote.Completed? && store.objects == old(store.objects)
    {
      StillOpen();
      ghost var before := State();
      var reaped: bool := *;
      if !failed && accepted {
        var content := Assemble(remote.stored, SortParts(parts));
        remote := Completed(content);
        store.objects := store.objects[key := content];
        phase := Finished(true);
      } else {
        remote := Discard(remote, reaped);
        phase := Finished(false);
      }
      err := failed || !accepted;
      Log(before, FinishClose(accepted, reaped));
      Outcome();
    }

    /** Discards the upload; a no-op after Close or Abort. */
    method Abort()
      requires Valid()
      modifies this`inFlight, this`parts, this`failed, this`remote, this`done, this`run, this`states, this`phase
      ensures Valid() && done
      ensures WriterContract.Allowed(old(Contract()), WriterContract.Abort, Contract())
      ensures old(done) ==> State() == old(State()) && run == old(run)
      ensures !old(done) ==> !remote.Completed?
      ensures Written(run) == Written(old(run))
    {
      if done { return; }
      ghost var before := State();
      done, failed, phase := true, true, Aborting;
      Log(before, BeginAbort);

      WaitAll();
      ForgetRemote();
    }

    /** abortRemote on the Abort path. */
    method ForgetRemote()
      requires Logged() && phase.Aborting? && waiting.None? && inFlight == map[]
      modifies this`remote, this`run, this`states, this`phase
      ensures Valid() && done && !remote.Completed? && Written(run) == Written(old(run))
    {
      StillOpen();
      ghost var before := State();
      var reaped: bool := *;
      remote, phase := Discard(remote, reaped), Finished(false);
      Log(before, FinishAbort(reaped));
      Outcome();
    }
  }
}
