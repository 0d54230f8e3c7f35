/**
 The dispatch loop of uploadParts and downloadParts, as written.  Its fields are always a
 state that module WorkerPool reaches by the logged moves; goroutines finish, and the
 caller's context may be cancelled, whenever the loop looks at shared state or blocks.
 */
module Dispatchers {
  import opened Basics
  import opened WorkerPool

  class Dispatcher<T> {
    const jobs: nat
    const parallel: int
    const limit: nat
    const zero: T
    const work: nat -> T

    var slots: seq<Slot>
    var next: nat
    var firstErr: Option<nat>
    var cancelled: bool
    var parentGone: bool
    var results: seq<T>

    ghost var admitted: bool
    ghost var broke: bool
    ghost var moves: seq<Move>
    ghost var states: seq<Pool>

    ghost function State(): Pool
      reads this
    {
      Pool(limit, slots, next, admitted, broke, firstErr, cancelled, parentGone)
    }

    ghost predicate Logged()
      reads this
    {
      && Run(states, moves) && states[0] == NewPool(jobs, parallel) && states[|moves|] == State()
      && |slots| == |results| == jobs
      && forall j :: 0 <= j < jobs ==> results[j] == if slots[j].Won? then work(j) else zero
    }

    lemma PoolInv()
      requires Logged()
      ensures WorkerPool.Inv(State())
    {
      NewPoolInv(jobs, parallel);
      RunFacts(states, moves, |moves|);
    }

    /** `work(j)` is what job j yields when it succeeds, `zero` the value of an unfilled slot. */
    constructor (jobs: nat, parallel: int, zero: T, work: nat -> T)
      ensures Logged() && moves == []
      ensures this.jobs == jobs && this.parallel == parallel && this.zero == zero && this.work == work
    {
      var fresh0 := NewPool(jobs, parallel);
      this.jobs, this.parallel, this.zero, this.work, limit := jobs, parallel, zero, work, fresh0.limit;
      slots, next, firstErr, cancelled, parentGone := fresh0.slots, 0, None, false, false;
      results := seq(jobs, _ => zero);
      admitted, broke, moves, states := false, false, [], [fresh0];
    }

    ghost method Log(before: Pool, m: Move)
      requires Run(states, moves) && states[0] == NewPool(jobs, parallel) && states[|moves|] == before
      requires Next(before, m) == Some(State())
      requires |slots| == |results| == jobs
      requires forall j :: 0 <= j < jobs ==> results[j] == if slots[j].Won? then work(j) else zero
      modifies this`moves, this`states
      ensures Logged()
    {
      var states', moves' := states + [State()], moves + [m];
      forall i | 0 <= i < |moves'| ensures Moved(states', moves', i) {
        if i < |moves| { assert Moved(states, moves, i); }
      }
      states, moves := states', moves';
    }

    predicate Running()
      reads this
    {
      exists j :: 0 <= j < |slots| && slots[j].Busy?
    }

    /** One goroutine finishes: it stores its result at its own index, or records its error. */
    method FinishOne()
      requires Logged() && Running()
      modifies this`slots, this`firstErr, this`cancelled, this`results, this`moves, this`states
      ensures Logged() && BusyCount(slots) < BusyCount(old(slots))
    {
      ghost var before := State();
      var j :| 0 <= j < |slots| && slots[j].Busy?;
      var ok: bool := *;
      if ok {
        BusyCountUpdate(slots, j, Won);
        slots := slots[j := Won];
        results := results[j := work(j)];
        Log(before, Win(j));
      } else {
        BusyCountUpdate(slots, j, Lost);
        slots := slots[j := Lost];
        // recordErr: the first error stays, and the run context is cancelled with it.
        if firstErr.None? { firstErr := Some(j); }
        cancelled := true;
        Log(before, Lose(j));
      }
    }

    /** The caller's context may be cancelled, and any number of goroutines finish. */
    method LetOthersRun()
      requires Logged()
      modifies this`slots, this`firstErr, this`cancelled, this`results, this`moves, this`states, this`parentGone
      ensures Logged() && BusyCount(slots) <= BusyCount(old(slots))
      ensures old(parentGone) ==> parentGone
    {
      var gone: bool := *;
      if gone {
        ghost var before := State();
        parentGone := true;
        Log(before, CancelParent);
      }
      var more: bool := *;
      while more && Running()
        invariant Logged() && BusyCount(slots) <= BusyCount(old(slots))
        invariant old(parentGone) ==> parentGone
        decreases BusyCount(slots)
      {
        FinishOne();
        more := *;
      }
    }

    /** sem <- struct{}{}, then the goroutine starts. */
    method Launch()
      requires Logged() && admitted && next < jobs && !broke
      modifies this
      ensures Logged() && !admitted && !broke && next == old(next) + 1
    {
      LetOthersRun();
      PoolInv();
      while BusyCount(slots) >= limit
        invariant Logged() && admitted && next == old(next) && !broke
        decreases BusyCount(slots)
      {
        PoolInv();
        if !Running() { NoneBusy(slots); }
        FinishOne();
      }
      PoolInv();
      Start();
    }

    method Start()
      requires Logged() && admitted && next < jobs && !broke && BusyCount(slots) < limit && slots[next].Idle?
      modifies this
      ensures Logged() && !admitted && !broke && next == old(next) + 1
    {
      ghost var before := State();
      slots := slots[next := Busy];
      next := next + 1;
      admitted := false;
      Log(before, WorkerPool.Launch);
    }

    method WaitAll()
      requires Logged()
      modifies this`slots, this`firstErr, this`cancelled, this`results, this`moves, this`states
      ensures Logged() && !Running()
    {
      while Running()
        invariant Logged()
        decreases BusyCount(slots)
      {
        FinishOne();
      }
    }

    /**
     The loop, wg.Wait() and the error check.  A nil error with a live caller means every
     job succeeded and its result is at its own index; a cancelled caller can leave slots
     at their zero value behind a nil error.
     */
    method RunAll() returns (err: Option<nat>)
      requires Logged() && moves == []
      modifies this
      ensures Logged() && Ended(State()) && err == firstErr
      ensures err.None? ==> (broke <==> exists j :: 0 <= j < jobs && !slots[j].Won?)
      ensures err.None? && !parentGone ==> results == seq(jobs, j requires 0 <= j < jobs => work(j))
      ensures err.Some? ==> err.value < jobs && slots[err.value].Lost?
    {
      assert State() == NewPool(jobs, parallel);
      while next < jobs
        invariant Logged() && !admitted && !broke && next <= jobs
        decreases jobs - next
      {
        LetOthersRun();
        ghost var before := State();
        if cancelled || parentGone {
          broke := true;
          Log(before, Check);
          break;
        }
        admitted := true;
        Log(before, Check);
        Launch();
      }
      WaitAll();
      PoolInv();
      err := firstErr;
      if err.None? { NilMeansAllWon(State()); }
    }
  }
}
