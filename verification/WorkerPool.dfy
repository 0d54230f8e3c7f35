/**
 The worker pool uploadParts and downloadParts share: one goroutine per job, bounded
 by a semaphore, the first recorded error cancels the run context.
 */
module WorkerPool {
  import opened Basics

  datatype Slot = Idle | Busy | Won | Lost

  /**
   `admitted`: the loop passed its context check for job `next` and waits for a slot.
   `broke`: the loop left through its cancellation check.
   `cancelled`: recordErr cancelled the run context; `parentGone`: the caller's is done.
   */
  datatype Pool = Pool(
    limit: nat,
    slots: seq<Slot>,
    next: nat,
    admitted: bool,
    broke: bool,
    firstErr: Option<nat>,
    cancelled: bool,
    parentGone: bool)

  datatype Move = Check | Launch | Win(j: nat) | Lose(j: nat) | CancelParent

  /** The requested parallelism, clamped to 1..jobs. */
  function NewPool(jobs: nat, parallel: int): Pool {
    var atLeastOne := if parallel < 1 then 1 else parallel;
    Pool(if atLeastOne > jobs then jobs else atLeastOne,
         seq(jobs, _ => Idle), 0, false, false, None, false, false)
  }

  function BusyCount(slots: seq<Slot>): nat {
    if slots == [] then 0
    else BusyCount(slots[..|slots| - 1]) + if slots[|slots| - 1].Busy? then 1 else 0
  }

  function Next(p: Pool, m: Move): Option<Pool> {
    match m
    case Check =>
      if p.next < |p.slots| && !p.admitted && !p.broke then
        if p.cancelled || p.parentGone then Some(p.(broke := true)) else Some(p.(admitted := true))
      else None
    case Launch =>
      if p.admitted && p.next < |p.slots| && BusyCount(p.slots) < p.limit then
        Some(p.(slots := p.slots[p.next := Busy], next := p.next + 1, admitted := false))
      else None
    case Win(j) =>
      if j < |p.slots| && p.slots[j].Busy? then Some(p.(slots := p.slots[j := Won])) else None
    case Lose(j) =>
      if j < |p.slots| && p.slots[j].Busy? then
        Some(p.(slots := p.slots[j := Lost],
                firstErr := if p.firstErr.None? then Some(j) else p.firstErr, cancelled := true))
      else None
    case CancelParent => Some(p.(parentGone := true))
  }

  /** The loop is over and wg.Wait() has returned. */
  predicate Ended(p: Pool) {
    !p.admitted && (p.broke || p.next == |p.slots|) && forall j :: 0 <= j < |p.slots| ==> !p.slots[j].Busy?
  }

  ghost predicate Inv(p: Pool) {
    && p.next <= |p.slots| && (0 < |p.slots| ==> 0 < p.limit)
    && (forall j :: 0 <= j < |p.slots| ==> (p.slots[j].Idle? <==> p.next <= j))
    && BusyCount(p.slots) <= p.limit
    && (p.firstErr.Some? <==> p.cancelled)
    && (p.firstErr.Some? ==> p.firstErr.value < |p.slots| && p.slots[p.firstErr.value].Lost?)
    && (forall j :: 0 <= j < |p.slots| && p.slots[j].Lost? ==> p.firstErr.Some?)
    && (p.broke ==> (p.cancelled || p.parentGone) && p.next < |p.slots| && !p.admitted)
    && (p.admitted ==> p.next < |p.slots|)
  }

  lemma {:induction false} BusyCountUpdate(slots: seq<Slot>, j: nat, s: Slot)
    requires j < |slots|
    ensures BusyCount(slots[j := s])
         == BusyCount(slots) + (if s.Busy? then 1 else 0) - (if slots[j].Busy? then 1 else 0)
  {
    var k := |slots| - 1;
    if j == k {
      assert slots[j := s][..k] == slots[..k];
    } else {
      BusyCountUpdate(slots[..k], j, s);
      assert slots[j := s][..k] == slots[..k][j := s];
    }
  }

  lemma {:induction false} NoneBusy(slots: seq<Slot>)
    requires forall j :: 0 <= j < |slots| ==> !slots[j].Busy?
    ensures BusyCount(slots) == 0
  {
    if slots != [] { NoneBusy(slots[..|slots| - 1]); }
  }

  lemma NewPoolInv(jobs: nat, parallel: int)
    ensures Inv(NewPool(jobs, parallel))
  {
    NoneBusy(NewPool(jobs, parallel).slots);
  }

  lemma NextKeepsInv(p: Pool, m: Move)
    requires Inv(p) && Next(p, m).Some?
    ensures Inv(Next(p, m).value)
  {
    match m
    case Launch => BusyCountUpdate(p.slots, p.next, Busy);
    case Win(j) => BusyCountUpdate(p.slots, j, Won);
    case Lose(j) => BusyCountUpdate(p.slots, j, Lost);
    case _ =>
  }

  /** The first recorded error is never replaced, and a finished job stays finished. */
  lemma NextIsMonotone(p: Pool, m: Move)
    requires Inv(p) && Next(p, m).Some?
    ensures var p' := Next(p, m).value;
      && (p.firstErr.Some? ==> p'.firstErr == p.firstErr)
      && |p'.slots| == |p.slots|
      && (forall j :: 0 <= j < |p.slots| && (p.slots[j].Won? || p.slots[j].Lost?) ==> p'.slots[j] == p.slots[j])
      && (p.parentGone ==> p'.parentGone)
  {
  }

  /**
   A pool that ends without an error has run every job successfully exactly when its
   loop was not cut short, and only the caller's cancellation cuts it short.
   */
  lemma NilMeansAllWon(p: Pool)
    requires Inv(p) && Ended(p) && p.firstErr.None?
    ensures (forall j :: 0 <= j < |p.slots| ==> p.slots[j].Won?) <==> !p.broke
    ensures p.broke ==> p.parentGone
  {
    if p.broke { assert p.slots[p.next].Idle?; }
  }

  /** Until it ends, the pool itself (not its environment) always has a move. */
  lemma NoDeadlock(p: Pool)
    requires Inv(p) && !Ended(p)
    ensures exists m: Move :: !m.CancelParent? && Next(p, m).Some?
  {
    if j :| 0 <= j < |p.slots| && p.slots[j].Busy? {
      assert Next(p, Win(j)).Some?;
    } else if p.admitted {
      NoneBusy(p.slots);
      assert Next(p, Launch).Some?;
    } else {
      assert Next(p, Check).Some?;
    }
  }

  /** Moves the pool can still make. */
  function Fuel(p: Pool): nat
    requires p.next <= |p.slots|
  {
    3 * (|p.slots| - p.next) + (if p.admitted || p.broke then 0 else 1) + BusyCount(p.slots)
  }

  /** Every move but a cancellation uses up fuel, so the pool always ends. */
  lemma MovesUseFuel(p: Pool, m: Move)
    requires Inv(p) && Next(p, m).Some?
    ensures Next(p, m).value.next <= |Next(p, m).value.slots|
    ensures m.CancelParent? ==> Fuel(Next(p, m).value) == Fuel(p)
    ensures !m.CancelParent? ==> Fuel(Next(p, m).value) < Fuel(p)
  {
    match m
    case Launch => BusyCountUpdate(p.slots, p.next, Busy);
    case Win(j) => BusyCountUpdate(p.slots, j, Won);
    case Lose(j) => BusyCountUpdate(p.slots, j, Lost);
    case _ =>
  }

  // --------------------------------------------------------------------- runs

  ghost predicate Run(states: seq<Pool>, moves: seq<Move>) {
    && |states| == |moves| + 1
    && forall i :: 0 <= i < |moves| ==> Moved(states, moves, i)
  }

  ghost predicate Moved(states: seq<Pool>, moves: seq<Move>, i: nat)
    requires i < |moves| < |states|
  {
    Next(states[i], moves[i]) == Some(states[i + 1])
  }

  function Work(moves: seq<Move>): nat {
    if moves == [] then 0
    else Work(moves[..|moves| - 1]) + if moves[|moves| - 1].CancelParent? then 0 else 1
  }

  lemma NextKeepsSize(p: Pool, m: Move)
    requires Next(p, m).Some?
    ensures |Next(p, m).value.slots| == |p.slots| && Next(p, m).value.limit == p.limit
  {
  }

  lemma {:induction false} RunFacts(states: seq<Pool>, moves: seq<Move>, k: nat)
    requires Run(states, moves) && Inv(states[0]) && k <= |moves|
    ensures Inv(states[k]) && |states[k].slots| == |states[0].slots| && states[k].limit == states[0].limit
    ensures Work(moves[..k]) + Fuel(states[k]) <= Fuel(states[0])
  {
    if k > 0 {
      RunFacts(states, moves, k - 1);
      assert Moved(states, moves, k - 1);
      NextKeepsInv(states[k - 1], moves[k - 1]);
      MovesUseFuel(states[k - 1], moves[k - 1]);
      NextKeepsSize(states[k - 1], moves[k - 1]);
      hide Next, Inv, Fuel, Run;
      assert moves[..k][..k - 1] == moves[..k - 1];
    }
  }

  lemma {:induction false} FirstErrorStays(states: seq<Pool>, moves: seq<Move>, i: nat, k: nat)
    requires Run(states, moves) && Inv(states[0]) && i <= k <= |moves| && states[i].firstErr.Some?
    ensures states[k].firstErr == states[i].firstErr
  {
    if i < k {
      FirstErrorStays(states, moves, i, k - 1);
      RunFacts(states, moves, k - 1);
      assert Moved(states, moves, k - 1);
      NextIsMonotone(states[k - 1], moves[k - 1]);
    }
  }

  /** Jobs started, with the one that has passed its check and waits for a slot. */
  function Committed(p: Pool): nat {
    p.next + if p.admitted then 1 else 0
  }

  /** Once an error is recorded or the caller has cancelled, no job passes the check any more. */
  lemma {:induction false} CancelStopsLaunching(states: seq<Pool>, moves: seq<Move>, i: nat, k: nat)
    requires Run(states, moves) && i <= k <= |moves| && (states[i].cancelled || states[i].parentGone)
    ensures states[k].cancelled || states[k].parentGone
    ensures states[k].next <= Committed(states[k]) <= Committed(states[i])
  {
    if i < k {
      CancelStopsLaunching(states, moves, i, k - 1);
      assert Moved(states, moves, k - 1);
    }
  }

  /** How many jobs may run at once: as many as asked for, but at least one and not more than there are. */
  function AtOnce(jobs: nat, parallel: int): nat {
    if jobs == 0 then 0 else if parallel < 1 then 1 else if parallel < jobs then parallel else jobs
  }

  /** A run that has started k jobs and finished none. */
  lemma {:induction false} StartsFirst(jobs: nat, parallel: int, k: nat) returns (states: seq<Pool>, moves: seq<Move>)
    requires k <= AtOnce(jobs, parallel)
    ensures Run(states, moves) && states[0] == NewPool(jobs, parallel)
    ensures var p := states[|moves|];
      && |p.slots| == jobs && p.limit == NewPool(jobs, parallel).limit && p.next == k && BusyCount(p.slots) == k
      && !p.admitted && !p.broke && !p.cancelled && !p.parentGone && (forall j :: k <= j < jobs ==> p.slots[j].Idle?)
  {
    if k == 0 {
      states, moves := [NewPool(jobs, parallel)], [];
      NoneBusy(states[0].slots);
    } else {
      states, moves := StartsFirst(jobs, parallel, k - 1);
      var p := states[|moves|];
      BusyCountUpdate(p.slots, k - 1, Busy);
      states, moves := OneMore(states, moves, Check);
      states, moves := OneMore(states, moves, Launch);
    }
  }

  lemma OneMore(states: seq<Pool>, moves: seq<Move>, m: Move) returns (states': seq<Pool>, moves': seq<Move>)
    requires Run(states, moves) && Next(states[|moves|], m).Some?
    ensures Run(states', moves') && states'[0] == states[0]
    ensures Next(states[|moves|], m) == Some(states'[|moves'|])
  {
    hide Next;
    states', moves' := states + [Next(states[|moves|], m).value], moves + [m];
    forall i | 0 <= i < |moves'| ensures Moved(states', moves', i) {
      if i < |moves| { assert Moved(states, moves, i); }
    }
  }

  /** The bound is tight: some run of every pool has exactly that many jobs running at once. */
  lemma BoundIsReached(jobs: nat, parallel: int) returns (states: seq<Pool>, moves: seq<Move>)
    ensures Run(states, moves) && states[0] == NewPool(jobs, parallel)
    ensures BusyCount(states[|moves|].slots) ==
            if jobs == 0 then 0 else if parallel < 1 then 1 else if parallel < jobs then parallel else jobs
  {
    states, moves := StartsFirst(jobs, parallel, AtOnce(jobs, parallel));
  }

  /**
   For every schedule: at most the clamped parallelism runs at once, at most 3n + 1
   moves are made, and an ended run without an error and without the caller's
   cancellation has succeeded at every job.
   */
  lemma PoolTheorem(states: seq<Pool>, moves: seq<Move>, jobs: nat, parallel: int)
    requires Run(states, moves) && states[0] == NewPool(jobs, parallel)
    ensures var p := states[|moves|];
      && |p.slots| == jobs
      && BusyCount(p.slots) <= AtOnce(jobs, parallel)
      && Work(moves) <= 3 * jobs + 1
      && (Ended(p) && p.firstErr.None? && !p.parentGone ==> forall j :: 0 <= j < jobs ==> p.slots[j].Won?)
  {
    NewPoolInv(jobs, parallel);
    RunFacts(states, moves, |moves|);
    NoneBusy(states[0].slots);
    assert moves[..|moves|] == moves;
    var p := states[|moves|];
    if Ended(p) && p.firstErr.None? { NilMeansAllWon(p); }
  }
}
