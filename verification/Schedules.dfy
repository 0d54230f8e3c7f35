/**
 Interleavings of several streams.  A schedule names, step by step, the stream whose
 next element is taken; it is complete when every stream has been used up.
 */
module Schedules {

  type Schedule = seq<nat>

  function Count(sched: Schedule, j: nat): (n: nat)
    ensures n <= |sched|
  {
    if sched == [] then 0
    else Count(sched[..|sched| - 1], j) + if sched[|sched| - 1] == j then 1 else 0
  }

  /** No stream is asked for more than it has. */
  ghost predicate Fits<T>(streams: seq<seq<T>>, sched: Schedule) {
    && (forall a :: 0 <= a < |sched| ==> sched[a] < |streams|)
    && (forall j :: 0 <= j < |streams| ==> Count(sched, j) <= |streams[j]|)
  }

  ghost predicate Complete<T>(streams: seq<seq<T>>, sched: Schedule) {
    Fits(streams, sched) && forall j :: 0 <= j < |streams| ==> Count(sched, j) == |streams[j]|
  }

  lemma {:induction false} CountPrefix(sched: Schedule, a: nat, j: nat)
    requires a <= |sched|
    ensures Count(sched[..a], j) <= Count(sched, j)
    ensures a < |sched| && sched[a] == j ==> Count(sched[..a], j) < Count(sched, j)
    decreases |sched| - a
  {
    if a < |sched| {
      CountPrefix(sched, a + 1, j);
      assert sched[..a + 1][..a] == sched[..a];
    } else {
      assert sched[..a] == sched;
    }
  }

  lemma FitsPrefix<T>(streams: seq<seq<T>>, sched: Schedule, a: nat)
    requires Fits(streams, sched) && a <= |sched|
    ensures Fits(streams, sched[..a])
  {
    forall j | 0 <= j < |streams| ensures Count(sched[..a], j) <= |streams[j]| {
      CountPrefix(sched, a, j);
    }
  }

  /** The element taken at step a. */
  ghost function Taken<T>(streams: seq<seq<T>>, sched: Schedule, a: nat): T
    requires Fits(streams, sched) && a < |sched|
  {
    CountPrefix(sched, a, sched[a]);
    streams[sched[a]][Count(sched[..a], sched[a])]
  }

  /** The elements in the order the schedule takes them. */
  ghost function Merge<T>(streams: seq<seq<T>>, sched: Schedule): (m: seq<T>)
    requires Fits(streams, sched)
    ensures |m| == |sched| && forall a :: 0 <= a < |sched| ==> m[a] == Taken(streams, sched, a)
  {
    seq(|sched|, a requires 0 <= a < |sched| => Taken(streams, sched, a))
  }

  lemma MergePrefix<T>(streams: seq<seq<T>>, sched: Schedule, a: nat)
    requires Fits(streams, sched) && a <= |sched|
    ensures Fits(streams, sched[..a]) && Merge(streams, sched[..a]) == Merge(streams, sched)[..a]
  {
    FitsPrefix(streams, sched, a);
    hide Fits, Count, Merge;
    forall b | 0 <= b < a ensures Merge(streams, sched[..a])[b] == Merge(streams, sched)[b] {
      assert sched[..a][..b] == sched[..b];
    }
  }

  lemma {:induction false} OccurrenceExists(sched: Schedule, j: nat, k: nat) returns (a: nat)
    requires k < Count(sched, j)
    ensures a < |sched| && sched[a] == j && Count(sched[..a], j) == k
  {
    var n := |sched| - 1;
    if sched[n] == j && Count(sched[..n], j) == k {
      a := n;
    } else {
      a := OccurrenceExists(sched[..n], j, k);
      assert sched[..n][..a] == sched[..a];
    }
  }

  /** A complete schedule takes every element of every stream. */
  lemma MergeTakesAll<T>(streams: seq<seq<T>>, sched: Schedule, j: nat, k: nat)
    requires Complete(streams, sched) && j < |streams| && k < |streams[j]|
    ensures streams[j][k] in Merge(streams, sched)
  {
    var a := OccurrenceExists(sched, j, k);
    assert Merge(streams, sched)[a] == streams[j][k];
  }

  /** Two steps never take the same position of the same stream. */
  lemma TakenOnce(sched: Schedule, a: nat, b: nat)
    requires a < b < |sched| && sched[a] == sched[b]
    ensures Count(sched[..a], sched[a]) < Count(sched[..b], sched[b])
  {
    CountPrefix(sched[..b], a, sched[a]);
    assert sched[..b][..a] == sched[..a];
  }
}
