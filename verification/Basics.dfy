/** Bytes, optional values, and the concatenation of a sequence of pieces. */
module Basics {
  type byte = x: int | 0 <= x < 256
  type Bytes = seq<byte>

  /** The bounds of Go's 64-bit integers. */
  const TWO_63: int := 0x8000_0000_0000_0000
  const TWO_64: int := 0x1_0000_0000_0000_0000

  datatype Option<+T> = None | Some(value: T)

  /** All pieces in order, as one sequence. */
  function Concat<T>(pieces: seq<seq<T>>): seq<T> {
    if pieces == [] then []
    else Concat(pieces[..|pieces| - 1]) + pieces[|pieces| - 1]
  }

  lemma ConcatSnoc<T>(pieces: seq<seq<T>>, last: seq<T>)
    ensures Concat(pieces + [last]) == Concat(pieces) + last
  {
    assert (pieces + [last])[..|pieces|] == pieces;
  }

  ghost predicate NoDup<T>(s: seq<T>) {
    forall i, j :: 0 <= i < j < |s| ==> s[i] != s[j]
  }
}
