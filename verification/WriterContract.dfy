/**
 What a caller of Backend.Put may rely on, whichever backend made the writer.

 A handle is the writer as its caller sees it: the bytes it has taken, whether it
 has been ended, and what readers of the key see.  Both backends' methods are proved
 to take only these steps.
 */
module WriterContract {
  import opened Basics

  datatype Handle = Handle(written: Bytes, ended: bool, visible: Option<Bytes>)

  datatype Call = Write(p: Bytes, ok: bool) | Close(ok: bool) | Abort

  predicate Ends(c: Call) { c.Close? || c.Abort? }

  /** The calls a writer may answer, and how; Write after Close or Abort is undefined. */
  ghost predicate Allowed(h: Handle, c: Call, h': Handle) {
    match c
    case Write(p, ok) =>
      && !h.ended && !h'.ended && h'.visible == h.visible
      && exists k :: 0 <= k <= |p| && h'.written == h.written + p[..k] && (ok ==> k == |p|)
    case Close(ok) =>
      if h.ended then ok && h' == h
      else h' == h.(ended := true, visible := if ok then Some(h.written) else h.visible)
    case Abort =>
      h' == h.(ended := true)
  }

  ghost predicate Conversation(hs: seq<Handle>, calls: seq<Call>) {
    && |hs| == |calls| + 1
    && hs[0] == Handle([], false, hs[0].visible)
    && forall i :: 0 <= i < |calls| ==> Answered(hs, calls, i)
  }

  ghost predicate Answered(hs: seq<Handle>, calls: seq<Call>, i: nat)
    requires i < |calls| < |hs|
  {
    Allowed(hs[i], calls[i], hs[i + 1])
  }

  /** The bytes of all Write calls, in order. */
  function Sent(calls: seq<Call>): Bytes {
    if calls == [] then []
    else
      var last := calls[|calls| - 1];
      var before := Sent(calls[..|calls| - 1]);
      if last.Write? then before + last.p else before
  }

  ghost predicate FirstEnd(calls: seq<Call>, k: nat) {
    && k < |calls| && Ends(calls[k])
    && forall i :: 0 <= i < k ==> !Ends(calls[i])
  }

  ghost predicate NoWriteFailed(calls: seq<Call>, k: nat)
    requires k <= |calls|
  {
    forall i :: 0 <= i < k && calls[i].Write? ==> calls[i].ok
  }

  lemma {:induction false} NotEndedYet(hs: seq<Handle>, calls: seq<Call>, k: nat)
    requires Conversation(hs, calls) && k <= |calls|
    requires forall i :: 0 <= i < k ==> !Ends(calls[i])
    ensures !hs[k].ended && hs[k].visible == hs[0].visible
    ensures NoWriteFailed(calls, k) ==> hs[k].written == Sent(calls[..k])
  {
    if k > 0 {
      NotEndedYet(hs, calls, k - 1);
      assert Answered(hs, calls, k - 1);
      assert calls[..k][..k - 1] == calls[..k - 1];
      assert calls[k - 1].p[..|calls[k - 1].p|] == calls[k - 1].p;
    }
  }

  lemma {:induction false} FrozenAfterEnd(hs: seq<Handle>, calls: seq<Call>, k: nat, n: nat)
    requires Conversation(hs, calls) && k <= n <= |calls| && hs[k].ended
    ensures hs[n] == hs[k]
  {
    if k < n {
      FrozenAfterEnd(hs, calls, k, n - 1);
      assert Answered(hs, calls, n - 1);
    }
  }

  /**
   Over every sequence of calls, what readers see changes only when the first of
   Close and Abort is a Close that returns nil, and then to exactly the bytes taken:
   all bytes sent, when no Write reported an error.
   */
  lemma VisibleOnlyThroughFirstClose(hs: seq<Handle>, calls: seq<Call>, k: nat)
    requires Conversation(hs, calls) && FirstEnd(calls, k)
    ensures calls[k] == Close(true) ==> hs[|calls|].visible == Some(hs[k].written)
    ensures calls[k] != Close(true) ==> hs[|calls|].visible == hs[0].visible
    ensures NoWriteFailed(calls, k) ==> hs[k].written == Sent(calls[..k])
  {
    NotEndedYet(hs, calls, k);
    assert Answered(hs, calls, k);
    FrozenAfterEnd(hs, calls, k + 1, |calls|);
  }

  /** A writer that was never ended has changed nothing. */
  lemma NothingVisibleBeforeEnd(hs: seq<Handle>, calls: seq<Call>)
    requires Conversation(hs, calls) && forall i :: 0 <= i < |calls| ==> !Ends(calls[i])
    ensures hs[|calls|].visible == hs[0].visible
  {
    NotEndedYet(hs, calls, |calls|);
  }
}
