/** Cursors, the freshness decision, and the helpers on sequence numbers. */
module Freshness {
  import opened Basics

  datatype Decision = Pass | Hold(unseenCount: nat, fromSeq: nat, toSeq: nat) | OutOfRange

  function DecideFreshness(modelSeenSeq: int, latestSeq: int, force: bool): Decision {
    if modelSeenSeq < 0 || latestSeq < 0 then OutOfRange
    else
      var unseen := Max(0, latestSeq - modelSeenSeq);
      if force || unseen == 0 then Pass else Hold(unseen, modelSeenSeq + 1, latestSeq)
  }

  /** Negative numbers are refused; a forced operation passes; any other one is held exactly when something is unseen. */
  lemma HeldExactlyWhenUnseen(modelSeenSeq: int, latestSeq: int, force: bool)
    ensures var d := DecideFreshness(modelSeenSeq, latestSeq, force);
            && (d == OutOfRange <==> modelSeenSeq < 0 || latestSeq < 0)
            && (d.Hold? <==> 0 <= modelSeenSeq < latestSeq && !force)
            && (d.Hold? ==> d.fromSeq == modelSeenSeq + 1 && d.toSeq == latestSeq && d.unseenCount == d.toSeq - d.fromSeq + 1)
  {
  }

  function UnreadCount(lastReadSeq: int, latestSeq: int): int {
    Max(0, latestSeq - lastReadSeq)
  }

  /** Compares neighbours, which decides whether the numbers run on without a gap or repetition. */
  method IsContiguous(seqs: seq<int>) returns (yes: bool)
    ensures yes <==> forall i :: 0 <= i < |seqs| ==> seqs[i] == seqs[0] + i
  {
    var i := 1;
    while i < |seqs|
      invariant 1 <= i
      invariant forall k :: 0 <= k < i && k < |seqs| ==> seqs[k] == seqs[0] + k
    {
      if seqs[i] != seqs[i - 1] + 1 {
        return false;
      }
      i := i + 1;
    }
    return true;
  }

  /** The numbers of `fromSeq + 1 .. toSeq` that are not present, in ascending order. */
  method FindGaps(present: seq<int>, fromSeq: int, toSeq: int) returns (gaps: seq<int>)
    ensures forall x :: x in gaps <==> fromSeq < x <= toSeq && x !in present
    ensures forall i, j :: 0 <= i < j < |gaps| ==> gaps[i] < gaps[j]
  {
    var have := set x | x in present;
    gaps := [];
    var s := fromSeq + 1;
    while s <= toSeq
      invariant s > fromSeq && (s <= toSeq + 1 || gaps == [])
      invariant forall x :: x in gaps <==> fromSeq < x < s && x <= toSeq && x !in present
      invariant forall i :: 0 <= i < |gaps| ==> gaps[i] < s
      invariant forall i, j :: 0 <= i < j < |gaps| ==> gaps[i] < gaps[j]
    {
      if s !in have {
        gaps := gaps + [s];
      }
      s := s + 1;
    }
  }
}
