/** What the drag handler does to the live x coordinates, as functions on
    sequences: the dragged block takes its constrained position and every
    block after it in the fixed order moves rigidly by the same amount. */
module Chain {
  import opened Rules

  /** s with d added to every element whose index is at least from. */
  function ShiftFrom(s: seq<real>, from: nat, d: real): (r: seq<real>)
    ensures |r| == |s|
    decreases |s|
  {
    if |s| == 0 then []
    else
      var last := |s| - 1;
      ShiftFrom(s[..last], from, d) + [if last >= from then s[last] + d else s[last]]
  }

  lemma {:induction false} ShiftFromAt(s: seq<real>, from: nat, d: real, i: nat)
    requires i < |s|
    ensures ShiftFrom(s, from, d)[i] == if i >= from then s[i] + d else s[i]
    decreases |s|
  {
    var last := |s| - 1;
    if i < last {
      ShiftFromAt(s[..last], from, d, i);
    }
  }

  lemma {:induction false} ShiftFromEvery(s: seq<real>, from: nat, d: real)
    ensures forall i :: 0 <= i < |s| ==> ShiftFrom(s, from, d)[i] == if i >= from then s[i] + d else s[i]
  {
    forall i | 0 <= i < |s|
      ensures ShiftFrom(s, from, d)[i] == if i >= from then s[i] + d else s[i]
    {
      ShiftFromAt(s, from, d, i);
    }
  }

  /** The live x coordinates after the drag handler runs on block k for the
      candidate x cx, where recK is the x recorded for block k before it ran. */
  function Dragged(xs: seq<real>, recK: real, k: nat, cx: real): (r: seq<real>)
    requires k < |xs|
    ensures |r| == |xs|
    ensures r[k] == Constrain(cx)
    ensures forall i :: 0 <= i < k ==> r[i] == xs[i]
    ensures forall i :: k < i < |xs| ==> r[i] == xs[i] + (Constrain(cx) - recK)
  {
    var newX := Constrain(cx);
    ShiftFromEvery(xs, k + 1, newX - recK);
    ShiftFrom(xs, k + 1, newX - recK)[k := newX]
  }

  /** Among the blocks after the dragged one, relative spacing is unchanged. */
  lemma DraggedKeepsTailSpacing(xs: seq<real>, recK: real, k: nat, cx: real, i: nat, j: nat)
    requires k < i < |xs| && k < j < |xs|
    ensures Dragged(xs, recK, k, cx)[i] - Dragged(xs, recK, k, cx)[j] == xs[i] - xs[j]
  {
  }

  /** Within one gesture, where the blocks end up depends only on the last
      candidate: a second drag event on block k, whose recorded x is now the
      first event's placement, composes with the first. */
  lemma DraggedTwice(xs: seq<real>, recK: real, k: nat, c1: real, c2: real)
    requires k < |xs|
    ensures Dragged(Dragged(xs, recK, k, c1), Constrain(c1), k, c2) == Dragged(xs, recK, k, c2)
  {
  }

  /** The chain is not clamped: pushing the first block to the right end of
      the track carries the third block off it. */
  lemma ChainIsUnclamped()
    ensures Dragged(InitialX, InitialX[0], 0, 0.4)[2] == 0.65
    ensures Dragged(InitialX, InitialX[0], 0, 0.4)[2] > Limit
  {
  }

  /** Dragging blocks i, i+1, ..., |xs|-1 to zero one after another, each drag
      starting from a layout whose recorded x agrees with the live x. */
  function SweepToZero(xs: seq<real>, i: nat): seq<real>
    requires i <= |xs|
    decreases |xs| - i
  {
    if i == |xs| then xs
    else SweepToZero(Dragged(xs, xs[i], i, 0.0), i + 1)
  }

  lemma {:induction false} SweepZeroesTail(xs: seq<real>, i: nat)
    requires i <= |xs|
    ensures |SweepToZero(xs, i)| == |xs|
    ensures SweepToZero(xs, i)[..i] == xs[..i]
    ensures forall j :: i <= j < |xs| ==> SweepToZero(xs, i)[j] == 0.0
    decreases |xs| - i
  {
    if i < |xs| {
      var next := Dragged(xs, xs[i], i, 0.0);
      SweepZeroesTail(next, i + 1);
      assert next[..i] == xs[..i];
      assert SweepToZero(xs, i)[..i] == SweepToZero(next, i + 1)[..i + 1][..i];
    }
  }

  /** Dragging every block to zero in ascending index order solves the puzzle
      from any layout. */
  lemma SweepSolves(xs: seq<real>)
    ensures Solved(SweepToZero(xs, 0))
  {
    SweepZeroesTail(xs, 0);
  }

  /** Order matters: dragging the last block to zero first and then block 1
      to zero pulls the last block out of the snap band again. */
  lemma OrderMatters()
    ensures var first := Dragged(InitialX, InitialX[9], 9, 0.0);
            var second := Dragged(first, first[1], 1, 0.0);
            second[9] == -0.05 && !Solved(second)
  {
  }
}
