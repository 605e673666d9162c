/** The fixed layout of the puzzle and the placement rule the drag handler
    applies to the block under the pointer: snap to zero inside a small band,
    otherwise clamp to the track. */
module Rules {

  /** Number of blocks in the scene. */
  const BlockCount: nat := 10

  /** Starting x offset of each block, by index. */
  const InitialX: seq<real> := [0.0, 0.05, 0.25, 0.15, 0.1, 0.25, 0.2, -0.1, 0.0, -0.3]

  /** Half-width of the open snap band around zero. */
  const SnapBand: real := 0.01

  /** A dragged block is kept within [-Limit, Limit]. */
  const Limit: real := 0.4

  /** The fixed lane (y coordinate) of block i. */
  function LaneY(i: nat): real {
    -0.8 + 0.155 * (i as real)
  }

  function Abs(x: real): real {
    if x < 0.0 then -x else x
  }

  function Min(a: real, b: real): real {
    if a <= b then a else b
  }

  function Max(a: real, b: real): real {
    if a >= b then a else b
  }

  /** x lies strictly inside the snap band (-SnapBand, SnapBand). */
  predicate InSnapBand(x: real) {
    -SnapBand < x && x < SnapBand
  }

  /** min(Limit, max(-Limit, x)): the nearest point of the track. */
  function Clamp(x: real): (r: real)
    ensures -Limit <= r <= Limit
    ensures -Limit <= x <= Limit ==> r == x
    ensures x > Limit ==> r == Limit
    ensures x < -Limit ==> r == -Limit
  {
    Min(Limit, Max(-Limit, x))
  }

  /** Where the dragged block ends up for a candidate x. */
  function Constrain(x: real): (r: real)
    ensures InSnapBand(x) ==> r == 0.0
    ensures !InSnapBand(x) && -Limit <= x <= Limit ==> r == x
    ensures x > Limit ==> r == Limit
    ensures x < -Limit ==> r == -Limit
    ensures r == 0.0 || SnapBand <= Abs(r) <= Limit
  {
    if InSnapBand(x) then 0.0 else Clamp(x)
  }

  /** The placements Constrain can produce are exactly its fixed points. */
  lemma ConstrainFixedPoints(x: real)
    ensures Constrain(x) == x <==> (x == 0.0 || SnapBand <= Abs(x) <= Limit)
  {
  }

  /** Delivering the same drag position again does not move the block. */
  lemma ConstrainIdempotent(x: real)
    ensures Constrain(Constrain(x)) == Constrain(x)
  {
  }

  /** Moving the pointer further right never moves the block left. */
  lemma ConstrainMonotone(x: real, y: real)
    requires x <= y
    ensures Constrain(x) <= Constrain(y)
  {
  }

  /** The placements the snap and clamp rules give at a few sample points. */
  lemma ConstrainSamples()
    ensures Constrain(0.006) == 0.0
    ensures Constrain(-0.006) == 0.0
    ensures Constrain(0.011) == 0.011
    ensures Constrain(0.01) == 0.01
    ensures Constrain(0.5) == 0.4
    ensures Constrain(-0.9) == -0.4
  {
  }

  /** The solved test: every block's x lies inside the snap band. */
  predicate Solved(xs: seq<real>) {
    forall i :: 0 <= i < |xs| ==> InSnapBand(xs[i])
  }

  /** The layout the scene starts from is not solved, and every block starts on the track. */
  lemma InitialLayout()
    ensures |InitialX| == BlockCount
    ensures !Solved(InitialX)
    ensures forall i :: 0 <= i < |InitialX| ==> -Limit <= InitialX[i] <= Limit
  {
    assert !InSnapBand(InitialX[1]);
  }
}
