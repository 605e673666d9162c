/** The drag-to-sort puzzle controller: ten blocks on fixed lanes, a drag
    handler that moves the dragged block along x and pushes every later block
    along with it, a drag-in-progress flag, and a one-shot solved latch that
    is checked once per frame. */
module Controller {
  import opened Rules
  import opened Chain
  import Latch

  class Puzzle {
    /** Live position of each block (position.x, .y, .z), by index. */
    const xs: array<real>
    const ys: array<real>
    const zs: array<real>
    /** Recorded x of each block (userData.x), rewritten by the drag handler. */
    const rec: array<real>
    /** Recorded y and z of each block (userData.y, userData.z), never rewritten. */
    const homeY: seq<real>
    const homeZ: seq<real>

    /** A drag gesture is in progress. */
    var dragging: bool
    /** The solved latch. */
    var success: bool

    /** The solved check of every frame so far, and how many notifications it showed. */
    ghost var history: seq<Latch.Frame>
    ghost var alerts: nat

    ghost predicate Valid()
      reads this, xs, ys, zs, rec
    {
      xs.Length == BlockCount && ys.Length == BlockCount &&
      zs.Length == BlockCount && rec.Length == BlockCount &&
      xs != ys && xs != zs && xs != rec && ys != zs && ys != rec && zs != rec &&
      // y and z never leave the recorded lane
      ys[..] == homeY && zs[..] == homeZ &&
      // the recorded x of every block agrees with its live x
      rec[..] == xs[..] &&
      success == Latch.Final(false, history) &&
      alerts == Latch.Alerts(false, history)
    }

    /** The scene's blocks in their starting layout; no drag, latch clear. */
    constructor ()
      ensures Valid()
      ensures fresh(xs) && fresh(ys) && fresh(zs) && fresh(rec)
      ensures xs[..] == InitialX
      ensures forall i :: 0 <= i < BlockCount ==> ys[i] == LaneY(i) && zs[i] == 0.0
      ensures !dragging && !success && history == [] && alerts == 0
    {
      xs := new real[BlockCount](i requires 0 <= i < BlockCount => InitialX[i]);
      ys := new real[BlockCount](i requires 0 <= i => LaneY(i));
      zs := new real[BlockCount](_ => 0.0);
      rec := new real[BlockCount](i requires 0 <= i < BlockCount => InitialX[i]);
      homeY := seq(BlockCount, i requires 0 <= i => LaneY(i));
      homeZ := seq(BlockCount, _ => 0.0);
      dragging, success := false, false;
      history, alerts := [], 0;
    }

    /** A drag gesture starts. */
    method DragStart()
      requires Valid()
      modifies this`dragging
      ensures Valid() && dragging
      ensures xs[..] == old(xs[..]) && ys[..] == old(ys[..]) && zs[..] == old(zs[..])
      ensures success == old(success)
    {
      dragging := true;
    }

    /** A drag gesture ends. */
    method DragEnd()
      requires Valid()
      modifies this`dragging
      ensures Valid() && !dragging
      ensures xs[..] == old(xs[..]) && ys[..] == old(ys[..]) && zs[..] == old(zs[..])
      ensures success == old(success)
    {
      dragging := false;
    }

    /** The pointer moved block k to (cx, cy, cz) during a drag. The drag
        library writes that position into the block before the handler runs;
        the handler then fixes x, pins y and z, and shifts the later blocks. */
    method Drag(k: nat, cx: real, cy: real, cz: real)
      requires Valid() && k < xs.Length
      modifies xs, ys, zs, rec
      ensures Valid()
      ensures xs[..] == Dragged(old(xs[..]), old(rec[k]), k, cx)
      ensures rec[..] == old(rec[..k]) + xs[k..]
      ensures ys[k] == homeY[k] && zs[k] == homeZ[k]
      ensures ys[..] == old(ys[..]) && zs[..] == old(zs[..])
    {
      xs[k], ys[k], zs[k] := cx, cy, cz;

      if InSnapBand(xs[k]) {
        xs[k] := 0.0;
      } else {
        xs[k] := Min(Limit, Max(-Limit, xs[k]));
      }
      ys[k] := homeY[k];
      zs[k] := homeZ[k];

      var diff := xs[k] - rec[k];

      var i := k + 1;
      while i < xs.Length
        invariant k + 1 <= i <= xs.Length
        invariant ys[..] == homeY && zs[..] == homeZ
        invariant xs[k] == Constrain(cx) && diff == Constrain(cx) - old(rec[k])
        invariant forall j :: 0 <= j < k ==> xs[j] == old(xs[j])
        invariant forall j :: k < j < i ==> xs[j] == old(xs[j]) + diff
        invariant forall j :: i <= j < xs.Length ==> xs[j] == old(xs[j])
        invariant forall j :: 0 <= j < rec.Length ==> rec[j] == if k < j < i then xs[j] else old(rec[j])
      {
        xs[i] := xs[i] + diff;
        rec[i] := xs[i];
        i := i + 1;
      }

      rec[k] := xs[k];

      ghost var want := Dragged(old(xs[..]), old(rec[k]), k, cx);
      assert xs[..] == want by {
        forall j | 0 <= j < xs.Length ensures xs[j] == want[j] { }
      }
      assert rec[..] == old(rec[..k]) + xs[k..];
    }

    /** The per-frame solved check. Returns whether this frame shows the
        solved notification. */
    method Tick() returns (alerted: bool)
      requires Valid()
      modifies this`success, this`history, this`alerts
      ensures Valid()
      ensures history == old(history) + [Latch.Frame(dragging, Solved(xs[..]))]
      ensures alerted <==> !old(success) && !dragging && Solved(xs[..])
      ensures success <==> old(success) || (!dragging && Solved(xs[..]))
      ensures alerts == old(alerts) + (if alerted then 1 else 0) && alerts <= 1
    {
      ghost var frame := Latch.Frame(dragging, Solved(xs[..]));
      Latch.FinalSnoc(false, history, frame);
      Latch.AtMostOnce(false, history + [frame]);

      alerted := false;
      if !dragging && Solved(xs[..]) {
        if !success {
          alerted := true;
          alerts := alerts + 1;
        }
        success := true;
      }
      history := history + [frame];
    }
  }

  /** A player who drags the blocks to zero in ascending order, and then
      disturbs one block and puts it back, sees the notification exactly
      once: on the first frame after the sorting gesture ends. The layout is
      solved again on the last frame, which shows nothing. */
  method SolveThenDisturb() returns (atSolve: bool, resolved: bool, afterDisturb: bool)
    ensures atSolve && resolved && !afterDisturb
  {
    var p := new Puzzle();
    var early := p.Tick();
    assert !early by { InitialLayout(); }

    var k := 0;
    while k < BlockCount
      invariant 0 <= k <= BlockCount
      invariant p.Valid() && !p.dragging && !p.success
      invariant forall j :: 0 <= j < k ==> p.xs[j] == 0.0
    {
      p.DragStart();
      ghost var before := p.xs[..];
      p.Drag(k, 0.0, 1.0, 1.0);
      assert p.xs[..] == Dragged(before, before[k], k, 0.0);
      assert forall j :: 0 <= j < k ==> p.xs[j] == before[j];
      p.DragEnd();
      k := k + 1;
    }
    assert Solved(p.xs[..]);
    atSolve := p.Tick();

    p.DragStart();
    p.Drag(3, 0.3, 0.0, 0.0);
    p.Drag(3, 0.0, 0.0, 0.0);
    p.DragEnd();
    resolved := Solved(p.xs[..]);
    afterDisturb := p.Tick();
  }
}
