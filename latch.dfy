/** The one-shot solved latch, on its own: each frame looks at whether a drag
    is in progress and whether every block is inside the snap band; the first
    frame where neither a drag is running nor any block is out of place shows
    the notification, and the latch then stays set for good. */
module Latch {

  /** What the solved check of one frame sees. */
  datatype Frame = Frame(dragging: bool, solved: bool)

  /** The frame's condition for the latch: no drag running, puzzle solved. */
  predicate Settled(f: Frame) {
    !f.dragging && f.solved
  }

  /** Whether the frame shows the notification, given the latch before it. */
  predicate Fires(success: bool, f: Frame) {
    !success && Settled(f)
  }

  /** The latch after the frame. */
  predicate After(success: bool, f: Frame) {
    success || Settled(f)
  }

  /** The latch after a sequence of frames. */
  function Final(success: bool, frames: seq<Frame>): bool
    decreases |frames|
  {
    if frames == [] then success
    else Final(After(success, frames[0]), frames[1..])
  }

  /** How many notifications a sequence of frames shows. */
  function Alerts(success: bool, frames: seq<Frame>): nat
    decreases |frames|
  {
    if frames == [] then 0
    else (if Fires(success, frames[0]) then 1 else 0) + Alerts(After(success, frames[0]), frames[1..])
  }

  /** Running one more frame after a sequence of frames. */
  lemma {:induction false} FinalSnoc(success: bool, frames: seq<Frame>, f: Frame)
    ensures Final(success, frames + [f]) == After(Final(success, frames), f)
    ensures Alerts(success, frames + [f]) ==
              Alerts(success, frames) + (if Fires(Final(success, frames), f) then 1 else 0)
    decreases |frames|
  {
    if frames == [] {
      assert [] + [f] == [f];
    } else {
      assert (frames + [f])[1..] == frames[1..] + [f];
      FinalSnoc(After(success, frames[0]), frames[1..], f);
    }
  }

  /** Once set, the latch is never cleared. */
  lemma {:induction false} NeverResets(frames: seq<Frame>)
    ensures Final(true, frames)
    decreases |frames|
  {
    if frames != [] {
      NeverResets(frames[1..]);
    }
  }

  /** The latch ends set exactly when it started set or some frame was settled. */
  lemma {:induction false} FinalIffSettled(success: bool, frames: seq<Frame>)
    ensures Final(success, frames) <==> success || exists i :: 0 <= i < |frames| && Settled(frames[i])
    decreases |frames|
  {
    if frames != [] {
      FinalIffSettled(After(success, frames[0]), frames[1..]);
      if exists i :: 0 <= i < |frames| - 1 && Settled(frames[1..][i]) {
        var i :| 0 <= i < |frames| - 1 && Settled(frames[1..][i]);
        assert Settled(frames[i + 1]);
      }
      if exists i :: 0 <= i < |frames| && Settled(frames[i]) {
        var i :| 0 <= i < |frames| && Settled(frames[i]);
        if i > 0 {
          assert Settled(frames[1..][i - 1]);
        }
      }
    }
  }

  /** The notification shows at most once, and never once the latch is set;
      it has shown exactly when the latch went from clear to set. */
  lemma {:induction false} AtMostOnce(success: bool, frames: seq<Frame>)
    ensures Alerts(success, frames) <= 1
    ensures success ==> Alerts(success, frames) == 0
    ensures Alerts(success, frames) == 1 <==> !success && Final(success, frames)
    decreases |frames|
  {
    if frames != [] {
      AtMostOnce(After(success, frames[0]), frames[1..]);
      if After(success, frames[0]) {
        NeverResets(frames[1..]);
      }
    }
  }

  /** Starting clear, the notification shows exactly once if some frame is
      settled and never otherwise. */
  lemma FiresOnceIffSettled(frames: seq<Frame>)
    ensures Alerts(false, frames) == 1 <==> exists i :: 0 <= i < |frames| && Settled(frames[i])
    ensures Alerts(false, frames) == 0 <==> forall i :: 0 <= i < |frames| ==> !Settled(frames[i])
  {
    AtMostOnce(false, frames);
    FinalIffSettled(false, frames);
  }

  /** The frame that shows the notification is the first settled frame. */
  lemma FiresOnFirstSettled(frames: seq<Frame>, i: nat)
    requires i < |frames|
    ensures Fires(Final(false, frames[..i]), frames[i]) <==>
              Settled(frames[i]) && forall j :: 0 <= j < i ==> !Settled(frames[j])
  {
    FinalIffSettled(false, frames[..i]);
    assert forall j :: 0 <= j < i ==> frames[..i][j] == frames[j];
  }
}
