/**
 * The flying fairy: she crosses the scene along x, flies off into the distance, turns
 * round and comes back, and then crosses the other way.
 */
module Tinkerbell {

  datatype Phase = Flying | Exiting | Returning

  /** The phase that follows `p` in the cycle. */
  function NextPhase(p: Phase): Phase {
    match p
    case Flying => Exiting
    case Exiting => Returning
    case Returning => Flying
  }

  /** Three transitions bring the fairy back to the phase she started in. */
  lemma CycleOfThree(p: Phase)
    ensures NextPhase(NextPhase(NextPhase(p))) == p
    ensures NextPhase(p) != p
  {
  }

  const ExitDuration: real := 0.5
  const ZExit: real := -30.0

  function LeftX(width: real): real { width * 0.5 }

  function RightX(width: real): real { width * 6.5 }

  /** Seconds for a crossing at full speed: a quarter second per unit of width, a little
      more on phones. */
  function TravelDuration(width: real, isMobile: bool): real {
    (RightX(width) - LeftX(width)) * (if isMobile then 0.28 else 0.25)
  }

  /** Progress along the crossing after a frame of `delta` seconds; left to right starts at
      three tenths of full speed and eases up over the first half of the crossing. */
  function FlyProgress(t: real, direction: int, delta: real, travel: real): real
    requires travel != 0.0
  {
    if direction == 1 then
      var factor := 0.3 + 0.7 * (if t * 2.0 <= 1.0 then t * 2.0 else 1.0);
      t + delta * factor / travel
    else
      t + delta / travel
  }

  /** Horizontal position at `progress` along the crossing. */
  function FlyX(width: real, direction: int, progress: real): real {
    if direction == 1 then LeftX(width) + (RightX(width) - LeftX(width)) * progress
    else RightX(width) - (RightX(width) - LeftX(width)) * progress
  }

  /** Past the far edge: seven widths going right, six tenths of a width left of zero going left. */
  predicate Offscreen(width: real, direction: int, x: real) {
    if direction == 1 then x > width * 7.0 else x < -width * 0.6
  }

  /** Whatever the viewport's width, the crossing ends at a fixed progress: past 13/12 going
      right and past 71/60 going left. */
  lemma OffscreenThreshold(width: real, direction: int, progress: real)
    requires 0.0 < width && (direction == 1 || direction == -1)
    ensures Offscreen(width, direction, FlyX(width, direction, progress)) <==>
            progress > (if direction == 1 then 13.0 / 12.0 else 71.0 / 60.0)
  {
    var x := FlyX(width, direction, progress);
    if direction == 1 {
      assert x - width * 7.0 == width * (6.0 * progress - 6.5);
    } else {
      assert -width * 0.6 - x == width * (6.0 * progress - 7.1);
    }
  }

  /** The crossing takes a positive time on any screen. */
  lemma TravelPositive(width: real, isMobile: bool)
    requires 0.0 < width
    ensures 0.0 < TravelDuration(width, isMobile)
  {
    assert RightX(width) - LeftX(width) == width * 6.0;
  }

  /** With time moving forward, every flying frame from the start line on makes progress. */
  lemma FlyingAdvances(t: real, direction: int, delta: real, travel: real)
    requires 0.0 <= t && 0.0 < delta && 0.0 < travel
    ensures t < FlyProgress(t, direction, delta, travel)
  {
    var factor := if direction == 1 then 0.3 + 0.7 * (if t * 2.0 <= 1.0 then t * 2.0 else 1.0) else 1.0;
    assert 0.3 <= factor;
    assert 0.0 < delta * factor;
    assert FlyProgress(t, direction, delta, travel) == t + delta * factor / travel;
  }

  /** Depth along the exit at `progress`: from the start depth to the far plane. */
  function ExitZ(zStart: real, progress: real): real {
    zStart + (ZExit - zStart) * progress
  }

  /** Depth along the return at `progress`: from the far plane back to the start depth. */
  function ReturnZ(zStart: real, progress: real): real {
    ZExit + (zStart - ZExit) * progress
  }

  class Controller {
    const zStart: real
    var phase: Phase
    /** 1 when crossing left to right, -1 right to left. */
    var direction: int
    /** Progress within the current phase. */
    var t: real
    var z: real
    var x: real
    var visible: bool

    ghost predicate Valid()
      reads this
    {
      direction == 1 || direction == -1
    }

    constructor (zStart: real)
      ensures Valid() && this.zStart == zStart
      ensures phase == Flying && direction == 1 && t == 0.0 && z == zStart
    {
      this.zStart := zStart;
      phase, direction, t, z := Flying, 1, 0.0, zStart;
      x, visible := 0.0, true;
    }

    /** One frame of `delta` seconds; `groupReady` is whether the fairy's group exists. */
    method Frame(delta: real, groupReady: bool, width: real, isMobile: bool)
      requires Valid() && 0.0 < width
      modifies this
      ensures Valid()
      ensures !groupReady ==>
                phase == old(phase) && direction == old(direction) && t == old(t)
                && z == old(z) && x == old(x) && visible == old(visible)
      ensures groupReady ==> visible == (old(phase) == Flying)
      // Only the cycle's own transitions happen, and each restarts the phase's progress.
      ensures phase == old(phase) || (groupReady && phase == NextPhase(old(phase)) && t == 0.0)
      // The direction turns round exactly when the exit gives way to the return.
      ensures direction == if old(phase) == Exiting && phase == Returning then -old(direction) else old(direction)
      ensures groupReady && old(phase) == Flying ==>
                var p := FlyProgress(old(t), old(direction), delta, TravelDuration(width, isMobile));
                && x == FlyX(width, old(direction), p) && z == old(z)
                && (phase == Exiting <==> Offscreen(width, old(direction), x))
                && (phase == Flying ==> t == p)
      ensures groupReady && old(phase) != Flying ==>
                var p := old(t) + delta / ExitDuration;
                && z == (if old(phase) == Exiting then ExitZ(zStart, p) else ReturnZ(zStart, p))
                && (phase == old(phase) <==> p < 1.0)
                && (phase == old(phase) ==> t == p)
      // On the exit the fairy holds at the edge she left by; on the return, at the one she
      // will enter from, which after the turn is the same edge.
      ensures groupReady && old(phase) == Exiting ==>
                x == if old(direction) == 1 then RightX(width) else LeftX(width)
      ensures groupReady && old(phase) == Returning ==>
                x == if old(direction) == 1 then LeftX(width) else RightX(width)
    {
      if !groupReady {
        return;
      }
      visible := phase == Flying;
      if phase == Flying {
        TravelPositive(width, isMobile);
        t := FlyProgress(t, direction, delta, TravelDuration(width, isMobile));
        x := FlyX(width, direction, t);
        if Offscreen(width, direction, x) {
          phase := Exiting;
          t := 0.0;
        }
      } else if phase == Exiting {
        t := t + delta / ExitDuration;
        z := ExitZ(zStart, t);
        x := if direction == 1 then RightX(width) else LeftX(width);
        if t >= 1.0 {
          direction := -direction;
          phase := Returning;
          t := 0.0;
        }
      } else {
        t := t + delta / ExitDuration;
        z := ReturnZ(zStart, t);
        x := if direction == 1 then LeftX(width) else RightX(width);
        if t >= 1.0 {
          phase := Flying;
          t := 0.0;
        }
      }
    }
  }
}
