/** MainCamera: the optional side-to-side sway of the viewing camera. Key M
    switches it on and off; while on, the yaw angle runs back and forth
    between -22.5 and 22.5 degrees at 50 degrees a second. The camera
    transform built from the angle is not part of this model. */
module Sway {
  const Speed: real := 50.0
  const Bound: real := 45.0 / 2.0

  /** The sway state after one frame of `dt` seconds when it is on. */
  datatype Swing = Swing(plus: bool, angle: real)

  function SwayStep(s: Swing, dt: real): (r: Swing)
    ensures -Bound <= s.angle <= Bound && dt >= 0.0 ==> -Bound <= r.angle <= Bound
    ensures r.plus != s.plus ==> r.angle == (if s.plus then Bound else -Bound)
  {

    if s.plus then
      var a := s.angle + dt * Speed;
      if a > Bound then Swing(false, Bound) else Swing(true, a)
    else
      var a := s.angle - dt * Speed;
      if a < -Bound then Swing(true, -Bound) else Swing(false, a)
  }

  /** The angle stays within the bounds; the direction flips exactly when
      the angle is clamped to the bound it ran past, and otherwise the
      angle moves by exactly `Speed * dt` in its direction. */
  lemma SwayStepBehaviour(s: Swing, dt: real)
    requires -Bound <= s.angle <= Bound && dt >= 0.0
    ensures var t := SwayStep(s, dt);
      -Bound <= t.angle <= Bound &&
      (t.plus != s.plus <==> (t.angle == (if s.plus then Bound else -Bound) && s.angle + (if s.plus then dt else -dt) * Speed != t.angle)) &&
      (t.plus == s.plus ==> t.angle == s.angle + (if s.plus then dt else -dt) * Speed)
  {
  }

  /** Many frames never leave the bounds. */
  function SwayRun(s: Swing, dts: seq<real>): (r: Swing)
    decreases |dts|
  {
    if dts == [] then s else SwayRun(SwayStep(s, dts[0]), dts[1..])
  }

  lemma {:induction false} SwayRunInBounds(s: Swing, dts: seq<real>)
    requires -Bound <= s.angle <= Bound
    requires forall i :: 0 <= i < |dts| ==> dts[i] >= 0.0
    ensures -Bound <= SwayRun(s, dts).angle <= Bound
    decreases |dts|
  {
    if dts != [] {
      SwayStepBehaviour(s, dts[0]);
      SwayRunInBounds(SwayStep(s, dts[0]), dts[1..]);
    }
  }

  class MainCamera {
    var move: bool
    var plus: bool
    var angle: real

    constructor()
      ensures !move && plus && angle == 0.0
    {
      move, plus, angle := false, true, 0.0;
    }

    /** `Update`: `mKeyDown` is `Input.GetKeyDown(KeyCode.M)`. */
    method Update(dt: real, mKeyDown: bool)
      modifies this
      ensures move == (old(move) != mKeyDown)
      ensures !move ==> plus == old(plus) && angle == old(angle)
      ensures move ==> Swing(plus, angle) == SwayStep(Swing(old(plus), old(angle)), dt)
    {
      if mKeyDown {
        move := !move;
      }
      if !move {
        return;
      }
      if plus {
        angle := angle + dt * Speed;
        if angle > Bound {
          angle := Bound;
          plus := false;
        }
      } else {
        angle := angle - dt * Speed;
        if angle < -Bound {
          angle := -Bound;
          plus := true;
        }
      }
    }
  }
}
