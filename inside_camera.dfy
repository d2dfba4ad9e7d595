/** InsideCamera: the camera at the centre of the spherical screen that shows
    equirectangular pictures. Rotations are kept symbolic (quaternion
    arithmetic is not modelled); the field of view and the yaw/pitch steps of
    a drag are modelled exactly. */
module PanoramaCamera {
  import opened Numeric
  import opened ProviderTypes

  /** How much of the horizon a picture covers: 180 or 360 degrees. */
  datatype Range = Half | Full

  /** A camera orientation, as the term that produced it. */
  datatype Rotation =
    | Identity
    | YawPitch(yaw: real, pitch: real)
    | Slerp(from: Rotation, to: Rotation, ratio: real)
    | Turned(yaw: real, pitch: real, base: Rotation)

  const FieldOfViewInitial: real := 60.0
  const FieldOfViewLower: real := 30.0
  const FieldOfViewUpper: real := 90.0

  predicate FieldOfViewInRange(f: real)
  {
    FieldOfViewLower <= f <= FieldOfViewUpper
  }

  /** An Euler angle in [0,360) read as a signed angle in [-180,180). */
  function Signed(a: real): real
  {
    if a < 180.0 then a else a - 360.0
  }

  /** A step toward `bound` (90 - current, or -90 - current) that is cut so
      the angle does not pass +-90. */
  function ClampStep(step: real, current: real): (r: real)
    ensures -90.0 <= current <= 90.0 ==> -90.0 <= current + r <= 90.0
    ensures step >= 0.0 ==> r <= step
    ensures step < 0.0 ==> step <= r
    ensures -90.0 <= current + step <= 90.0 ==> r == step
  {
    if step >= 0.0 then Min(step, 90.0 - current) else Max(step, -90.0 - current)
  }

  /** The pitch step of a drag: cut at +-90 degrees whatever the range. */
  function PitchStep(dy: real, ratio: real, eulerX: real): (r: real)
    ensures -90.0 <= Signed(eulerX) <= 90.0 ==> -90.0 <= Signed(eulerX) + r <= 90.0
    ensures -90.0 <= Signed(eulerX) + dy * ratio <= 90.0 ==> r == dy * ratio
  {
    ClampStep(dy * ratio, Signed(eulerX))
  }

  /** The yaw step of a drag: cut at +-90 only for a half-range picture. */
  function YawStep(range: Range, dx: real, ratio: real, eulerY: real): (r: real)
    ensures range == Full ==> r == -dx * ratio
    ensures range == Half && -90.0 <= Signed(eulerY) <= 90.0 ==> -90.0 <= Signed(eulerY) + r <= 90.0
  {
    if range == Half then ClampStep(-dx * ratio, Signed(eulerY)) else -dx * ratio
  }

  /** A cut step never takes an angle within [-90,90] outside it, never
      reverses the drag's direction, and is the whole step when that fits. */
  lemma ClampStepKeepsRange(step: real, current: real)
    requires -90.0 <= current <= 90.0
    ensures -90.0 <= current + ClampStep(step, current) <= 90.0
    ensures step >= 0.0 ==> 0.0 <= ClampStep(step, current) <= step
    ensures step < 0.0 ==> step <= ClampStep(step, current) <= 0.0
    ensures -90.0 <= current + step <= 90.0 ==> ClampStep(step, current) == step
  {
  }

  /** The pitch after a drag stays within +-90 degrees; a full-range yaw is
      never cut, a half-range one stays within +-90 too. */
  lemma DragStepsInRange(range: Range, dx: real, dy: real, ratio: real, eulerX: real, eulerY: real)
    requires -90.0 <= Signed(eulerX) <= 90.0
    ensures -90.0 <= Signed(eulerX) + PitchStep(dy, ratio, eulerX) <= 90.0
    ensures range == Full ==> YawStep(range, dx, ratio, eulerY) == -dx * ratio
    ensures range == Half && -90.0 <= Signed(eulerY) <= 90.0 ==>
      -90.0 <= Signed(eulerY) + YawStep(range, dx, ratio, eulerY) <= 90.0
  {
    ClampStepKeepsRange(dy * ratio, Signed(eulerX));
    if range == Half && -90.0 <= Signed(eulerY) <= 90.0 {
      ClampStepKeepsRange(-dx * ratio, Signed(eulerY));
    }
  }

  /** `GetRandomRotation`: a yaw within +-45 (half range) or +-180 (full
      range) and a pitch within +-20 degrees. */
  function RandomRotation(range: Range, d: Draw): (r: Rotation)
    requires d.Valid()
    ensures r.YawPitch?
  {
    var yaw := if range == Half then RandomRange(-45.0, 45.0, d.u1) else RandomRange(-180.0, 180.0, d.u1);
    YawPitch(yaw, RandomRange(-20.0, 20.0, d.u2))
  }

  lemma RandomRotationRanges(range: Range, d: Draw)
    requires d.Valid()
    ensures var r := RandomRotation(range, d);
      -20.0 <= r.pitch <= 20.0 &&
      (range == Half ==> -45.0 <= r.yaw <= 45.0) &&
      (range == Full ==> -180.0 <= r.yaw <= 180.0)
  {
  }

  /** `GetRandomFieldOfView`. */
  function RandomFieldOfView(d: Draw): (r: real)
    requires d.Valid()
    ensures FieldOfViewInRange(r)
  {
    RandomRange(FieldOfViewLower, FieldOfViewUpper, d.u3)
  }

  /** One end of a camera animation, resolved from its tag. */
  datatype View = View(rotation: Rotation, fieldOfView: real)

  function Resolve(tag: CameraPosition, range: Range, current: View, d: Draw): (r: View)
    requires d.Valid()
    ensures tag != Current ==> FieldOfViewInRange(r.fieldOfView)
    ensures FieldOfViewInRange(current.fieldOfView) ==> FieldOfViewInRange(r.fieldOfView)
    ensures tag == Random ==> r.rotation.YawPitch?
  {

    match tag
    case Initial => View(Identity, FieldOfViewInitial)
    case Current => current
    case Random => View(RandomRotation(range, d), RandomFieldOfView(d))
  }

  /** Initial is the identity with a 60 degree view, Current the live view,
      and Random a random direction with a field of view in [30,90]. */
  lemma ResolveTags(tag: CameraPosition, range: Range, current: View, d: Draw)
    requires d.Valid()
    ensures tag == Initial ==> Resolve(tag, range, current, d) == View(Identity, FieldOfViewInitial)
    ensures tag == Current ==> Resolve(tag, range, current, d) == current
    ensures tag == Random ==> Resolve(tag, range, current, d).rotation.YawPitch? &&
                              FieldOfViewInRange(Resolve(tag, range, current, d).fieldOfView)
    ensures FieldOfViewInRange(current.fieldOfView) ==> FieldOfViewInRange(Resolve(tag, range, current, d).fieldOfView)
  {
  }

  class InsideCamera {
    var horizontalRange: Range
    /** `transform.rotation` and the camera's `fieldOfView`. */
    var rotation: Rotation
    var fieldOfView: real
    var rotationFrom: Rotation
    var rotationTo: Rotation
    var fieldOfViewFrom: real
    var fieldOfViewTo: real
    /** Degrees per pixel of mouse movement: 360 / screen height. */
    const mouseMovingRatio: real

    /** The live field of view and both ends of the animation stay in [30,90]. */
    predicate Valid()
      reads this
    {
      FieldOfViewInRange(fieldOfView) && FieldOfViewInRange(fieldOfViewFrom) && FieldOfViewInRange(fieldOfViewTo)
    }

    function Current(): View
      reads this
    {
      View(rotation, fieldOfView)
    }

    /** Both ends of the current animation, `From` first. */
    function Ends(): (View, View)
      reads this
    {
      (View(rotationFrom, fieldOfViewFrom), View(rotationTo, fieldOfViewTo))
    }

    /** `Start` on a screen `screenHeight` pixels high. */
    constructor(screenHeight: real)
      requires screenHeight > 0.0
      ensures Valid()
      ensures horizontalRange == Half && rotation == Identity && fieldOfView == FieldOfViewInitial
      ensures rotationFrom == Identity && rotationTo == Identity
      ensures fieldOfViewFrom == FieldOfViewInitial && fieldOfViewTo == FieldOfViewInitial
      ensures mouseMovingRatio == 360.0 / screenHeight
    {
      horizontalRange := Half;
      rotation, rotationFrom, rotationTo := Identity, Identity, Identity;
      fieldOfView, fieldOfViewFrom, fieldOfViewTo := FieldOfViewInitial, FieldOfViewInitial, FieldOfViewInitial;
      mouseMovingRatio := 360.0 / screenHeight;
    }

    /** `HorizontalRange = r`. */
    method SetHorizontalRange(r: Range)
      modifies this
      ensures horizontalRange == r
      ensures rotation == old(rotation) && fieldOfView == old(fieldOfView)
      ensures rotationFrom == old(rotationFrom) && rotationTo == old(rotationTo)
      ensures fieldOfViewFrom == old(fieldOfViewFrom) && fieldOfViewTo == old(fieldOfViewTo)
    {
      horizontalRange := r;
    }

    /** `OnDrag`: turns the camera by the cut yaw and pitch steps. `eulerX`
        and `eulerY` are the current rotation's Euler angles in [0,360);
        `rollKept` says whether the turned rotation keeps its roll under 1
        degree, otherwise the drag is dropped. */
    method OnDrag(dx: real, dy: real, eulerX: real, eulerY: real, rollKept: bool)
      modifies this
      ensures rollKept ==>
        rotation == Turned(YawStep(horizontalRange, dx, mouseMovingRatio, eulerY),
                           PitchStep(dy, mouseMovingRatio, eulerX), old(rotation))
      ensures !rollKept ==> rotation == old(rotation)
      ensures fieldOfView == old(fieldOfView) && horizontalRange == old(horizontalRange)
      ensures rotationFrom == old(rotationFrom) && rotationTo == old(rotationTo)
      ensures fieldOfViewFrom == old(fieldOfViewFrom) && fieldOfViewTo == old(fieldOfViewTo)
    {
      var yaw := YawStep(horizontalRange, dx, mouseMovingRatio, eulerY);
      var pitch := PitchStep(dy, mouseMovingRatio, eulerX);
      if rollKept {
        rotation := Turned(yaw, pitch, rotation);
      }
    }

    /** `OnWheel`: narrows the view by 10 degrees per notch within [30,90]. */
    method OnWheel(delta: real)
      requires Valid()
      modifies this
      ensures Valid()
      ensures fieldOfView == Clamp(old(fieldOfView) - delta * 10.0, FieldOfViewLower, FieldOfViewUpper)
      ensures rotation == old(rotation) && horizontalRange == old(horizontalRange)
      ensures rotationFrom == old(rotationFrom) && rotationTo == old(rotationTo)
      ensures fieldOfViewFrom == old(fieldOfViewFrom) && fieldOfViewTo == old(fieldOfViewTo)
    {
      fieldOfView := Clamp(fieldOfView - delta * 10.0, FieldOfViewLower, FieldOfViewUpper);
    }

    /** `ResetCamera`: looks straight ahead with the initial field of view. */
    method ResetCamera()
      requires Valid()
      modifies this
      ensures Valid()
      ensures rotation == Identity && fieldOfView == FieldOfViewInitial && horizontalRange == old(horizontalRange)
      ensures rotationFrom == old(rotationFrom) && rotationTo == old(rotationTo)
      ensures fieldOfViewFrom == old(fieldOfViewFrom) && fieldOfViewTo == old(fieldOfViewTo)
    {
      rotation := Identity;
      fieldOfView := FieldOfViewInitial;
    }

    /** `PrepareCameraMoving`: fixes both ends of the next animation. */
    method PrepareCameraMoving(from: CameraPosition, to: CameraPosition, drawFrom: Draw, drawTo: Draw)
      requires Valid() && drawFrom.Valid() && drawTo.Valid()
      modifies this
      ensures Valid()
      ensures View(rotationFrom, fieldOfViewFrom) == Resolve(from, horizontalRange, old(Current()), drawFrom)
      ensures View(rotationTo, fieldOfViewTo) == Resolve(to, horizontalRange, old(Current()), drawTo)
      ensures rotation == old(rotation) && fieldOfView == old(fieldOfView) && horizontalRange == old(horizontalRange)
    {
      ResolveTags(from, horizontalRange, Current(), drawFrom);
      ResolveTags(to, horizontalRange, Current(), drawTo);
      var f := Resolve(from, horizontalRange, Current(), drawFrom);
      var t := Resolve(to, horizontalRange, Current(), drawTo);
      rotationFrom, fieldOfViewFrom := f.rotation, f.fieldOfView;
      rotationTo, fieldOfViewTo := t.rotation, t.fieldOfView;
    }

    /** `MoveCamera`: the view at `ratio` of the way through the animation. */
    method MoveCamera(ratio: real)
      requires Valid()
      modifies this
      ensures Valid()
      ensures rotation == Slerp(rotationFrom, rotationTo, ratio)
      ensures fieldOfView == Lerp(fieldOfViewFrom, fieldOfViewTo, ratio)
      ensures ratio <= 0.0 ==> fieldOfView == fieldOfViewFrom
      ensures ratio >= 1.0 ==> fieldOfView == fieldOfViewTo
      ensures horizontalRange == old(horizontalRange)
      ensures rotationFrom == old(rotationFrom) && rotationTo == old(rotationTo)
      ensures fieldOfViewFrom == old(fieldOfViewFrom) && fieldOfViewTo == old(fieldOfViewTo)
    {
      LerpEnds(fieldOfViewFrom, fieldOfViewTo, ratio);
      LerpInRange(fieldOfViewFrom, fieldOfViewTo, ratio, FieldOfViewLower, FieldOfViewUpper);
      rotation := Slerp(rotationFrom, rotationTo, ratio);
      fieldOfView := Lerp(fieldOfViewFrom, fieldOfViewTo, ratio);
    }
  }
}
