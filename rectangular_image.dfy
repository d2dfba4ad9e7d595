/** RectangularImage: the provider for flat pictures. Its camera is a view
    window over the texture, a pan position in [0,1]^2 and a zoom in [1,2],
    which `OnUpdate` hands to the shader together with the picture's aspect
    correction. */
module FlatImage {
  import opened Numeric
  import opened Optional
  import opened ProviderTypes
  import opened Provider

  const ScaleInitial: real := 1.0
  const ScaleLower: real := 1.0
  const ScaleUpper: real := 2.0

  /** Pan position (`position.x`, `position.y`) and zoom (`scale`). */
  datatype Pose = Pose(x: real, y: real, scale: real)

  const InitialPose: Pose := Pose(0.5, 0.5, ScaleInitial)

  predicate InBounds(p: Pose)
  {
    0.0 <= p.x <= 1.0 && 0.0 <= p.y <= 1.0 && ScaleLower <= p.scale <= ScaleUpper
  }

  /** `GetRandomPosition` and `GetRandomScale`: three `Random.Range` draws. */
  function RandomPose(d: Draw): (r: Pose)
    requires d.Valid()
    ensures 0.25 <= r.x <= 0.75 && 0.25 <= r.y <= 0.75 && ScaleLower <= r.scale <= ScaleUpper
  {
    Pose(RandomRange(0.25, 0.75, d.u1), RandomRange(0.25, 0.75, d.u2), RandomRange(ScaleLower, ScaleUpper, d.u3))
  }

  /** The pose one end of a camera animation takes from its tag. */
  function Resolve(tag: CameraPosition, current: Pose, d: Draw): (r: Pose)
    requires d.Valid()
    ensures tag != Current ==> InBounds(r)
    ensures InBounds(current) ==> InBounds(r)
    ensures tag == Random ==> 0.25 <= r.x <= 0.75 && 0.25 <= r.y <= 0.75
  {
    match tag
    case Initial => InitialPose
    case Current => current
    case Random => RandomPose(d)
  }

  /** Initial is the reset pose, Current the live one, and Random a pose in
      the central window [0.25,0.75]^2 with any allowed zoom; a resolved pose
      is in bounds whenever the live one is. */
  lemma ResolveTags(tag: CameraPosition, current: Pose, d: Draw)
    requires d.Valid()
    ensures tag == Initial ==> Resolve(tag, current, d) == InitialPose
    ensures tag == Current ==> Resolve(tag, current, d) == current
    ensures tag == Random ==> var p := Resolve(tag, current, d);
      0.25 <= p.x <= 0.75 && 0.25 <= p.y <= 0.75 && ScaleLower <= p.scale <= ScaleUpper
    ensures InBounds(current) ==> InBounds(Resolve(tag, current, d))
  {
  }

  /** `Vector2.Lerp` of the positions and `Mathf.Lerp` of the zooms (both
      clamp the ratio to [0,1]). */
  function Interpolate(from: Pose, to: Pose, ratio: real): (r: Pose)
    ensures from == to ==> r == from
    ensures ratio <= 0.0 ==> r == from
    ensures ratio >= 1.0 ==> r == to
  {
    Pose(Lerp(from.x, to.x, ratio), Lerp(from.y, to.y, ratio), Lerp(from.scale, to.scale, ratio))
  }

  /** Ratio 0 (or less) gives the start pose, ratio 1 (or more) the end pose,
      and with both ends in bounds every step of the move is too. */
  lemma InterpolateEndsAndBounds(from: Pose, to: Pose, ratio: real)
    ensures ratio <= 0.0 ==> Interpolate(from, to, ratio) == from
    ensures ratio >= 1.0 ==> Interpolate(from, to, ratio) == to
    ensures InBounds(from) && InBounds(to) ==> InBounds(Interpolate(from, to, ratio))
  {
    LerpEnds(from.x, to.x, ratio);
    LerpEnds(from.y, to.y, ratio);
    LerpEnds(from.scale, to.scale, ratio);
    if InBounds(from) && InBounds(to) {
      LerpInRange(from.x, to.x, ratio, 0.0, 1.0);
      LerpInRange(from.y, to.y, ratio, 0.0, 1.0);
      LerpInRange(from.scale, to.scale, ratio, ScaleLower, ScaleUpper);
    }
  }

  /** The aspect correction of `OnUpdate`: the longer side of the picture
      stretches the other axis's texture scale. */
  function AspectScales(w: nat, h: nat): (r: (real, real))
    requires w > h ==> h > 0
    requires w < h ==> w > 0
    ensures w >= h ==> r.0 == 1.0
    ensures w <= h ==> r.1 == 1.0
  {
    if w > h then (1.0, w as real / h as real)
    else if w < h then (h as real / w as real, 1.0)
    else (1.0, 1.0)
  }

  /** The two scales make the picture square in texture space
      (`uScale * w == vScale * h`): neither is below 1, and the one along the
      longer side is exactly 1. */
  lemma AspectScalesSquareThePicture(w: nat, h: nat)
    requires w > h ==> h > 0
    requires w < h ==> w > 0
    ensures var (u, v) := AspectScales(w, h);
      u * w as real == v * h as real && u >= 1.0 && v >= 1.0 && (u == 1.0 || v == 1.0) &&
      (w >= h ==> u == 1.0) && (w <= h ==> v == 1.0)
  {
    if w > h {
      QuotientAtLeastOne(w as real, h as real);
    } else if w < h {
      QuotientAtLeastOne(h as real, w as real);
    }
  }

  lemma QuotientAtLeastOne(a: real, b: real)
    requires 0.0 < b <= a
    ensures a / b >= 1.0 && a / b * b == a
  {
    assert (a / b - 1.0) * b == a - b;
  }

  /** What `OnUpdate` sends to the shader (`_U`, `_V`, `_UScale`, `_VScale`). */
  datatype ViewParams = ViewParams(u: real, v: real, uScale: real, vScale: real)

  function View(p: Pose, w: nat, h: nat): (r: ViewParams)
    requires p.scale > 0.0
    requires w > h ==> h > 0
    requires w < h ==> w > 0
    ensures r.u == p.x && r.v == p.y
    ensures r.uScale * p.scale == AspectScales(w, h).0 && r.vScale * p.scale == AspectScales(w, h).1
  {
    var (us, vs) := AspectScales(w, h);
    ViewParams(p.x, p.y, us / p.scale, vs / p.scale)
  }

  /** The parameters for a picture of `w` by `h` pixels; a picture with one
      side of zero pixels and the other not has no finite aspect scale. */
  function ViewFor(p: Pose, w: nat, h: nat): (r: Option<ViewParams>)
    requires p.scale > 0.0
    ensures r.Some? <==> (w > h ==> h > 0) && (w < h ==> w > 0)
    ensures r.Some? ==> r.value.u == p.x && r.value.v == p.y
  {
    if (w > h ==> h > 0) && (w < h ==> w > 0) then Some(View(p, w, h)) else None
  }

  /** Zooming in shrinks the window the shader samples: the scales are the
      aspect scales divided by the zoom, never above them. */
  lemma ViewDividesByZoom(p: Pose, w: nat, h: nat)
    requires InBounds(p)
    requires w > h ==> h > 0
    requires w < h ==> w > 0
    ensures var (us, vs) := AspectScales(w, h); var view := View(p, w, h);
      view.uScale * p.scale == us && view.vScale * p.scale == vs &&
      view.uScale <= us && view.vScale <= vs && view.u == p.x && view.v == p.y
  {
    var (us, vs) := AspectScales(w, h);
    AspectScalesSquareThePicture(w, h);
    DivideByAtLeastOne(us, p.scale);
    DivideByAtLeastOne(vs, p.scale);
  }

  lemma DivideByAtLeastOne(a: real, s: real)
    requires a >= 0.0 && s >= 1.0
    ensures a / s * s == a && a / s <= a
  {
    assert a - a / s == (a / s) * (s - 1.0);
  }

  const ShaderPrefix: string := "RectangularImage/"

  /** `GetSuitableShaderName`: one shader per arrangement (LR is the default). */
  function ShaderName(a: ImageArrangement): (r: string)
    ensures |r| > |ShaderPrefix| && r[..|ShaderPrefix|] == ShaderPrefix
  {

    ShaderPrefix + ArrangementName(a)
  }

  /** Each arrangement gets a shader of its own. */
  lemma ShaderNamesDistinct(a: ImageArrangement, b: ImageArrangement)
    ensures ShaderName(a) == ShaderName(b) <==> a == b
  {
    ArrangementNamesDistinct(ShaderPrefix, a, b);
  }

  /** The flat-picture provider: the shared provider core plus the view window. */
  class RectangularImage {
    const core: RgbdImageProvider
    var pose: Pose
    var poseFrom: Pose
    var poseTo: Pose
    var changeView: bool
    /** Pan per pixel of mouse movement: 2 / screen height. */
    const mouseMovingRatio: real

    /** The view window, and both ends of the current animation, stay in bounds. */
    predicate Valid()
      reads this, core
    {
      core.Valid() && InBounds(pose) && InBounds(poseFrom) && InBounds(poseTo)
    }

    /** `OnStart` on a screen `screenHeight` pixels high. */
    constructor(screenHeight: real)
      requires screenHeight > 0.0
      ensures Valid() && fresh(core)
      ensures core.settings == Settings(Image, LR, "", "", "", "", FrontPositive)
      ensures pose == InitialPose && poseFrom == InitialPose && poseTo == InitialPose && !changeView
      ensures mouseMovingRatio == 2.0 / screenHeight
    {
      core := new RgbdImageProvider();
      pose, poseFrom, poseTo := InitialPose, InitialPose, InitialPose;
      changeView := false;
      mouseMovingRatio := 2.0 / screenHeight;
    }

    /** `OnDrag`: pans against the mouse, clamped to the texture. */
    method OnDrag(dx: real, dy: real)
      requires Valid()
      modifies this
      ensures Valid() && changeView
      ensures pose == Pose(Clamp(old(pose.x) - dx * mouseMovingRatio, 0.0, 1.0),
                           Clamp(old(pose.y) - dy * mouseMovingRatio, 0.0, 1.0), old(pose.scale))
      ensures poseFrom == old(poseFrom) && poseTo == old(poseTo)
    {
      pose := pose.(x := Clamp(pose.x - dx * mouseMovingRatio, 0.0, 1.0));
      pose := pose.(y := Clamp(pose.y - dy * mouseMovingRatio, 0.0, 1.0));
      changeView := true;
    }

    /** `OnWheel`: zooms by 0.2 per notch within [1,2]. */
    method OnWheel(delta: real)
      requires Valid()
      modifies this
      ensures Valid() && changeView
      ensures pose == old(pose).(scale := Clamp(old(pose.scale) + delta * 0.2, ScaleLower, ScaleUpper))
      ensures poseFrom == old(poseFrom) && poseTo == old(poseTo)
    {
      pose := pose.(scale := Clamp(pose.scale + delta * 0.2, ScaleLower, ScaleUpper));
      changeView := true;
    }

    /** `ResetCamera`: back to the centred, unzoomed view. */
    method ResetCamera()
      requires Valid()
      modifies this
      ensures Valid()
      ensures pose == InitialPose && poseFrom == old(poseFrom) && poseTo == old(poseTo) && changeView == old(changeView)
    {
      pose := InitialPose;
    }

    /** `PrepareCameraMoving`: fixes both ends of the next animation; each
        Random end takes its own draw. */
    method PrepareCameraMoving(from: CameraPosition, to: CameraPosition, drawFrom: Draw, drawTo: Draw)
      requires Valid() && drawFrom.Valid() && drawTo.Valid()
      modifies this
      ensures Valid()
      ensures poseFrom == Resolve(from, old(pose), drawFrom) && poseTo == Resolve(to, old(pose), drawTo)
      ensures pose == old(pose) && changeView == old(changeView)
    {
      ResolveTags(from, pose, drawFrom);
      ResolveTags(to, pose, drawTo);
      poseFrom := Resolve(from, pose, drawFrom);
      poseTo := Resolve(to, pose, drawTo);
    }

    /** `MoveCamera`: the view at `ratio` of the way through the animation. */
    method MoveCamera(ratio: real)
      requires Valid()
      modifies this
      ensures Valid() && changeView
      ensures pose == Interpolate(poseFrom, poseTo, ratio)
      ensures poseFrom == old(poseFrom) && poseTo == old(poseTo)
    {
      InterpolateEndsAndBounds(poseFrom, poseTo, ratio);
      pose := Interpolate(poseFrom, poseTo, ratio);
      changeView := true;
    }

    /** Carries out a hook call of the provider core. */
    method Apply(hook: CameraHook, drawFrom: Draw, drawTo: Draw)
      requires Valid() && drawFrom.Valid() && drawTo.Valid()
      modifies this
      ensures Valid()
      ensures hook.NoHook? ==> pose == old(pose) && poseFrom == old(poseFrom) && poseTo == old(poseTo) && changeView == old(changeView)
      ensures hook.Reset? ==> pose == InitialPose && poseFrom == old(poseFrom) && poseTo == old(poseTo) && changeView == old(changeView)
      ensures hook.Move? ==>
        pose == Interpolate(old(poseFrom), old(poseTo), hook.ratio) && changeView &&
        poseFrom == old(poseFrom) && poseTo == old(poseTo)
      ensures hook.Prepare? ==>
        poseFrom == Resolve(hook.from, old(pose), drawFrom) && poseTo == Resolve(hook.to, old(pose), drawTo) &&
        pose == old(pose) && changeView == old(changeView)
    {
      match hook
      case NoHook =>
      case Reset => ResetCamera();
      case Move(ratio) => MoveCamera(ratio);
      case Prepare(from, to) => PrepareCameraMoving(from, to, drawFrom, drawTo);
    }

    /** `OnUpdate`: after anything changed the view, the shader gets the pan
        position and the aspect scales divided by the zoom. */
    method OnUpdate() returns (params: Option<ViewParams>)
      requires Valid()
      modifies this
      ensures Valid() && !changeView
      ensures old(changeView) ==> params == ViewFor(pose, core.Width(), core.Height())
      ensures !old(changeView) ==> params == None
      ensures pose == old(pose) && poseFrom == old(poseFrom) && poseTo == old(poseTo)
    {
      params := None;
      if changeView {
        params := ViewFor(pose, core.Width(), core.Height());
      }
      changeView := false;
    }

    /** `OnSetTextureToShader` and `OnVideoPlayerPrepareCompleted`. */
    method MarkChanged()
      requires Valid()
      modifies this
      ensures Valid() && changeView
      ensures pose == old(pose) && poseFrom == old(poseFrom) && poseTo == old(poseTo)
    {
      changeView := true;
    }

    /** The player finished preparing a video. */
    method OnPrepareCompleted(size: TextureSize)
      requires Valid()
      modifies this, core
      ensures Valid() && changeView
      ensures core.State() == old(core.State()).(textureWidth := size.width, textureHeight := size.height,
                                                 events := old(core.events) + [StartFadeIn])
      ensures pose == old(pose) && poseFrom == old(poseFrom) && poseTo == old(poseTo)
    {
      core.OnPrepareCompleted(size);
      changeView := true;
    }

    /** One frame: the core's `Update` with this provider's shader and camera,
        then `OnUpdate`. `shader` is the shader chosen on a reload. */
    method Update(dt: real, load: string -> Option<TextureSize>, cosPi: real -> real, drawFrom: Draw, drawTo: Draw)
      returns (shader: Option<string>, prepare: Option<string>, params: Option<ViewParams>)
      requires Valid() && drawFrom.Valid() && drawTo.Valid()
      modifies this, core
      ensures Valid() && !core.dirty && !changeView
      ensures core.settings == old(core.settings)
      ensures var s := Advance(old(core.clock), core.settings.media, dt, cosPi);
        core.clock == s.clock &&
        core.events == old(core.events) + (if old(core.dirty) && core.settings.media == Image then [StartFadeIn] else []) + s.events
      ensures shader == if old(core.dirty) then Some(ShaderName(core.settings.arrangement)) else None
      ensures var h := Advance(old(core.clock), core.settings.media, dt, cosPi).hook;
        (h.NoHook? || h.Prepare? ==> pose == old(pose)) &&
        (h.Reset? ==> pose == InitialPose) &&
        (h.Move? ==> pose == Interpolate(old(poseFrom), old(poseTo), h.ratio)) &&
        (h.Prepare? ==> poseFrom == Resolve(h.from, old(pose), drawFrom) && poseTo == Resolve(h.to, old(pose), drawTo)) &&
        (!h.Prepare? ==> poseFrom == old(poseFrom) && poseTo == old(poseTo))
      ensures var h := Advance(old(core.clock), core.settings.media, dt, cosPi).hook;
        var shown := old(core.dirty) && core.settings.media == Image && core.noError;
        params == if old(changeView) || shown || h.Move? then ViewFor(pose, core.Width(), core.Height()) else None
    {
      shader := if core.dirty then Some(ShaderName(core.settings.arrangement)) else None;
      ghost var changed := changeView;
      var hook, shown;
      hook, shown, prepare := core.Update(dt, load, cosPi);
      assert shown <==> old(core.dirty) && core.settings.media == Image && core.noError;
      if shown {
        MarkChanged();
      }
      changed := changed || shown;
      assert changeView == changed;
      Apply(hook, drawFrom, drawTo);
      assert changeView == (changed || hook.Move?);
      params := OnUpdate();
    }
  }
}
