/** EquirectangularImage: the provider for 180 and 360 degree pictures. It
    forwards every camera operation to its InsideCamera and chooses the
    shader by the camera's horizontal range and the picture's arrangement. */
module PanoramaImage {
  import opened Numeric
  import opened Optional
  import opened ProviderTypes
  import opened Provider
  import opened PanoramaCamera

  const ShaderPrefix: string := "EquirectangularImage/SphericalScreen/"

  /** The range's part of a shader name; its first letter tells the ranges apart. */
  function RangeName(r: Range): (name: string)
    ensures |name| == 4 && (name[0] == 'H' <==> r == Half)
  {
    match r
    case Half => "Half"
    case Full => "Full"
  }

  /** `GetSuitableShaderName`: `.../Half<arrangement>` or `.../Full<arrangement>`. */
  function ShaderName(r: Range, a: ImageArrangement): (name: string)
    ensures |name| > |ShaderPrefix| && name[..|ShaderPrefix|] == ShaderPrefix
    ensures name[|ShaderPrefix|] == RangeName(r)[0]
  {

    ShaderPrefix + RangeName(r) + ArrangementName(a)
  }

  /** The ten range and arrangement pairs get ten different shaders. */
  lemma ShaderNamesDistinct(r: Range, a: ImageArrangement, q: Range, b: ImageArrangement)
    ensures ShaderName(r, a) == ShaderName(q, b) <==> r == q && a == b
  {
    var n := |ShaderPrefix|;
    if ShaderName(r, a) == ShaderName(q, b) {
      assert ShaderName(r, a)[n] == RangeName(r)[0];
      assert ShaderName(q, b)[n] == RangeName(q)[0];
      assert r == q;
      assert ShaderName(r, a) == (ShaderPrefix + RangeName(r)) + ArrangementName(a);
      assert ShaderName(q, b) == (ShaderPrefix + RangeName(r)) + ArrangementName(b);
      ArrangementNamesDistinct(ShaderPrefix + RangeName(r), a, b);
    }
  }

  class EquirectangularImage {
    const core: RgbdImageProvider
    const camera: InsideCamera

    predicate Valid()
      reads this, core, camera
    {
      core.Valid() && camera.Valid()
    }

    /** `OnStart`, with a camera for a screen `screenHeight` pixels high. */
    constructor(screenHeight: real)
      requires screenHeight > 0.0
      ensures Valid() && fresh(core) && fresh(camera)
      ensures core.settings == Settings(Image, LR, "", "", "", "", FrontPositive)
      ensures camera.horizontalRange == Half && camera.rotation == Identity && camera.fieldOfView == FieldOfViewInitial
    {
      core := new RgbdImageProvider();
      camera := new InsideCamera(screenHeight);
    }

    /** `HorizontalRange`, kept by the camera. */
    function HorizontalRange(): Range
      reads camera
    {
      camera.horizontalRange
    }

    method SetHorizontalRange(r: Range)
      requires Valid()
      modifies camera
      ensures Valid()
      ensures HorizontalRange() == r
      ensures camera.rotation == old(camera.rotation) && camera.fieldOfView == old(camera.fieldOfView)
    {
      camera.SetHorizontalRange(r);
    }

    /** The current shader of the picture. */
    function Shader(): (name: string)
      reads this, core, camera
      ensures |name| > |ShaderPrefix| && name[..|ShaderPrefix|] == ShaderPrefix
      ensures name[|ShaderPrefix|] == 'H' <==> camera.horizontalRange == Half
    {
      ShaderName(camera.horizontalRange, core.settings.arrangement)
    }

    /** `OnDrag`: the camera's drag, nothing else. */
    method OnDrag(dx: real, dy: real, eulerX: real, eulerY: real, rollKept: bool)
      requires Valid()
      modifies camera
      ensures Valid()
      ensures rollKept ==>
        camera.rotation == Turned(YawStep(camera.horizontalRange, dx, camera.mouseMovingRatio, eulerY),
                                  PitchStep(dy, camera.mouseMovingRatio, eulerX), old(camera.rotation))
      ensures !rollKept ==> camera.rotation == old(camera.rotation)
      ensures camera.fieldOfView == old(camera.fieldOfView) && camera.horizontalRange == old(camera.horizontalRange)
      ensures camera.Ends() == old(camera.Ends())
    {
      camera.OnDrag(dx, dy, eulerX, eulerY, rollKept);
    }

    /** `OnWheel`: the camera's zoom, nothing else. */
    method OnWheel(delta: real)
      requires Valid()
      modifies camera
      ensures Valid()
      ensures camera.fieldOfView == Clamp(old(camera.fieldOfView) - delta * 10.0, FieldOfViewLower, FieldOfViewUpper)
      ensures camera.rotation == old(camera.rotation) && camera.horizontalRange == old(camera.horizontalRange)
      ensures camera.Ends() == old(camera.Ends())
    {
      camera.OnWheel(delta);
    }

    /** Carries out a hook call of the provider core on the camera. */
    method Apply(hook: CameraHook, drawFrom: Draw, drawTo: Draw)
      requires Valid() && drawFrom.Valid() && drawTo.Valid()
      modifies camera
      ensures Valid()
      ensures camera.horizontalRange == old(camera.horizontalRange)
      ensures hook.NoHook? ==> camera.Current() == old(camera.Current())
      ensures !hook.Prepare? ==> camera.Ends() == old(camera.Ends())
      ensures hook.Reset? ==> camera.Current() == View(Identity, FieldOfViewInitial)
      ensures hook.Move? ==>
        camera.rotation == Slerp(old(camera.rotationFrom), old(camera.rotationTo), hook.ratio) &&
        camera.fieldOfView == Lerp(old(camera.fieldOfViewFrom), old(camera.fieldOfViewTo), hook.ratio)
      ensures hook.Prepare? ==>
        camera.Ends() == (Resolve(hook.from, camera.horizontalRange, old(camera.Current()), drawFrom),
                          Resolve(hook.to, camera.horizontalRange, old(camera.Current()), drawTo)) &&
        camera.Current() == old(camera.Current())
    {
      match hook
      case NoHook =>
      case Reset => camera.ResetCamera();
      case Move(ratio) => camera.MoveCamera(ratio);
      case Prepare(from, to) => camera.PrepareCameraMoving(from, to, drawFrom, drawTo);
    }

    /** One frame: the core's `Update`, with the shader chosen on a reload
        and the camera hook carried out. */
    method Update(dt: real, load: string -> Option<TextureSize>, cosPi: real -> real, drawFrom: Draw, drawTo: Draw)
      returns (shader: Option<string>, prepare: Option<string>)
      requires Valid() && drawFrom.Valid() && drawTo.Valid()
      modifies core, camera
      ensures Valid() && !core.dirty
      ensures core.settings == old(core.settings) && camera.horizontalRange == old(camera.horizontalRange)
      ensures var s := Advance(old(core.clock), core.settings.media, dt, cosPi);
        core.clock == s.clock &&
        core.events == old(core.events) + (if old(core.dirty) && core.settings.media == Image then [StartFadeIn] else []) + s.events
      ensures shader == if old(core.dirty) then Some(ShaderName(camera.horizontalRange, core.settings.arrangement)) else None
      ensures var h := Advance(old(core.clock), core.settings.media, dt, cosPi).hook;
        (h.NoHook? || h.Prepare? ==> camera.Current() == old(camera.Current())) &&
        (h.Reset? ==> camera.Current() == View(Identity, FieldOfViewInitial)) &&
        (h.Move? ==> camera.Current() == View(Slerp(old(camera.rotationFrom), old(camera.rotationTo), h.ratio),
                                              Lerp(old(camera.fieldOfViewFrom), old(camera.fieldOfViewTo), h.ratio))) &&
        (h.Prepare? ==> camera.Ends() == (Resolve(h.from, camera.horizontalRange, old(camera.Current()), drawFrom),
                                          Resolve(h.to, camera.horizontalRange, old(camera.Current()), drawTo))) &&
        (!h.Prepare? ==> camera.Ends() == old(camera.Ends()))
    {
      shader := if core.dirty then Some(ShaderName(camera.horizontalRange, core.settings.arrangement)) else None;
      var hook, shown;
      hook, shown, prepare := core.Update(dt, load, cosPi);
      Apply(hook, drawFrom, drawTo);
    }
  }
}
