/** OutputScreen: the screen the RGB-D picture is drawn on. Its z position,
    scale and parallax depth are edited with the wheel while Z, S or D is
    held, reset by a double click with a short animation, and its colour
    intensity fades in and out around every picture. The screen tilt
    (a rotation) is not part of this model. */
module Screen {
  import opened Numeric
  import opened Optional

  const PositionInitial: real := -5.0
  const PositionLower: real := -15.0
  const PositionUpper: real := 5.0
  const ScaleInitial: real := 18.0
  const ScaleLower: real := 8.0
  const ScaleUpper: real := 28.0
  const DepthInitial: real := 10.0
  const DepthLower: real := 1.0
  const DepthUpper: real := 20.0

  /** The ray-march step of the parallax shader is the depth over 64. */
  const DepthDivisor: real := 64.0

  /** Length of every reset animation. */
  const ResetAnimationPeriod: real := 0.2

  datatype ShaderType = Parallax | DepthOnly | RgbOnly

  datatype ScreenEvent = PositionUpdated | ScaleUpdated | DepthUpdated

  /** The keys held while the wheel turns or a click lands (`Input.GetKey`). */
  datatype Held = Held(z: bool, s: bool, d: bool)

  /** A reset animation of one parameter: whether it runs, its clock, and
      the value it started from. */
  datatype ResetAnim = ResetAnim(resetting: bool, elapsed: real, from: real)

  /** One frame of a reset animation toward `initial`: the new animation
      state, the value written (while it ran), and whether it ended now. */
  function ResetStep(a: ResetAnim, dt: real, initial: real): (r: (ResetAnim, Option<real>, bool))
    ensures r.0.elapsed == a.elapsed + dt && r.0.from == a.from
    ensures r.1.Some? <==> a.resetting
    ensures r.2 <==> a.resetting && !r.0.resetting
    ensures r.0.resetting ==> a.resetting
  {
    var e := a.elapsed + dt;
    if !a.resetting then (a.(elapsed := e), None, false)
    else
      var still := e <= ResetAnimationPeriod;
      (a.(resetting := still, elapsed := e), Some(Lerp(a.from, initial, Min(e / ResetAnimationPeriod, 1.0))), !still)
  }

  /** A running reset writes the value `ratio` of the way from its start to
      the initial value, ends on the first frame past 0.2 s with the value
      exactly initial, and only then reports its end; an idle one writes
      nothing. */
  lemma ResetStepBehaviour(a: ResetAnim, dt: real, initial: real)
    ensures var (b, v, ended) := ResetStep(a, dt, initial); var e := a.elapsed + dt;
      b.elapsed == e && b.from == a.from &&
      (!a.resetting ==> !b.resetting && v == None && !ended) &&
      (a.resetting && e > ResetAnimationPeriod ==> !b.resetting && v == Some(initial) && ended) &&
      (a.resetting && e <= ResetAnimationPeriod ==>
        b.resetting && !ended && v == Some(Lerp(a.from, initial, e / ResetAnimationPeriod))) &&
      (v.Some? ==> Min(a.from, initial) <= v.value <= Max(a.from, initial))
  {
    var e := a.elapsed + dt;
    if a.resetting {
      var ratio := Min(e / ResetAnimationPeriod, 1.0);
      LerpBetween(a.from, initial, ratio);
      if e > ResetAnimationPeriod {
        assert e / ResetAnimationPeriod > 1.0;
        LerpEnds(a.from, initial, ratio);
      }
    }
  }

  /** Frames of a reset: the final animation and how many ends it reported. */
  function ResetRun(a: ResetAnim, dts: seq<real>, initial: real): (r: (ResetAnim, nat))
    decreases |dts|
  {
    if dts == [] then (a, 0)
    else
      var (b, _, ended) := ResetStep(a, dts[0], initial);
      var (c, n) := ResetRun(b, dts[1..], initial);
      (c, n + if ended then 1 else 0)
  }

  /** However many frames pass, a reset reports its end at most once, and
      an idle parameter never. */
  lemma {:induction false} ResetEndsOnce(a: ResetAnim, dts: seq<real>, initial: real)
    ensures ResetRun(a, dts, initial).1 <= if a.resetting then 1 else 0
    ensures !a.resetting ==> !ResetRun(a, dts, initial).0.resetting
    decreases |dts|
  {
    if dts != [] {
      var (b, _, ended) := ResetStep(a, dts[0], initial);
      ResetStepBehaviour(a, dts[0], initial);
      ResetEndsOnce(b, dts[1..], initial);
    }
  }

  /** A colour fade: its direction flags, its clock and its length. */
  datatype Fade = Fade(fadeIn: bool, fadeOut: bool, elapsed: real, period: real)

  predicate FadeValid(f: Fade)
  {
    !(f.fadeIn && f.fadeOut) && f.elapsed >= 0.0 && ((f.fadeIn || f.fadeOut) ==> f.period > 0.0)
  }

  /** One frame of the fade: the new fade and the colour intensity. */
  function FadeStep(f: Fade, dt: real, intensity: real): (r: (Fade, real))
    requires FadeValid(f)
    ensures r.0.elapsed == f.elapsed + dt && r.0.period == f.period
    ensures (r.0.fadeIn ==> f.fadeIn) && (r.0.fadeOut ==> f.fadeOut)
    ensures !(f.fadeIn || f.fadeOut) ==> r.1 == intensity
  {
    var e := f.elapsed + dt;
    if !(f.fadeIn || f.fadeOut) then (f.(elapsed := e), intensity)
    else
      var up := Min(e / f.period, 1.0);
      (f.(fadeIn := f.fadeIn && e <= f.period, fadeOut := f.fadeOut && e <= f.period, elapsed := e),
       if f.fadeOut then 1.0 - up else up)
  }

  lemma NonNegativeQuotient(e: real, p: real)
    requires e >= 0.0 && p > 0.0
    ensures e / p >= 0.0
    ensures e <= p ==> e / p <= 1.0
    ensures e > p ==> e / p > 1.0
  {
    if e > p {
      assert (e / p - 1.0) * p == e - p;
    } else {
      assert (1.0 - e / p) * p == p - e;
    }
  }

  /** A fade keeps the intensity in [0,1] (rising for a fade-in, falling for
      a fade-out) and, on its first frame past the period, stops at 1 for a
      fade-in and 0 for a fade-out; an idle fade leaves the intensity alone. */
  lemma FadeStepBehaviour(f: Fade, dt: real, intensity: real)
    requires FadeValid(f) && dt >= 0.0
    ensures var (g, i) := FadeStep(f, dt, intensity); var e := f.elapsed + dt;
      FadeValid(g) &&
      (!(f.fadeIn || f.fadeOut) ==> i == intensity && g.fadeIn == f.fadeIn && g.fadeOut == f.fadeOut) &&
      ((f.fadeIn || f.fadeOut) ==> 0.0 <= i <= 1.0) &&
      (f.fadeIn ==> i == Min(e / f.period, 1.0) && (g.fadeIn <==> e <= f.period) && !g.fadeOut) &&
      (f.fadeOut ==> i == 1.0 - Min(e / f.period, 1.0) && (g.fadeOut <==> e <= f.period) && !g.fadeIn) &&
      (f.fadeIn && e > f.period ==> i == 1.0) &&
      (f.fadeOut && e > f.period ==> i == 0.0)
  {
    var e := f.elapsed + dt;
    if f.fadeIn || f.fadeOut {
      NonNegativeQuotient(e, f.period);
      assert 0.0 <= Min(e / f.period, 1.0) <= 1.0;
    }
  }

  /** F12 switches between DepthOnly and Parallax, F11 (when F12 is not
      pressed) between RgbOnly and Parallax, and neither while any reset
      runs. */
  function ToggledShader(t: ShaderType, f12: bool, f11: bool, idle: bool): (r: ShaderType)
    ensures r != t ==> idle && (f12 || f11)
    ensures r == DepthOnly ==> t == DepthOnly || f12
    ensures r == RgbOnly ==> t == RgbOnly || (f11 && !f12)
  {

    if f12 then
      if idle then (if t != DepthOnly then DepthOnly else Parallax) else t
    else if f11 then
      if idle then (if t != RgbOnly then RgbOnly else Parallax) else t
    else t
  }

  lemma ToggleShaderBehaviour(t: ShaderType, f12: bool, f11: bool, idle: bool)
    ensures !idle || !(f12 || f11) ==> ToggledShader(t, f12, f11, idle) == t
    ensures idle && f12 ==> (ToggledShader(t, f12, f11, idle) == DepthOnly <==> t != DepthOnly)
    ensures idle && f12 ==> (ToggledShader(t, f12, f11, idle) == Parallax <==> t == DepthOnly)
    ensures idle && f11 && !f12 ==> (ToggledShader(t, f12, f11, idle) == RgbOnly <==> t != RgbOnly)
    ensures idle && f11 && !f12 ==> (ToggledShader(t, f12, f11, idle) == Parallax <==> t == RgbOnly)
    ensures f12 ==> ToggledShader(t, f12, f11, idle) == ToggledShader(t, f12, !f11, idle)
    ensures idle && (f12 || f11) ==> ToggledShader(ToggledShader(Parallax, f12, f11, idle), f12, f11, idle) == Parallax
  {
  }

  /** What reaches the shader when the screen is dirty: `_DeepestDepth`,
      `_StepLength` and `_ColorIntensity`. */
  datatype ShaderInputs = ShaderInputs(deepestDepth: real, stepLength: real, colorIntensity: real)

  class OutputScreen {
    /** `transform.localPosition.z`, `transform.localScale.x` and `depth`. */
    var position: real
    var scale: real
    var depth: real
    var colorIntensity: real
    var shaderType: ShaderType
    var dirty: bool
    var positionReset: ResetAnim
    var scaleReset: ResetAnim
    var depthReset: ResetAnim
    var fade: Fade
    /** Every event raised so far, in order. */
    var events: seq<ScreenEvent>

    predicate Valid()
      reads this
    {
      FadeValid(fade)
    }

    function Resetting(): bool
      reads this
    {
      positionReset.resetting || scaleReset.resetting || depthReset.resetting
    }

    constructor()
      ensures Valid()
      ensures position == PositionInitial && scale == ScaleInitial && depth == DepthInitial
      ensures colorIntensity == 1.0 && shaderType == Parallax && dirty && !Resetting()
      ensures !fade.fadeIn && !fade.fadeOut && events == []
    {
      position, scale, depth := PositionInitial, ScaleInitial, DepthInitial;
      colorIntensity := 1.0;
      shaderType := Parallax;
      dirty := true;
      positionReset := ResetAnim(false, 0.0, PositionInitial);
      scaleReset := ResetAnim(false, 0.0, ScaleInitial);
      depthReset := ResetAnim(false, 0.0, DepthInitial);
      fade := Fade(false, false, 0.0, 0.0);
      events := [];
    }

    /** The `Position`, `Scale` and `Depth` setters the controller uses to
        apply a screen configuration; only the depth marks the shader dirty. */
    method SetParams(p: real, s: real, d: real)
      modifies this
      ensures position == p && scale == s && depth == d && dirty
      ensures colorIntensity == old(colorIntensity) && shaderType == old(shaderType) && fade == old(fade)
      ensures positionReset == old(positionReset) && scaleReset == old(scaleReset) && depthReset == old(depthReset)
      ensures events == old(events)
    {
      position := p;
      scale := s;
      depth := d;
      dirty := true;
    }

    /** `OnWheel`: edits the parameter whose key is held (Z before S before
        D), clamped to its range, unless that parameter is resetting; the
        depth only with the parallax shader. Each edit raises its event. */
    method OnWheel(delta: real, held: Held)
      modifies this
      ensures var editZ := held.z && !positionReset.resetting;
        var editS := !held.z && held.s && !scaleReset.resetting;
        var editD := !held.z && !held.s && held.d && !depthReset.resetting && shaderType == Parallax;
        position == (if editZ then Clamp(old(position) - delta, PositionLower, PositionUpper) else old(position)) &&
        scale == (if editS then Clamp(old(scale) + delta, ScaleLower, ScaleUpper) else old(scale)) &&
        depth == (if editD then Clamp(old(depth) - delta, DepthLower, DepthUpper) else old(depth)) &&
        dirty == (old(dirty) || editD) &&
        events == old(events) + (if editZ then [PositionUpdated] else if editS then [ScaleUpdated]
                                 else if editD then [DepthUpdated] else [])
      ensures positionReset == old(positionReset) && scaleReset == old(scaleReset) && depthReset == old(depthReset)
      ensures colorIntensity == old(colorIntensity) && shaderType == old(shaderType) && fade == old(fade)
    {
      if held.z {
        if !positionReset.resetting {
          position := Clamp(position - delta, PositionLower, PositionUpper);
          events := events + [PositionUpdated];
        }
      } else if held.s {
        if !scaleReset.resetting {
          scale := Clamp(scale + delta, ScaleLower, ScaleUpper);
          events := events + [ScaleUpdated];
        }
      } else if held.d {
        if !depthReset.resetting && shaderType == Parallax {
          depth := Clamp(depth - delta, DepthLower, DepthUpper);
          dirty := true;
          events := events + [DepthUpdated];
        }
      }
    }

    /** `OnClick`: a double click with Z, S or D held starts that
        parameter's reset, unless it is already resetting (the depth only
        with the parallax shader). */
    method OnClick(clickCount: int, held: Held)
      modifies this
      ensures var startZ := clickCount == 2 && held.z && !old(positionReset.resetting);
        var startS := clickCount == 2 && !held.z && held.s && !old(scaleReset.resetting);
        var startD := clickCount == 2 && !held.z && !held.s && held.d && !old(depthReset.resetting) && shaderType == Parallax;
        positionReset == (if startZ then ResetAnim(true, 0.0, position) else old(positionReset)) &&
        scaleReset == (if startS then ResetAnim(true, 0.0, scale) else old(scaleReset)) &&
        depthReset == (if startD then ResetAnim(true, 0.0, depth) else old(depthReset))
      ensures position == old(position) && scale == old(scale) && depth == old(depth) && dirty == old(dirty)
      ensures colorIntensity == old(colorIntensity) && shaderType == old(shaderType) && fade == old(fade)
      ensures events == old(events)
    {
      if clickCount == 2 {
        if held.z {
          if !positionReset.resetting {
            positionReset := ResetAnim(true, 0.0, position);
          }
        } else if held.s {
          if !scaleReset.resetting {
            scaleReset := ResetAnim(true, 0.0, scale);
          }
        } else if held.d {
          if !depthReset.resetting && shaderType == Parallax {
            depthReset := ResetAnim(true, 0.0, depth);
          }
        }
      }
    }

    /** `FadeIn(period)`. */
    method FadeIn(period: real)
      requires period > 0.0
      modifies this
      ensures Valid() && fade == Fade(true, false, 0.0, period)
      ensures position == old(position) && scale == old(scale) && depth == old(depth) && dirty == old(dirty)
      ensures colorIntensity == old(colorIntensity) && shaderType == old(shaderType) && events == old(events)
      ensures positionReset == old(positionReset) && scaleReset == old(scaleReset) && depthReset == old(depthReset)
    {
      fade := Fade(true, false, 0.0, period);
    }

    /** `FadeOut(period)`. */
    method FadeOut(period: real)
      requires period > 0.0
      modifies this
      ensures Valid() && fade == Fade(false, true, 0.0, period)
      ensures position == old(position) && scale == old(scale) && depth == old(depth) && dirty == old(dirty)
      ensures colorIntensity == old(colorIntensity) && shaderType == old(shaderType) && events == old(events)
      ensures positionReset == old(positionReset) && scaleReset == old(scaleReset) && depthReset == old(depthReset)
    {
      fade := Fade(false, true, 0.0, period);
    }

    /** `Darken`: black at once, with any fade cancelled. */
    method Darken() returns (pushed: real)
      requires Valid()
      modifies this
      ensures Valid() && colorIntensity == 0.0 && !fade.fadeIn && !fade.fadeOut && dirty && pushed == 0.0
      ensures fade.elapsed == old(fade.elapsed) && fade.period == old(fade.period)
      ensures position == old(position) && scale == old(scale) && depth == old(depth)
      ensures shaderType == old(shaderType) && events == old(events)
      ensures positionReset == old(positionReset) && scaleReset == old(scaleReset) && depthReset == old(depthReset)
    {
      colorIntensity := 0.0;
      fade := fade.(fadeIn := false, fadeOut := false);
      dirty := true;
      pushed := colorIntensity;
    }

    /** The position reset of one frame. */
    method TickPosition(dt: real)
      modifies this
      ensures var (a, v, ended) := ResetStep(old(positionReset), dt, PositionInitial);
        positionReset == a && position == v.GetOr(old(position)) &&
        events == old(events) + (if ended then [PositionUpdated] else [])
      ensures scale == old(scale) && depth == old(depth) && dirty == old(dirty) && colorIntensity == old(colorIntensity)
      ensures shaderType == old(shaderType) && fade == old(fade)
      ensures scaleReset == old(scaleReset) && depthReset == old(depthReset)
    {
      positionReset := positionReset.(elapsed := positionReset.elapsed + dt);
      if positionReset.resetting {
        positionReset := positionReset.(resetting := positionReset.elapsed <= ResetAnimationPeriod);
        var ratio := Min(positionReset.elapsed / ResetAnimationPeriod, 1.0);
        position := Lerp(positionReset.from, PositionInitial, ratio);
        if !positionReset.resetting {
          events := events + [PositionUpdated];
        }
      }
    }

    /** The scale reset of one frame. */
    method TickScale(dt: real)
      modifies this
      ensures var (a, v, ended) := ResetStep(old(scaleReset), dt, ScaleInitial);
        scaleReset == a && scale == v.GetOr(old(scale)) &&
        events == old(events) + (if ended then [ScaleUpdated] else [])
      ensures position == old(position) && depth == old(depth) && dirty == old(dirty) && colorIntensity == old(colorIntensity)
      ensures shaderType == old(shaderType) && fade == old(fade)
      ensures positionReset == old(positionReset) && depthReset == old(depthReset)
    {
      scaleReset := scaleReset.(elapsed := scaleReset.elapsed + dt);
      if scaleReset.resetting {
        scaleReset := scaleReset.(resetting := scaleReset.elapsed <= ResetAnimationPeriod);
        var ratio := Min(scaleReset.elapsed / ResetAnimationPeriod, 1.0);
        scale := Lerp(scaleReset.from, ScaleInitial, ratio);
        if !scaleReset.resetting {
          events := events + [ScaleUpdated];
        }
      }
    }

    /** The depth reset of one frame; a running one marks the shader dirty. */
    method TickDepth(dt: real)
      modifies this
      ensures var (a, v, ended) := ResetStep(old(depthReset), dt, DepthInitial);
        depthReset == a && depth == v.GetOr(old(depth)) && dirty == (old(dirty) || v.Some?) &&
        events == old(events) + (if ended then [DepthUpdated] else [])
      ensures position == old(position) && scale == old(scale) && colorIntensity == old(colorIntensity)
      ensures shaderType == old(shaderType) && fade == old(fade)
      ensures positionReset == old(positionReset) && scaleReset == old(scaleReset)
    {
      depthReset := depthReset.(elapsed := depthReset.elapsed + dt);
      if depthReset.resetting {
        depthReset := depthReset.(resetting := depthReset.elapsed <= ResetAnimationPeriod);
        var ratio := Min(depthReset.elapsed / ResetAnimationPeriod, 1.0);
        depth := Lerp(depthReset.from, DepthInitial, ratio);
        dirty := true;
        if !depthReset.resetting {
          events := events + [DepthUpdated];
        }
      }
    }

    /** The fade of one frame; a running fade marks the shader dirty. */
    method TickFade(dt: real)
      requires Valid() && dt >= 0.0
      modifies this
      ensures Valid()
      ensures var (f, i) := FadeStep(old(fade), dt, old(colorIntensity));
        fade == f && colorIntensity == i && dirty == (old(dirty) || old(fade.fadeIn) || old(fade.fadeOut))
      ensures position == old(position) && scale == old(scale) && depth == old(depth)
      ensures shaderType == old(shaderType) && events == old(events)
      ensures positionReset == old(positionReset) && scaleReset == old(scaleReset) && depthReset == old(depthReset)
    {
      FadeStepBehaviour(fade, dt, colorIntensity);
      fade := fade.(elapsed := fade.elapsed + dt);
      if fade.fadeIn || fade.fadeOut {
        colorIntensity := Min(fade.elapsed / fade.period, 1.0);
        if fade.fadeOut {
          colorIntensity := 1.0 - colorIntensity;
        }
        fade := fade.(fadeIn := fade.fadeIn && fade.elapsed <= fade.period,
                      fadeOut := fade.fadeOut && fade.elapsed <= fade.period);
        dirty := true;
      }
    }

    /** The three reset animations of one frame, in the source's order. */
    method TickResets(dt: real)
      modifies this
      ensures var (a, v, ended) := ResetStep(old(positionReset), dt, PositionInitial);
        positionReset == a && position == v.GetOr(old(position))
      ensures var (a, v, ended) := ResetStep(old(scaleReset), dt, ScaleInitial);
        scaleReset == a && scale == v.GetOr(old(scale))
      ensures var (a, v, ended) := ResetStep(old(depthReset), dt, DepthInitial);
        depthReset == a && depth == v.GetOr(old(depth)) && dirty == (old(dirty) || v.Some?)
      ensures events == old(events)
        + (if ResetStep(old(positionReset), dt, PositionInitial).2 then [PositionUpdated] else [])
        + (if ResetStep(old(scaleReset), dt, ScaleInitial).2 then [ScaleUpdated] else [])
        + (if ResetStep(old(depthReset), dt, DepthInitial).2 then [DepthUpdated] else [])
      ensures colorIntensity == old(colorIntensity) && shaderType == old(shaderType) && fade == old(fade)
    {
      TickPosition(dt);
      TickScale(dt);
      TickDepth(dt);
    }

    /** The F12 / F11 toggle of `Update` (`Input.GetKeyDown`). */
    method ToggleShader(f12: bool, f11: bool)
      modifies this
      ensures shaderType == ToggledShader(old(shaderType), f12, f11, !Resetting())
      ensures position == old(position) && scale == old(scale) && depth == old(depth) && dirty == old(dirty)
      ensures colorIntensity == old(colorIntensity) && fade == old(fade) && events == old(events)
      ensures positionReset == old(positionReset) && scaleReset == old(scaleReset) && depthReset == old(depthReset)
    {
      if f12 {
        if !positionReset.resetting && !scaleReset.resetting && !depthReset.resetting {
          shaderType := if shaderType != DepthOnly then DepthOnly else Parallax;
        }
      } else if f11 {
        if !positionReset.resetting && !scaleReset.resetting && !depthReset.resetting {
          shaderType := if shaderType != RgbOnly then RgbOnly else Parallax;
        }
      }
    }

    /** `Update`: the three resets, the fade, the shader toggle, and the
        shader inputs pushed when anything changed them. */
    method Update(dt: real, f12: bool, f11: bool) returns (pushed: Option<ShaderInputs>)
      requires Valid() && dt >= 0.0
      modifies this
      ensures Valid() && !dirty
      ensures var (a, v, ended) := ResetStep(old(positionReset), dt, PositionInitial);
        positionReset == a && position == v.GetOr(old(position))
      ensures var (a, v, ended) := ResetStep(old(scaleReset), dt, ScaleInitial);
        scaleReset == a && scale == v.GetOr(old(scale))
      ensures var (a, v, ended) := ResetStep(old(depthReset), dt, DepthInitial);
        depthReset == a && depth == v.GetOr(old(depth))
      ensures var (f, i) := FadeStep(old(fade), dt, old(colorIntensity));
        fade == f && colorIntensity == i
      ensures shaderType == ToggledShader(old(shaderType), f12, f11, !Resetting())
      ensures events == old(events)
        + (if ResetStep(old(positionReset), dt, PositionInitial).2 then [PositionUpdated] else [])
        + (if ResetStep(old(scaleReset), dt, ScaleInitial).2 then [ScaleUpdated] else [])
        + (if ResetStep(old(depthReset), dt, DepthInitial).2 then [DepthUpdated] else [])
      ensures var changed := old(dirty) || old(depthReset.resetting) || old(fade.fadeIn) || old(fade.fadeOut);
        pushed == if changed then Some(ShaderInputs(depth, depth / DepthDivisor, colorIntensity)) else None
    {
      TickResets(dt);
      TickFade(dt);
      ToggleShader(f12, f11);
      pushed := if dirty then Some(ShaderInputs(depth, depth / DepthDivisor, colorIntensity)) else None;
      dirty := false;
    }
  }
}
