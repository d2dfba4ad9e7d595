/** The part of RgbdImageProvider shared by both image providers: the source
    settings whose setters mark the provider dirty, the reload that runs on
    the first frame after a change, the read-once error flag, and the
    animation clock that drives camera moves, the slideshow cycle and its
    fade-out. The concrete providers (FlatImage, PanoramaImage) own one of
    these and carry out the camera hooks it returns. */
module Provider {
  import opened Numeric
  import opened Optional
  import opened ProviderTypes

  /** Width and height of the shared RGB-D render texture. */
  const RgbdImageTextureWidth: nat := 2048
  const RgbdImageTextureHeight: nat := 2048

  /** Length of the double-click Current -> Initial camera animation. */
  const ResetAnimationPeriod: real := 0.5

  /** Size of a texture the loader produced from an image file. */
  datatype TextureSize = TextureSize(width: nat, height: nat)

  /** The source the provider shows: what its setters change. */
  datatype Settings = Settings(
    media: MediaType,
    arrangement: ImageArrangement,
    imagePath: string,
    rgbPath: string,
    depthPath: string,
    videoPath: string,
    orientation: ZAxisOrientation)

  /** The animation clock: the fields `Update` advances every frame. */
  datatype Clock = Clock(
    moving: bool,
    resting: bool,
    fading: bool,
    slideShow: bool,
    movingPeriod: real,
    elapsed: real,
    remaining: real,
    oneCyclePeriod: real,
    restPeriod: real,
    fadeOutPeriod: real)

  /** A running move always has a positive period to divide by, and a
      slideshow a positive cycle length for the moves it starts. */
  predicate ClockValid(c: Clock)
  {
    (c.moving ==> c.movingPeriod > 0.0) && (c.slideShow ==> c.oneCyclePeriod > 0.0)
  }

  /** The whole observable state of a provider. */
  datatype ProviderState = ProviderState(
    settings: Settings,
    clock: Clock,
    dirty: bool,
    play: bool,
    noError: bool,
    textureWidth: nat,
    textureHeight: nat,
    events: seq<ProviderEvent>)

  /** `ImageWidth`: the width of one of the two pictures packed in the texture. */
  function ImageWidth(a: ImageArrangement, textureWidth: nat): (r: nat)
    ensures r <= textureWidth
    ensures textureWidth > 0 ==> (r < textureWidth <==> a == LR || a == RL)
  {
    match a
    case LR => textureWidth / 2
    case RL => textureWidth / 2
    case TB => textureWidth
    case BT => textureWidth
    case Separate => textureWidth
  }

  /** `ImageHeight`: the height of one of the two pictures packed in the texture. */
  function ImageHeight(a: ImageArrangement, textureHeight: nat): (r: nat)
    ensures r <= textureHeight
    ensures textureHeight > 0 ==> (r < textureHeight <==> a == TB || a == BT)
  {
    match a
    case LR => textureHeight
    case RL => textureHeight
    case TB => textureHeight / 2
    case BT => textureHeight / 2
    case Separate => textureHeight
  }

  /** Side-by-side layouts halve the width, stacked layouts halve the height,
      and separate files halve neither; a dimension shrinks exactly when its
      axis is the one the two halves share. */
  lemma ImageDimensionsByArrangement(a: ImageArrangement, w: nat, h: nat)
    ensures ImageWidth(a, w) <= w && ImageHeight(a, h) <= h
    ensures (a == LR || a == RL) ==> 2 * ImageWidth(a, w) <= w <= 2 * ImageWidth(a, w) + 1
    ensures (a == TB || a == BT) ==> 2 * ImageHeight(a, h) <= h <= 2 * ImageHeight(a, h) + 1
    ensures w > 0 ==> (ImageWidth(a, w) < w <==> a == LR || a == RL)
    ensures h > 0 ==> (ImageHeight(a, h) < h <==> a == TB || a == BT)
    ensures ImageWidth(a, w) == w || ImageHeight(a, h) == h
  {
  }

  /** The ratio `Update` hands to `MoveCamera` before clamping: linear in the
      elapsed fraction, except for a slideshow video, which eases with
      `-0.5 * (cos(PI * x) - 1)`; `cosPi(x)` stands for `Mathf.Cos(Mathf.PI * x)`. */
  function MoveRatio(slideShow: bool, media: MediaType, elapsed: real, period: real, cosPi: real -> real): (r: real)
    requires period > 0.0
    ensures !(slideShow && media == Video) ==> (r >= 1.0 <==> elapsed >= period) && (elapsed >= 0.0 ==> r >= 0.0)
    ensures slideShow && media == Video && -1.0 <= cosPi(elapsed / period) <= 1.0 ==> 0.0 <= r <= 1.0
  {
    if !(slideShow && media == Video) then elapsed / period
    else -0.5 * (cosPi(elapsed / period) - 1.0)
  }

  /** What one `Update` frame does to the clock: the camera hook it calls and
      the events it raises, after `dt` seconds. */
  datatype Step = Step(clock: Clock, hook: CameraHook, events: seq<ProviderEvent>)

  /** The first part of a frame: the time passes, and a running move takes
      its next step (ending, outside a slideshow, once its period is over). */
  function MovePart(c: Clock, media: MediaType, dt: real, cosPi: real -> real): (r: (Clock, CameraHook))
    requires ClockValid(c)
    ensures ClockValid(r.0)
  {
    var e := c.elapsed + dt;
    var moving := if c.moving && !c.slideShow then e <= c.movingPeriod else c.moving;
    var hook := if c.moving then Move(Min(MoveRatio(c.slideShow, media, e, c.movingPeriod, cosPi), 1.0)) else NoHook;
    (c.(moving := moving, elapsed := e, remaining := c.remaining - dt), hook)
  }

  /** The cycle part of a slideshow frame, on the clock `MovePart` left: a
      finished move rests (videos) or stops (images), and a finished rest
      starts the next Current -> Random move. */
  function CyclePart(c: Clock, media: MediaType, hook: CameraHook): (r: (Clock, CameraHook))
    requires ClockValid(c) && c.slideShow
    ensures ClockValid(r.0)
  {
    if c.moving then
      if c.elapsed > c.movingPeriod then
        if media == Video then (c.(moving := false, resting := true, elapsed := 0.0), hook)
        else (c.(moving := false), hook)
      else (c, hook)
    else if c.resting && c.elapsed > c.restPeriod then
      (c.(resting := false, moving := true, movingPeriod := c.oneCyclePeriod, elapsed := 0.0), Prepare(Current, Random))
    else (c, hook)
  }

  /** The fade part of a slideshow frame: an image starts its fade-out once
      at most `fadeOutPeriod` is left, and a fading cycle whose time is
      overdrawn ends the slideshow. */
  function FadePart(c: Clock, media: MediaType): (r: (Clock, seq<ProviderEvent>))
    requires ClockValid(c)
    ensures ClockValid(r.0)
  {
    var fadeStart := media == Image && !c.fading && c.remaining <= c.fadeOutPeriod;
    var fading := c.fading || fadeStart;
    var ended := fading && c.remaining < 0.0;
    (c.(fading := fading, slideShow := c.slideShow && !ended),
     (if fadeStart then [StartFadeOut] else []) + (if ended then [OneCycleOfSlideShowEnded] else []))
  }

  /** The slideshow part of a frame. */
  function SlideShowPart(c: Clock, media: MediaType, hook: CameraHook): (r: Step)
    requires ClockValid(c) && c.slideShow
    ensures ClockValid(r.clock)
  {
    var (cycled, hook') := CyclePart(c, media, hook);
    var (faded, events) := FadePart(cycled, media);
    Step(faded, hook', events)
  }

  /** One frame of the animation clock (the part of `Update` after the reload). */
  function Advance(c: Clock, media: MediaType, dt: real, cosPi: real -> real): (r: Step)
    requires ClockValid(c)
    ensures ClockValid(r.clock)
  {
    var (moved, hook) := MovePart(c, media, dt, cosPi);
    if !c.slideShow then Step(moved, hook, []) else SlideShowPart(moved, media, hook)
  }

  /** The clock after `StartOneCycleOfSlideShow`: a slideshow move from a
      random pose to a random pose of `oneCyclePeriod`, with the fade-out
      countdown armed for images only. */
  function StartCycle(c: Clock, media: MediaType, oneCyclePeriod: real, restPeriod: real, fadeOutPeriod: real): (r: Clock)
    ensures oneCyclePeriod > 0.0 ==> ClockValid(r)
    ensures r.slideShow && r.moving && r.elapsed == 0.0 && r.movingPeriod == r.oneCyclePeriod == oneCyclePeriod
    ensures r.remaining > 0.0 <==> media == Image && oneCyclePeriod > 0.0
    ensures r.resting == c.resting && r.fading == c.fading
  {

    c.(slideShow := true, oneCyclePeriod := oneCyclePeriod, restPeriod := restPeriod,
       fadeOutPeriod := fadeOutPeriod, moving := true, movingPeriod := oneCyclePeriod,
       elapsed := 0.0, remaining := if media == Image then oneCyclePeriod else 0.0)
  }

  /** The clock after `InitState`: no move, rest, fade or slideshow. */
  function Stopped(c: Clock): (r: Clock)
    ensures !r.moving && !r.resting && !r.fading && !r.slideShow
    ensures ClockValid(r)
    ensures r.elapsed == c.elapsed && r.remaining == c.remaining && r.movingPeriod == c.movingPeriod
  {
    c.(moving := false, resting := false, fading := false, slideShow := false)
  }

  /** A camera move happens on exactly the frames that start moving, and the
      ratio it is given never exceeds 1. */
  lemma MoveRatioAtMostOne(c: Clock, media: MediaType, dt: real, cosPi: real -> real)
    requires ClockValid(c)
    ensures Advance(c, media, dt, cosPi).hook.Move? <==> c.moving
    ensures Advance(c, media, dt, cosPi).hook.Move? ==> Advance(c, media, dt, cosPi).hook.ratio <= 1.0
  {
  }

  /** Outside a slideshow a move continues while the elapsed time is within
      its period, and the frame that ends it moves the camera all the way
      (ratio exactly 1). */
  lemma ManualMoveEnds(c: Clock, media: MediaType, dt: real, cosPi: real -> real)
    requires ClockValid(c) && c.moving && !c.slideShow
    ensures var s := Advance(c, media, dt, cosPi);
      (s.clock.moving <==> c.elapsed + dt <= c.movingPeriod) &&
      (!s.clock.moving ==> s.hook == Move(1.0)) &&
      s.clock.elapsed == c.elapsed + dt && s.events == []
  {
    var e := c.elapsed + dt;
    if e > c.movingPeriod {
      QuotientAboveOne(e, c.movingPeriod);
    }
  }

  lemma QuotientAboveOne(e: real, p: real)
    requires 0.0 < p < e
    ensures e / p > 1.0
  {
    var q := e / p;
    assert (q - 1.0) * p == e - p;
  }

  /** A slideshow video rests once its move outlasts the period, restarting
      the elapsed time; after the rest it starts a new Current -> Random move
      of one cycle. */
  lemma VideoCycle(c: Clock, dt: real, cosPi: real -> real)
    requires ClockValid(c) && c.slideShow
    ensures var s := Advance(c, Video, dt, cosPi);
      (c.moving && c.elapsed + dt > c.movingPeriod ==>
        !s.clock.moving && s.clock.resting && s.clock.elapsed == 0.0) &&
      (c.moving && c.elapsed + dt <= c.movingPeriod ==>
        s.clock.moving && s.clock.elapsed == c.elapsed + dt) &&
      (!c.moving && c.resting && c.elapsed + dt > c.restPeriod ==>
        s.clock.moving && !s.clock.resting && s.clock.movingPeriod == c.oneCyclePeriod &&
        s.clock.elapsed == 0.0 && s.hook == Prepare(Current, Random)) &&
      (!c.moving && c.resting && c.elapsed + dt <= c.restPeriod ==>
        !s.clock.moving && s.clock.resting && s.hook == NoHook)
  {
  }

  /** An image never enters the rest phase of a slideshow. */
  lemma ImagesNeverRest(c: Clock, dt: real, cosPi: real -> real)
    requires ClockValid(c) && !c.resting
    ensures !Advance(c, Image, dt, cosPi).clock.resting
  {
  }

  /** The events of one frame: the fade-out starts on a slideshow image's
      first frame with at most `fadeOutPeriod` left, and the cycle ends (and
      the slideshow with it) exactly on a slideshow frame that is fading with
      the time overdrawn. */
  lemma FrameEvents(c: Clock, media: MediaType, dt: real, cosPi: real -> real)
    requires ClockValid(c)
    ensures var s := Advance(c, media, dt, cosPi);
      (StartFadeOut in s.events <==>
        c.slideShow && media == Image && !c.fading && c.remaining - dt <= c.fadeOutPeriod) &&
      (OneCycleOfSlideShowEnded in s.events <==> c.slideShow && !s.clock.slideShow) &&
      (OneCycleOfSlideShowEnded in s.events <==> c.slideShow && s.clock.fading && s.clock.remaining < 0.0) &&
      (StartFadeIn !in s.events) &&
      (s.clock.fading <==> c.fading || StartFadeOut in s.events) &&
      (s.clock.slideShow ==> c.slideShow) &&
      s.clock.remaining == c.remaining - dt &&
      multiset(s.events)[StartFadeOut] <= 1 && multiset(s.events)[OneCycleOfSlideShowEnded] <= 1
  {
    var m := MovePart(c, media, dt, cosPi);
    assert m.0.remaining == c.remaining - dt && m.0.fading == c.fading && m.0.slideShow == c.slideShow;
    if c.slideShow {
      SlideShowEvents(m.0, media, m.1);
    }
  }

  /** The same facts about the slideshow part of a frame. */
  lemma SlideShowEvents(c: Clock, media: MediaType, hook: CameraHook)
    requires ClockValid(c) && c.slideShow
    ensures var s := SlideShowPart(c, media, hook);
      (StartFadeOut in s.events <==> media == Image && !c.fading && c.remaining <= c.fadeOutPeriod) &&
      (OneCycleOfSlideShowEnded in s.events <==> !s.clock.slideShow) &&
      (OneCycleOfSlideShowEnded in s.events <==> s.clock.fading && s.clock.remaining < 0.0) &&
      (StartFadeIn !in s.events) &&
      (s.clock.fading <==> c.fading || StartFadeOut in s.events) &&
      s.clock.remaining == c.remaining &&
      multiset(s.events)[StartFadeOut] <= 1 && multiset(s.events)[OneCycleOfSlideShowEnded] <= 1
  {
    var cycled := CyclePart(c, media, hook).0;
    assert cycled.fading == c.fading && cycled.remaining == c.remaining && cycled.fadeOutPeriod == c.fadeOutPeriod;
    FadeEvents(cycled, media);
  }

  lemma FadeEvents(c: Clock, media: MediaType)
    requires ClockValid(c) && c.slideShow
    ensures var (faded, events) := FadePart(c, media);
      (StartFadeOut in events <==> media == Image && !c.fading && c.remaining <= c.fadeOutPeriod) &&
      (OneCycleOfSlideShowEnded in events <==> !faded.slideShow) &&
      (OneCycleOfSlideShowEnded in events <==> faded.fading && faded.remaining < 0.0) &&
      (StartFadeIn !in events) &&
      (faded.fading <==> c.fading || StartFadeOut in events) &&
      faded.remaining == c.remaining &&
      multiset(events)[StartFadeOut] <= 1 && multiset(events)[OneCycleOfSlideShowEnded] <= 1
  {
  }

  /** Final clock and all events of a run of frames. */
  datatype Trace = Trace(clock: Clock, events: seq<ProviderEvent>)

  function Run(c: Clock, media: MediaType, dts: seq<real>, cosPi: real -> real): (r: Trace)
    requires ClockValid(c)
    ensures ClockValid(r.clock)
    decreases |dts|
  {
    if dts == [] then Trace(c, [])
    else
      var s := Advance(c, media, dts[0], cosPi);
      var t := Run(s.clock, media, dts[1..], cosPi);
      Trace(t.clock, s.events + t.events)
  }

  function Sum(dts: seq<real>): (r: real)
    decreases |dts|
  {
    if dts == [] then 0.0 else dts[0] + Sum(dts[1..])
  }

  /** The countdown runs down by the time that passes, whatever happens. */
  lemma {:induction false} RemainingTracksTime(c: Clock, media: MediaType, dts: seq<real>, cosPi: real -> real)
    requires ClockValid(c)
    ensures Run(c, media, dts, cosPi).clock.remaining == c.remaining - Sum(dts)
    decreases |dts|
  {
    if dts != [] {
      FrameEvents(c, media, dts[0], cosPi);
      RemainingTracksTime(Advance(c, media, dts[0], cosPi).clock, media, dts[1..], cosPi);
    }
  }

  /** Over any run, the fade-out starts at most once (never if it was already
      fading or no slideshow was running), the cycle ends at most once (never
      outside a slideshow), and nothing follows the end of the slideshow. */
  lemma {:induction false} EventsAtMostOnce(c: Clock, media: MediaType, dts: seq<real>, cosPi: real -> real)
    requires ClockValid(c)
    ensures var t := Run(c, media, dts, cosPi);
      multiset(t.events)[StartFadeOut] <= (if c.fading || !c.slideShow then 0 else 1) &&
      multiset(t.events)[OneCycleOfSlideShowEnded] <= (if c.slideShow then 1 else 0) &&
      StartFadeIn !in t.events &&
      (t.clock.slideShow ==> c.slideShow) &&
      (c.fading ==> t.clock.fading)
    decreases |dts|
  {
    if dts != [] {
      var s := Advance(c, media, dts[0], cosPi);
      FrameEvents(c, media, dts[0], cosPi);
      EventsAtMostOnce(s.clock, media, dts[1..], cosPi);
      var t := Run(s.clock, media, dts[1..], cosPi);
      assert Run(c, media, dts, cosPi).events == s.events + t.events;
      assert multiset(s.events + t.events) == multiset(s.events) + multiset(t.events);
    }
  }

  /** The first frames of an image slideshow of 8 s with a 2 s fade-out, at
      2 s a frame: the fade-out starts on the third frame (6 s in), with 2 s
      left. */
  lemma FadeOutOnThirdFrame(c: Clock, cosPi: real -> real)
    requires !c.fading
    ensures var start := StartCycle(c, Image, 8.0, 0.2, 2.0);
      ClockValid(start) &&
      Run(start, Image, [2.0, 2.0], cosPi).events == [] &&
      Run(start, Image, [2.0, 2.0, 2.0], cosPi).events == [StartFadeOut]
  {
    var start := StartCycle(c, Image, 8.0, 0.2, 2.0);
    var s1 := Advance(start, Image, 2.0, cosPi);
    assert s1.events == [] && s1.clock.remaining == 6.0 && !s1.clock.fading && s1.clock.slideShow;
    var s2 := Advance(s1.clock, Image, 2.0, cosPi);
    assert s2.events == [] && s2.clock.remaining == 4.0 && !s2.clock.fading && s2.clock.slideShow;
    var s3 := Advance(s2.clock, Image, 2.0, cosPi);
    assert s3.events == [StartFadeOut];
    assert [2.0, 2.0][1..] == [2.0];
    assert [2.0, 2.0, 2.0][1..] == [2.0, 2.0];
    assert [2.0][1..] == [];
  }

  /** Continuing that slideshow: at exactly 8 s nothing is overdrawn yet; the
      cycle ends on the first frame past the period (10 s in). */
  lemma EndsOnFirstFramePastPeriod(c: Clock, cosPi: real -> real)
    requires ClockValid(c) && c.fading && c.slideShow && c.remaining == 2.0 && !c.moving && !c.resting
    ensures Run(c, Image, [2.0], cosPi).events == []
    ensures Run(c, Image, [2.0, 2.0], cosPi).events == [OneCycleOfSlideShowEnded]
    ensures !Run(c, Image, [2.0, 2.0], cosPi).clock.slideShow
  {
    var s1 := Advance(c, Image, 2.0, cosPi);
    assert s1.events == [] && s1.clock.remaining == 0.0 && s1.clock.fading && s1.clock.slideShow;
    var s2 := Advance(s1.clock, Image, 2.0, cosPi);
    assert s2.events == [OneCycleOfSlideShowEnded];
    assert [2.0, 2.0][1..] == [2.0];
    assert [2.0][1..] == [];
  }

  /** The provider. The source keeps the settings and the clock as separate
      private fields; here each group is one field of the datatypes above. */
  class RgbdImageProvider {
    var settings: Settings
    var clock: Clock
    var dirty: bool
    var play: bool
    var noError: bool
    var textureWidth: nat
    var textureHeight: nat
    /** Every event raised so far, in order. */
    var events: seq<ProviderEvent>

    function State(): ProviderState
      reads this
    {
      ProviderState(settings, clock, dirty, play, noError, textureWidth, textureHeight, events)
    }

    predicate Valid()
      reads this
    {
      ClockValid(clock)
    }

    /** Everything but the clock and the event log is as it was. */
    twostate predicate SetupUnchanged()
      reads this
    {
      settings == old(settings) && dirty == old(dirty) && play == old(play) && noError == old(noError) &&
      textureWidth == old(textureWidth) && textureHeight == old(textureHeight)
    }

    /** `ImageWidth` and `ImageHeight` of the current source. */
    function Width(): nat
      reads this
    {
      ImageWidth(settings.arrangement, textureWidth)
    }

    function Height(): nat
      reads this
    {
      ImageHeight(settings.arrangement, textureHeight)
    }

    constructor()
      ensures Valid()
      ensures settings == Settings(Image, LR, "", "", "", "", FrontPositive)
      ensures clock == Clock(false, false, false, false, 0.0, 0.0, 0.0, 0.0, 0.0, 0.0)
      ensures !dirty && !play && noError && textureWidth == 0 && textureHeight == 0 && events == []
    {
      settings := Settings(Image, LR, "", "", "", "", FrontPositive);
      clock := Clock(false, false, false, false, 0.0, 0.0, 0.0, 0.0, 0.0, 0.0);
      dirty, play, noError := false, false, true;
      textureWidth, textureHeight := 0, 0;
      events := [];
    }

    /** `SourceMediaType = m`. */
    method SetMedia(m: MediaType)
      modifies this
      ensures State() == old(State()).(settings := old(settings).(media := m), dirty := true)
    {
      settings := settings.(media := m);
      dirty := true;
    }

    /** `SourceImageArrangement = a`. */
    method SetArrangement(a: ImageArrangement)
      modifies this
      ensures State() == old(State()).(settings := old(settings).(arrangement := a), dirty := true)
    {
      settings := settings.(arrangement := a);
      dirty := true;
    }

    /** `ImageFilePath = p`. */
    method SetImagePath(p: string)
      modifies this
      ensures State() == old(State()).(settings := old(settings).(imagePath := p), dirty := true)
    {
      settings := settings.(imagePath := p);
      dirty := true;
    }

    /** `RgbImageFilePath = p`. */
    method SetRgbPath(p: string)
      modifies this
      ensures State() == old(State()).(settings := old(settings).(rgbPath := p), dirty := true)
    {
      settings := settings.(rgbPath := p);
      dirty := true;
    }

    /** `DepthImageFilePath = p`. */
    method SetDepthPath(p: string)
      modifies this
      ensures State() == old(State()).(settings := old(settings).(depthPath := p), dirty := true)
    {
      settings := settings.(depthPath := p);
      dirty := true;
    }

    /** `VideoFilePath = p`: also arms playback, which nothing disarms. */
    method SetVideoPath(p: string)
      modifies this
      ensures State() == old(State()).(settings := old(settings).(videoPath := p), dirty := true, play := true)
    {
      settings := settings.(videoPath := p);
      dirty := true;
      play := true;
    }

    /** `DepthOrientation = o`. */
    method SetOrientation(o: ZAxisOrientation)
      modifies this
      ensures State() == old(State()).(settings := old(settings).(orientation := o), dirty := true)
    {
      settings := settings.(orientation := o);
      dirty := true;
    }

    /** `NoError`: reading the flag reports whether anything failed since the
        last read, and clears the failure. */
    method ReadNoError() returns (ok: bool)
      modifies this
      ensures ok == old(noError)
      ensures State() == old(State()).(noError := true)
    {
      ok := noError;
      noError := true;
    }

    /** The reload `Update` performs while dirty: an image (or, for the
        separate arrangement, both the RGB and the depth file) is loaded with
        `load`, the texture size taken from the loaded picture, and `noError`
        says whether every load succeeded; a video is handed to the player
        (`prepare`) once playback is armed. `shown` reports the call of
        `OnSetTextureToShader`. Images always announce a fade-in. */
    method Reload(load: string -> Option<TextureSize>) returns (shown: bool, prepare: Option<string>)
      modifies this
      ensures settings == old(settings) && clock == old(clock) && dirty == old(dirty) && play == old(play)
      ensures var s := settings;
        s.media == Image ==>
          (noError <==> if s.arrangement == Separate then load(s.rgbPath).Some? && load(s.depthPath).Some?
                        else load(s.imagePath).Some?) &&
          shown == noError && prepare == None && events == old(events) + [StartFadeIn]
      ensures var s := settings; var t := if s.arrangement == Separate then load(s.rgbPath) else load(s.imagePath);
        s.media == Image ==>
          textureWidth == (if t.Some? then t.value.width else 0) &&
          textureHeight == (if t.Some? then t.value.height else 0)
      ensures settings.media == Video ==>
        noError && textureWidth == 0 && textureHeight == 0 && !shown &&
        prepare == (if play then Some(settings.videoPath) else None) && events == old(events)
    {
      noError := true;
      textureWidth, textureHeight := 0, 0;
      shown, prepare := false, None;
      if settings.media == Image {
        if settings.arrangement != Separate {
          var t := load(settings.imagePath);
          if t.Some? {
            textureWidth, textureHeight := t.value.width, t.value.height;
          } else {
            noError := false;
          }
        } else {
          var rgb := load(settings.rgbPath);
          if rgb.Some? {
            textureWidth, textureHeight := rgb.value.width, rgb.value.height;
          } else {
            noError := false;
          }
          var depth := load(settings.depthPath);
          if depth.None? {
            noError := false;
          }
        }
        if noError {
          shown := true;
        }
      } else {
        if play {
          prepare := Some(settings.videoPath);
        }
      }
      if settings.media == Image {
        events := events + [StartFadeIn];
      }
    }

    /** The clock part of `Update`: one frame of `dt` seconds, as `Advance` says. */
    method Tick(dt: real, cosPi: real -> real) returns (hook: CameraHook)
      requires Valid()
      modifies this
      ensures Valid()
      ensures SetupUnchanged()
      ensures var s := Advance(old(clock), settings.media, dt, cosPi);
        clock == s.clock && events == old(events) + s.events && hook == s.hook
    {
      hook := MoveStep(dt, cosPi);
      if clock.slideShow {
        hook := SlideShowStep(hook);
      }
    }

    /** The time passes and a running move takes its step. */
    method MoveStep(dt: real, cosPi: real -> real) returns (hook: CameraHook)
      requires Valid()
      modifies this
      ensures Valid()
      ensures SetupUnchanged() && events == old(events)
      ensures var m := MovePart(old(clock), settings.media, dt, cosPi);
        clock == m.0 && hook == m.1
    {
      var c := clock;
      c := c.(elapsed := c.elapsed + dt, remaining := c.remaining - dt);
      hook := NoHook;
      if c.moving {
        if !c.slideShow {
          c := c.(moving := c.elapsed <= c.movingPeriod);
        }
        var ratio := MoveRatio(c.slideShow, settings.media, c.elapsed, c.movingPeriod, cosPi);
        hook := Move(Min(ratio, 1.0));
      }
      clock := c;
    }

    /** The slideshow bookkeeping of a frame, after the move step. */
    method SlideShowStep(hook: CameraHook) returns (hook': CameraHook)
      requires Valid() && clock.slideShow
      modifies this
      ensures Valid()
      ensures SetupUnchanged()
      ensures var s := SlideShowPart(old(clock), settings.media, hook);
        clock == s.clock && events == old(events) + s.events && hook' == s.hook
    {
      hook' := CycleStep(hook);
      FadeStep();
    }

    /** A finished move rests or stops; a finished rest starts the next move. */
    method CycleStep(hook: CameraHook) returns (hook': CameraHook)
      requires Valid() && clock.slideShow
      modifies this
      ensures Valid()
      ensures SetupUnchanged() && events == old(events)
      ensures var r := CyclePart(old(clock), settings.media, hook);
        clock == r.0 && hook' == r.1
    {
      var c := clock;
      hook' := hook;
      if c.moving {
        if c.elapsed > c.movingPeriod {
          c := c.(moving := false);
          if settings.media == Video {
            c := c.(resting := true, elapsed := 0.0);
          }
        }
      } else if c.resting {
        if c.elapsed > c.restPeriod {
          c := c.(resting := false);
          hook' := Prepare(Current, Random);
          c := c.(moving := true, movingPeriod := c.oneCyclePeriod, elapsed := 0.0);
        }
      }
      clock := c;
    }

    /** The fade-out starts, and the cycle ends once its time is overdrawn. */
    method FadeStep()
      requires Valid()
      modifies this
      ensures Valid()
      ensures SetupUnchanged()
      ensures clock == FadePart(old(clock), settings.media).0
      ensures events == old(events) + FadePart(old(clock), settings.media).1
    {
      var c := clock;
      var start: seq<ProviderEvent> := [];
      var end: seq<ProviderEvent> := [];
      if settings.media == Image && !c.fading && c.remaining <= c.fadeOutPeriod {
        c := c.(fading := true);
        start := [StartFadeOut];
      }
      if c.fading && c.remaining < 0.0 {
        c := c.(slideShow := false);
        end := [OneCycleOfSlideShowEnded];
      }
      assert (c, start + end) == FadePart(clock, settings.media);
      clock := c;
      events := events + (start + end);
    }

    /** `Update`: reload if a setter ran since the last frame, then advance
        the clock. */
    method Update(dt: real, load: string -> Option<TextureSize>, cosPi: real -> real)
      returns (hook: CameraHook, shown: bool, prepare: Option<string>)
      requires Valid()
      modifies this
      ensures Valid() && !dirty
      ensures settings == old(settings) && play == old(play)
      ensures var s := Advance(old(clock), settings.media, dt, cosPi);
        clock == s.clock && hook == s.hook &&
        events == old(events) + (if old(dirty) && settings.media == Image then [StartFadeIn] else []) + s.events
      ensures !old(dirty) ==>
        !shown && prepare == None && noError == old(noError) &&
        textureWidth == old(textureWidth) && textureHeight == old(textureHeight)
      ensures var s := settings;
        old(dirty) && s.media == Image ==>
          (noError <==> if s.arrangement == Separate then load(s.rgbPath).Some? && load(s.depthPath).Some?
                        else load(s.imagePath).Some?) && shown == noError && prepare == None
      ensures var s := settings; var t := if s.arrangement == Separate then load(s.rgbPath) else load(s.imagePath);
        old(dirty) && s.media == Image ==>
          textureWidth == (if t.Some? then t.value.width else 0) &&
          textureHeight == (if t.Some? then t.value.height else 0)
      ensures old(dirty) && settings.media == Video ==>
        noError && textureWidth == 0 && textureHeight == 0 && !shown &&
        prepare == (if play then Some(settings.videoPath) else None)
    {
      if dirty {
        shown, prepare := Reload(load);
      } else {
        shown, prepare := false, None;
      }
      dirty := false;
      hook := Tick(dt, cosPi);
    }

    /** `OnClick`: a double click outside a slideshow and while the camera is
        still starts the 0.5 s animation back to the initial pose; any other
        click changes nothing. */
    method OnClick(clickCount: int) returns (hook: CameraHook)
      modifies this
      ensures clickCount == 2 && !old(clock.slideShow) && !old(clock.moving) ==>
        hook == Prepare(Current, Initial) &&
        State() == old(State()).(clock := old(clock).(moving := true, movingPeriod := ResetAnimationPeriod, elapsed := 0.0))
      ensures !(clickCount == 2 && !old(clock.slideShow) && !old(clock.moving)) ==> hook == NoHook && State() == old(State())
      ensures old(Valid()) ==> Valid()
    {
      hook := NoHook;
      if clickCount == 2 && !clock.slideShow && !clock.moving {
        hook := Prepare(Current, Initial);
        clock := clock.(moving := true, movingPeriod := ResetAnimationPeriod, elapsed := 0.0);
      }
    }

    /** `InitState`: resets the camera and stops every animation. */
    method InitState() returns (hook: CameraHook)
      modifies this
      ensures hook == Reset
      ensures State() == old(State()).(clock := Stopped(old(clock)))
      ensures Valid()
    {
      hook := Reset;
      clock := clock.(moving := false, resting := false, fading := false, slideShow := false);
    }

    /** `StartOneCycleOfSlideShow`: one cycle of `oneCyclePeriod` seconds
        starting with a Random -> Random camera move; images count down to
        their fade-out, videos fade at their loop point. */
    method StartOneCycleOfSlideShow(oneCyclePeriod: real, restPeriod: real, fadeOutPeriod: real) returns (hook: CameraHook)
      requires oneCyclePeriod > 0.0
      modifies this
      ensures hook == Prepare(Random, Random)
      ensures State() == old(State()).(clock := StartCycle(old(clock), settings.media, oneCyclePeriod, restPeriod, fadeOutPeriod))
      ensures Valid()
      ensures clock.slideShow && clock.moving && clock.elapsed == 0.0 && clock.movingPeriod == oneCyclePeriod
      ensures clock.remaining == if settings.media == Image then oneCyclePeriod else 0.0
    {
      clock := clock.(slideShow := true, oneCyclePeriod := oneCyclePeriod, restPeriod := restPeriod,
                      fadeOutPeriod := fadeOutPeriod);
      hook := Prepare(Random, Random);
      clock := clock.(moving := true, movingPeriod := oneCyclePeriod, elapsed := 0.0,
                      remaining := if settings.media == Image then oneCyclePeriod else 0.0);
    }

    /** The video player's loop point: during a slideshow that is not fading
        yet it starts the fade-out with the fade-out period left. */
    method OnLoopPointReached()
      modifies this
      ensures old(clock.slideShow) && !old(clock.fading) ==>
        State() == old(State()).(clock := old(clock).(fading := true, remaining := old(clock.fadeOutPeriod)),
                                 events := old(events) + [StartFadeOut])
      ensures !(old(clock.slideShow) && !old(clock.fading)) ==> State() == old(State())
      ensures old(Valid()) ==> Valid()
    {
      if clock.slideShow && !clock.fading {
        clock := clock.(fading := true, remaining := clock.fadeOutPeriod);
        events := events + [StartFadeOut];
      }
    }

    /** The video player's error notification. */
    method OnErrorReceived()
      modifies this
      ensures State() == old(State()).(noError := false)
    {
      noError := false;
    }

    /** The player finished preparing: the texture takes the video's size and
        the fade-in starts. */
    method OnPrepareCompleted(size: TextureSize)
      modifies this
      ensures State() == old(State()).(textureWidth := size.width, textureHeight := size.height,
                                       events := old(events) + [StartFadeIn])
    {
      textureWidth, textureHeight := size.width, size.height;
      events := events + [StartFadeIn];
    }
  }
}
