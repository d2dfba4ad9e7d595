/** MainController: owns the two image providers and the output screen,
    keeps the catalogue of exhibits, and turns files, keys and provider
    events into presentations. Exactly one provider is active; the other
    keeps its state. Every presentation is proved against `PresentOutcome`,
    and every configuration write-back against `LayoutWritten` and
    `ScreenWritten`. */
module Controller {
  import opened Optional
  import opened Numeric
  import opened Text
  import opened ProviderTypes
  import opened Provider
  import opened LayoutCodec
  import opened Exhibits
  import opened MediaFiles
  import opened Presentation
  import ScreenCodec
  import FlatImage
  import PanoramaImage
  import PanoramaCamera
  import Screen

  /** The draws a camera hook that resets the view does not use. */
  const NoDraw := Draw(0.0, 0.0, 0.0)

  /** The two draws of `Random.Range` a slideshow cycle's first move uses. */
  datatype Draws = Draws(from: Draw, to: Draw) {
    predicate Valid()
    {
      from.Valid() && to.Valid()
    }
  }

  /** No animation of the provider clock is running. */
  predicate Idle(c: Clock)
  {
    !c.moving && !c.resting && !c.fading && !c.slideShow
  }

  /** The clock just after `StartOneCycleOfSlideShow(8, 0.2, 2)`. */
  predicate CycleStarted(c: Clock, media: MediaType)
  {
    && c.slideShow && c.moving && c.elapsed == 0.0 && c.movingPeriod == SlideShowOneCyclePeriod
    && c.remaining == (if media == Image then SlideShowOneCyclePeriod else 0.0)
  }

  /** The range `ChangeSourceImageProjection` gives the panorama camera. */
  function RangeFor(p: Projection): PanoramaCamera.Range
  {
    if p == EquirectangularHalf then PanoramaCamera.Half else PanoramaCamera.Full
  }

  /** The files a drop presents (`OnDroppedFiles`): one file through
      `Present(string)`, several as they are. */
  ghost function DropSelection(files: seq<string>, fileExists: string -> bool): seq<string>
  {
    if |files| == 1 then DroppedFiles(files[0], fileExists) else files
  }

  /** The files `RemovePresentingExhibit(presentStartImage)` presents once
      the record `p` is gone: the record before it in its new place, or the
      start image when there is none or `presentStartImage` is set. */
  ghost function RemovalFiles(exhibits: seq<Record>, p: Presenting, presentStartImage: bool, startImage: string): seq<string>
    requires |exhibits| > 0 && PresentingIn(exhibits, p)
  {
    var after, k := AfterRemoval(exhibits, p), PredecessorAfterRemoval(|exhibits|, p);
    if !presentStartImage && k >= 0 then FilesOfRecord(after, k) else [startImage]
  }

  /** Z, S or D held: the wheel and clicks edit the screen. */
  predicate ScreenHeld(held: Screen.Held)
  {
    held.z || held.s || held.d
  }

  /** A mouse move `Update` reacts to: more than 1e-8 along either axis. */
  predicate Moved(dx: real, dy: real)
  {
    dx > 0.00000001 || dx < -0.00000001 || dy > 0.00000001 || dy < -0.00000001
  }

  /** One of the six bundled photographs `Start` catalogues when the stored
      catalogue is empty: a 180-degree side-by-side image with no screen
      string yet. */
  function Bundled(assets: string, n: string): Record
  {
    [assets + "/Images/Fuyu" + n + "_180LR.jpg", "180LR", ""]
  }

  /** The catalogue `Start` works with: the stored one, or the six bundled
      photographs when it is empty. */
  function StartingCatalogue(stored: seq<Record>, assets: string): (r: seq<Record>)
    ensures |stored| == 0 ==> |r| == 6
    ensures |stored| > 0 ==> r == stored
  {
    if |stored| > 0 then stored
    else [Bundled(assets, "1"), Bundled(assets, "2"), Bundled(assets, "3"),
          Bundled(assets, "4"), Bundled(assets, "5"), Bundled(assets, "6")]
  }

  /** The bundled layout string: the half panorama, side by side with the
      left half RGB, the depth pointing forward. */
  lemma BundledLayout(hint: ImageArrangement)
    requires hint != Separate
    ensures DecodeLayout("180LR", hint) == Some(Layout(EquirectangularHalf, LR, FrontPositive))
  {
    var l := Layout(EquirectangularHalf, LR, FrontPositive);
    assert EncodeLayout(l) == "180LR";
    LayoutRoundTrip(l);
    assert MatchArrangement("180LR", hint) == MatchArrangement("180LR", LR);
  }

  /** The starting catalogue is well formed; a bundled record is presented
      as its one file, with the bundled layout. */
  lemma BundledCatalogue(stored: seq<Record>, assets: string, hint: ImageArrangement)
    requires WellFormed(stored) && hint != Separate
    ensures var r := StartingCatalogue(stored, assets);
      && WellFormed(r)
      && (|stored| == 0 ==> forall i :: 0 <= i < 6 ==>
            && FilesOfRecord(r, i) == [r[i][0]]
            && DecodeLayout(r[i][1], hint) == Some(Layout(EquirectangularHalf, LR, FrontPositive)))
  {
    var r := StartingCatalogue(stored, assets);
    if |stored| == 0 {
      forall i | 0 <= i < 6
        ensures |r[i]| == 3 && r[i][1] == "180LR"
      {
        assert r[i] == Bundled(assets, [['1', '2', '3', '4', '5', '6'][i]]);
      }
      BundledLayout(hint);
    }
  }

  /** What one frame of `Update` reads from the keyboard, the mouse and
      the game-pad buttons. The mouse delta replaces the source's
      `previousMousePosition` bookkeeping. */
  datatype Input = Input(
    dt: real,
    /** Space or the circle button. */
    startKey: bool,
    /** Space, Escape, an arrow, a mouse button or any game-pad button. */
    stopKey: bool,
    /** The left button went down, went up, is down. */
    down: bool, up: bool, pressed: bool,
    /** Shift or Control is held. */
    modifier: bool,
    held: Screen.Held,
    dx: real, dy: real,
    /** The panorama camera's Euler angles (see `PanoramaCamera.InsideCamera.OnDrag`). */
    eulerX: real, eulerY: real, rollKept: bool,
    wheel: real,
    f1: bool, f2: bool, f3: bool, f4: bool,
    /** Left arrow or button, right arrow or button, Delete, Escape or the square button. */
    prev: bool, next: bool, delete: bool, home: bool)
  {
    /** Of F1 to F4, the arrows, Delete and Escape, `k` alone went down. */
    predicate Only(k: Key)
    {
      && f1 == (k == F1) && f2 == (k == F2) && f3 == (k == F3) && f4 == (k == F4)
      && prev == (k == Prev) && next == (k == Next) && delete == (k == Delete) && home == (k == Home)
    }

    predicate NoParameterKey()
    {
      !f1 && !f2 && !f3 && !f4
    }

    predicate NoNavigationKey()
    {
      !prev && !next && !delete && !home
    }
  }

  /** The keys `Update` reads after the mouse, in the order it reads them. */
  datatype Key = F1 | F2 | F3 | F4 | Prev | Next | Delete | Home

  class MainController {
    const equirect: PanoramaImage.EquirectangularImage
    const rect: FlatImage.RectangularImage
    const screen: Screen.OutputScreen
    /** `startImageFilePath`. */
    const startImage: string
    /** `ToString("0.00")` and `float.TryParse`. */
    const fmt: real -> string
    const parse: string -> Option<real>

    /** Whether `rgbdImageProvider` is the rectangular provider. */
    var rectangularActive: bool
    /** `defaults.Exhibits`. */
    var exhibits: seq<Record>
    /** `presentingExhibit`. */
    var presenting: Presenting
    var droppedExhibit: bool
    var slideShow: bool
    /** `elapsedTime`, `buttonDowned`, `clickCount`. */
    var clicks: Clicks
    /** `tiltOutputScreen`. */
    var tilt: bool

    ghost predicate Valid()
      reads this, equirect, equirect.core, equirect.camera, rect, rect.core, screen
    {
      && equirect.Valid() && rect.Valid() && screen.Valid()
      && equirect.core != rect.core
      && WellFormed(exhibits) && PresentingIn(exhibits, presenting)
      && (!presenting.NoExhibit? ==> |RecordOf(exhibits, presenting)| >= 3)
    }

    /** The controller's own fields other than the active provider. */
    twostate predicate BookkeepingUnchanged()
      reads this
    {
      && exhibits == old(exhibits) && presenting == old(presenting) && droppedExhibit == old(droppedExhibit)
      && slideShow == old(slideShow) && clicks == old(clicks) && tilt == old(tilt)
    }

    /** `rgbdImageProvider`'s shared core. */
    function ActiveCore(): RgbdImageProvider
      reads this
    {
      if rectangularActive then rect.core else equirect.core
    }

    /** The provider core a projection selects. */
    function CoreFor(p: Projection): RgbdImageProvider
    {
      if p == Rectangular then rect.core else equirect.core
    }

    /** The projection `UpdateConfig1` writes: the active provider and,
        for the panorama, its camera's range. */
    function ActiveProjection(): (r: Projection)
      reads this, equirect.camera
      ensures r == Rectangular <==> rectangularActive
      ensures r == EquirectangularHalf <==> !rectangularActive && equirect.camera.horizontalRange == PanoramaCamera.Half
    {
      if rectangularActive then Rectangular
      else if equirect.camera.horizontalRange == PanoramaCamera.Half then EquirectangularHalf
      else EquirectangularFull
    }

    function CurrentLayout(): Layout
      reads this, rect.core, equirect.core, equirect.camera
    {
      Layout(ActiveProjection(), ActiveCore().settings.arrangement, ActiveCore().settings.orientation)
    }

    function ScreenNow(): ScreenCodec.ScreenParams
      reads screen
    {
      ScreenCodec.ScreenParams(screen.position, screen.scale, screen.depth)
    }

    /** What a presentation decides, in the terms of `Outcome`. */
    function Observed(): Outcome
      reads this, rect.core, equirect.core, equirect.camera, screen
    {
      Outcome(exhibits, presenting, droppedExhibit, CurrentLayout(), ActiveCore().settings, ScreenNow())
    }

    /** `Start`: the stored catalogue (or the bundled one), the rectangular
        provider active, and the start image presented. `assets` is
        `Application.streamingAssetsPath`; the `Defaults.xml` read is the
        `stored` parameter. */
    constructor(stored: seq<Record>, assets: string, startImage: string, screenHeight: real,
                fmt: real -> string, parse: string -> Option<real>, d: Draws)
      requires WellFormed(stored) && IsImage(startImage) && screenHeight > 0.0 && d.Valid()
      ensures Valid() && !slideShow
      ensures Shown(StartingCatalogue(stored, assets), Layout(Rectangular, LR, FrontPositive), [startImage], false)
    {
      equirect := new PanoramaImage.EquirectangularImage(screenHeight);
      rect := new FlatImage.RectangularImage(screenHeight);
      screen := new Screen.OutputScreen();
      this.startImage, this.fmt, this.parse := startImage, fmt, parse;
      rectangularActive := true;
      exhibits := StartingCatalogue(stored, assets);
      presenting := NoExhibit;
      droppedExhibit, slideShow, tilt := false, false, false;
      clicks := Clicks(0.0, false, 0);
      new;
      BundledCatalogue(stored, assets, LR);
      assert CurrentLayout() == Layout(Rectangular, LR, FrontPositive);
      assert Valid();
      Present([startImage], false, d);
    }

    // -------------------------------------------------------------------------
    // The active provider

    /** `rgbdImageProvider.InitState()`, with the camera reset it asks for. */
    method ResetActive()
      requires Valid()
      modifies rect, rect.core, equirect.core, equirect.camera
      ensures Valid()
      ensures ActiveCore().State() == old(ActiveCore().State()).(clock := Stopped(old(ActiveCore().clock)))
      ensures rectangularActive ==> equirect.core.State() == old(equirect.core.State()) && unchanged(equirect.camera)
      ensures !rectangularActive ==> rect.core.State() == old(rect.core.State()) && unchanged(rect)
      ensures equirect.camera.horizontalRange == old(equirect.camera.horizontalRange)
      ensures rectangularActive ==> rect.pose == FlatImage.InitialPose
      ensures !rectangularActive ==> equirect.camera.Current() == PanoramaCamera.View(PanoramaCamera.Identity, PanoramaCamera.FieldOfViewInitial)
      ensures CurrentLayout() == old(CurrentLayout()) && Idle(ActiveCore().clock)
    {
      if rectangularActive {
        var hook := rect.core.InitState();
        rect.Apply(hook, NoDraw, NoDraw);
      } else {
        var hook := equirect.core.InitState();
        equirect.Apply(hook, NoDraw, NoDraw);
      }
    }

    /** `ChangeSourceImageProjection(p)`: activates the provider of `p`,
        gives the panorama camera its range, and resets the provider. The
        newly active provider keeps its own settings. */
    method ChangeProjection(p: Projection)
      requires Valid()
      modifies this, rect, rect.core, equirect.core, equirect.camera
      ensures Valid() && BookkeepingUnchanged()
      ensures ActiveProjection() == p && ActiveCore() == CoreFor(p)
      ensures ActiveCore().State() == old(CoreFor(p).State()).(clock := Stopped(old(CoreFor(p).clock)))
      ensures p == Rectangular ==> equirect.core.State() == old(equirect.core.State())
      ensures p != Rectangular ==> rect.core.State() == old(rect.core.State())
    {
      rectangularActive := p == Rectangular;
      if p != Rectangular {
        equirect.SetHorizontalRange(RangeFor(p));
      }
      ResetActive();
    }

    /** `SourceImageArrangement = a` on the active provider. */
    method SetArrangement(a: ImageArrangement)
      requires Valid()
      modifies rect.core, equirect.core
      ensures Valid()
      ensures ActiveCore().State() == old(ActiveCore().State()).(settings := old(ActiveCore().settings).(arrangement := a), dirty := true)
      ensures rectangularActive ==> equirect.core.State() == old(equirect.core.State())
      ensures !rectangularActive ==> rect.core.State() == old(rect.core.State())
    {
      var core := ActiveCore();
      core.SetArrangement(a);
    }

    /** `DepthOrientation = z` on the active provider. */
    method SetOrientation(z: ZAxisOrientation)
      requires Valid()
      modifies rect.core, equirect.core
      ensures Valid()
      ensures ActiveCore().State() == old(ActiveCore().State()).(settings := old(ActiveCore().settings).(orientation := z), dirty := true)
      ensures rectangularActive ==> equirect.core.State() == old(equirect.core.State())
      ensures !rectangularActive ==> rect.core.State() == old(rect.core.State())
    {
      var core := ActiveCore();
      core.SetOrientation(z);
    }

    /** The five source setters `Present(List)` calls at the end. */
    method SetSource(sel: Selection)
      requires Valid()
      modifies rect.core, equirect.core
      ensures Valid()
      ensures ActiveCore().State() == old(ActiveCore().State()).(
        settings := old(ActiveCore().settings).(media := sel.media, imagePath := sel.imagePath, rgbPath := sel.rgbPath,
                                                depthPath := sel.depthPath, videoPath := sel.videoPath),
        dirty := true, play := true)
      ensures rectangularActive ==> equirect.core.State() == old(equirect.core.State())
      ensures !rectangularActive ==> rect.core.State() == old(rect.core.State())
    {
      var core := ActiveCore();
      core.SetMedia(sel.media);
      core.SetImagePath(sel.imagePath);
      core.SetRgbPath(sel.rgbPath);
      core.SetDepthPath(sel.depthPath);
      core.SetVideoPath(sel.videoPath);
    }

    // -------------------------------------------------------------------------
    // Configuration strings

    /** `ParseConfig1`: a layout string that decodes switches to its
        projection and sets its arrangement and depth orientation; one that
        does not changes nothing. */
    method ParseConfig1(config: string, hint: ImageArrangement) returns (ok: bool)
      requires Valid()
      modifies this, rect, rect.core, equirect.core, equirect.camera
      ensures Valid() && BookkeepingUnchanged()
      ensures ok == DecodeLayout(config, hint).Some?
      ensures var l := DecodeLayout(config, hint);
        ok ==>
          && CurrentLayout() == l.value && ActiveCore() == CoreFor(l.value.projection)
          && ActiveCore().State() == old(CoreFor(l.value.projection).State()).(
               settings := old(CoreFor(l.value.projection).settings).(arrangement := l.value.arrangement,
                                                                      orientation := l.value.orientation),
               clock := Stopped(old(CoreFor(l.value.projection).clock)), dirty := true)
      ensures !ok ==> unchanged(this, rect, rect.core, equirect.core, equirect.camera)
    {
      var decoded := DecodeLayout(config, hint);
      if decoded.None? {
        return false;
      }
      ChangeProjection(decoded.value.projection);
      SetArrangement(decoded.value.arrangement);
      SetOrientation(decoded.value.orientation);
      ok := true;
    }

    /** `ParseConfig2`: the screen takes the decoded parameters. */
    method ParseConfig2(config: string)
      requires Valid()
      modifies screen
      ensures Valid()
      ensures ScreenNow() == ScreenCodec.DecodeScreen(config, parse)
      ensures screen.colorIntensity == old(screen.colorIntensity) && screen.fade == old(screen.fade)
    {
      var p := ScreenCodec.DecodeScreen(config, parse);
      screen.SetParams(p.position, p.scale, p.depth);
    }

    /** `UpdateConfig1`: the current layout written into the presented record. */
    method UpdateConfig1()
      requires Valid()
      modifies this
      ensures Valid() && CurrentLayout() == old(CurrentLayout())
      ensures (exhibits, presenting) == LayoutWritten(old(exhibits), old(presenting), EncodeLayout(CurrentLayout()))
      ensures rectangularActive == old(rectangularActive) && droppedExhibit == old(droppedExhibit)
      ensures slideShow == old(slideShow) && clicks == old(clicks) && tilt == old(tilt)
    {
      WriteLayout(EncodeLayout(CurrentLayout()));
    }

    /** `UpdateConfig2`: the current screen parameters written into the
        presented record. */
    method UpdateConfig2()
      requires Valid()
      modifies this
      ensures Valid() && CurrentLayout() == old(CurrentLayout())
      ensures (exhibits, presenting) == ScreenWritten(old(exhibits), old(presenting), ScreenCodec.EncodeScreen(ScreenNow(), fmt))
      ensures rectangularActive == old(rectangularActive) && droppedExhibit == old(droppedExhibit)
      ensures slideShow == old(slideShow) && clicks == old(clicks) && tilt == old(tilt)
    {
      WriteScreen(ScreenCodec.EncodeScreen(ScreenNow(), fmt));
    }

    /** The record rewrites of `UpdateConfig1` and `UpdateConfig2`. */
    method WriteLayout(config: string)
      requires Valid()
      modifies this
      ensures Valid()
      ensures (exhibits, presenting) == LayoutWritten(old(exhibits), old(presenting), config)
      ensures rectangularActive == old(rectangularActive) && droppedExhibit == old(droppedExhibit)
      ensures slideShow == old(slideShow) && clicks == old(clicks) && tilt == old(tilt)
    {
      LayoutWrittenKeepsShape(exhibits, presenting, config);
      var r := LayoutWritten(exhibits, presenting, config);
      exhibits, presenting := r.0, r.1;
    }

    method WriteScreen(config: string)
      requires Valid()
      modifies this
      ensures Valid()
      ensures (exhibits, presenting) == ScreenWritten(old(exhibits), old(presenting), config)
      ensures rectangularActive == old(rectangularActive) && droppedExhibit == old(droppedExhibit)
      ensures slideShow == old(slideShow) && clicks == old(clicks) && tilt == old(tilt)
    {
      ScreenWrittenKeepsShape(exhibits, presenting, config);
      var r := ScreenWritten(exhibits, presenting, config);
      exhibits, presenting := r.0, r.1;
    }

    // -------------------------------------------------------------------------
    // Present(List)

    /** The one-file branch of `Present(List)`. */
    method ClassifyOne(f: string, hint: ImageArrangement) returns (s: Selection)
      ensures s == SelectOne(f, hint)
    {
      var media, imagePath, videoPath, exhibitPath := Image, "", "", "";
      var isImage := IsImageFile(f);
      if isImage {
        imagePath, exhibitPath := f, f;
      } else {
        var isVideo := IsVideoFile(f);
        if isVideo {
          media, videoPath, exhibitPath := Video, f, f;
        }
      }
      var arrangement := hint;
      if arrangement == Separate {
        arrangement := LR;
      }
      s := Selection(media, arrangement, imagePath, "", "", videoPath, exhibitPath, FileNameSuffix(f));
    }

    /** The two-image branch: the `for` loop that looks for the depth map,
        and the fallback that takes the first file as the picture. */
    method ClassifyPair(files: seq<string>) returns (s: Selection)
      requires |files| == 2 && files[0] != "" && files[1] != ""
      ensures s == SelectPair(files[0], files[1])
    {
      var rgbPath, depthPath, exhibitPath := "", "", "";
      ghost var depthAt := 1;
      var i := 0;
      while i < 2
        invariant 0 <= i <= 2
        invariant rgbPath == "" && depthPath == "" && exhibitPath == ""
        invariant i > 0 ==> !HasDepthWord(files[0])
      {
        if HasDepthWord(files[i]) {
          // `files[(i + 1) % 2]`, the other file, for i in {0, 1}
          rgbPath, depthPath := files[1 - i], files[i];
          exhibitPath := rgbPath;
          depthAt := i;
          break;
        }
        i := i + 1;
      }
      if |exhibitPath| == 0 {
        rgbPath, depthPath := files[0], files[1];
        exhibitPath := rgbPath;
      }
      assert depthAt == (if HasDepthWord(files[0]) then 0 else 1);
      assert depthPath == files[depthAt] && rgbPath == files[1 - depthAt] && exhibitPath == rgbPath;
      s := Selection(Image, Separate, "", rgbPath, depthPath, "", exhibitPath, FileNameSuffix(rgbPath));
      SelectPairByDepthAt(files, depthAt);
    }

    /** The classification of `Present(List)`. */
    method Classify(files: seq<string>, hint: ImageArrangement) returns (s: Selection)
      ensures s == Select(files, hint)
    {
      s := Selection(Image, hint, "", "", "", "", "", "");
      if |files| == 1 {
        s := ClassifyOne(files[0], hint);
      } else if |files| == 2 {
        var both := IsImageFile(files[0]);
        if both {
          both := IsImageFile(files[1]);
        }
        if both {
          ImagePathNotEmpty(files[0]);
          ImagePathNotEmpty(files[1]);
          s := ClassifyPair(files);
        }
      }
    }

    /** The classification with its fallback: nothing selectable presents
        the start image instead, as not dropped. */
    method Choose(files: seq<string>, dropped: bool) returns (s: Selection, dr: bool)
      requires Valid()
      ensures (s, dr) == Chosen(files, dropped, CurrentLayout().arrangement, startImage)
    {
      var hint := ActiveCore().settings.arrangement;
      s := Classify(files, hint);
      dr := dropped;
      if |s.exhibitPath| == 0 {
        s := Classify([startImage], hint);
        dr := false;
      }
    }

    /** The layout step of `Present(List)`: `ParseConfig1`, and when the
        string does not decode, the selected arrangement on the active
        provider, or the Kandao QooCam layout. */
    method ShowLayout(config1: string, s: Selection)
      requires Valid()
      modifies this, rect, rect.core, equirect.core, equirect.camera
      ensures Valid() && BookkeepingUnchanged()
      ensures CurrentLayout() == LayoutOnPresent(config1, s, old(CurrentLayout()))
      ensures old(Idle(ActiveCore().clock)) ==> Idle(ActiveCore().clock)
    {
      var ok := ParseConfig1(config1, s.arrangement);
      if !ok {
        SetArrangement(s.arrangement);
        if IsKandaoPair(s) {
          KandaoLayout();
        }
      }
    }

    /** The Kandao QooCam branch: the half panorama, separate, FrontPositive. */
    method KandaoLayout()
      requires Valid()
      modifies this, rect, rect.core, equirect.core, equirect.camera
      ensures Valid() && BookkeepingUnchanged()
      ensures CurrentLayout() == Layout(EquirectangularHalf, Separate, FrontPositive)
      ensures Idle(ActiveCore().clock)
    {
      ChangeProjection(EquirectangularHalf);
      SetArrangement(Separate);
      SetOrientation(FrontPositive);
    }

    /** `StartOneCycleOfSlideShow(8, 0.2, 2)` on the active provider, with
        the camera move it prepares from the draws `d`. */
    method StartSlideShowCycle(d: Draws)
      requires Valid() && d.Valid()
      modifies rect, rect.core, equirect.core, equirect.camera
      ensures Valid() && CurrentLayout() == old(CurrentLayout())
      ensures ActiveCore().State() == old(ActiveCore().State()).(
        clock := Provider.StartCycle(old(ActiveCore().clock), ActiveCore().settings.media,
                            SlideShowOneCyclePeriod, SlideShowRestPeriod, SlideShowFadeOutPeriod))
      ensures CycleStarted(ActiveCore().clock, ActiveCore().settings.media)
      ensures Observed() == old(Observed()) && screen.colorIntensity == old(screen.colorIntensity)
      ensures ActiveCore().dirty == old(ActiveCore().dirty) && ActiveCore().play == old(ActiveCore().play)
      ensures rectangularActive ==> equirect.core.State() == old(equirect.core.State())
      ensures !rectangularActive ==> rect.core.State() == old(rect.core.State())
    {
      if rectangularActive {
        var hook := rect.core.StartOneCycleOfSlideShow(SlideShowOneCyclePeriod, SlideShowRestPeriod, SlideShowFadeOutPeriod);
        rect.Apply(hook, d.from, d.to);
      } else {
        var hook := equirect.core.StartOneCycleOfSlideShow(SlideShowOneCyclePeriod, SlideShowRestPeriod, SlideShowFadeOutPeriod);
        equirect.Apply(hook, d.from, d.to);
      }
    }

    /** The rest of `Present(List)` once the selection is chosen: the
        catalogue step, then `ShowEntry`. */
    method Show(s: Selection, dropped: bool)
      requires Valid()
      modifies this, rect, rect.core, equirect.core, equirect.camera, screen
      ensures Valid()
      ensures Observed() == ShowChosen(old(exhibits), old(CurrentLayout()), s, dropped, startImage, fmt, parse)
      ensures screen.colorIntensity == 0.0 && ActiveCore().dirty && ActiveCore().play && Idle(ActiveCore().clock)
      ensures slideShow == old(slideShow) && clicks == old(clicks) && tilt == old(tilt)
    {
      var e := CatalogOnPresent(exhibits, s.exhibitPath, s.depthPath, dropped, startImage, s.config1);
      ShowEntry(e, s, dropped);
    }

    /** The rest of `Present(List)` once the catalogue step `e` is known:
        the provider reset, the darkened screen, the layout and screen
        strings applied, the sources set, and both strings written back. */
    method ShowEntry(e: Entry, s: Selection, dropped: bool)
      requires Valid()
      requires WellFormed(e.exhibits) && PresentingIn(e.exhibits, e.presenting)
      requires !e.presenting.NoExhibit? ==> |RecordOf(e.exhibits, e.presenting)| >= 3
      modifies this, rect, rect.core, equirect.core, equirect.camera, screen
      ensures Valid()
      ensures Observed() == Settle(e, s, dropped, LayoutOnPresent(e.config1, s, old(CurrentLayout())),
                                   ScreenCodec.DecodeScreen(e.config2, parse), fmt)
      ensures screen.colorIntensity == 0.0 && ActiveCore().dirty && ActiveCore().play && Idle(ActiveCore().clock)
      ensures slideShow == old(slideShow) && clicks == old(clicks) && tilt == old(tilt)
    {
      ghost var l := LayoutOnPresent(e.config1, s, CurrentLayout());
      ghost var screenParams := ScreenCodec.DecodeScreen(e.config2, parse);
      Enter(e, s, dropped);
      ghost var settings := Observed().settings;
      WriteBack();
      ghost var r1 := LayoutWritten(e.exhibits, e.presenting, EncodeLayout(l));
      assert (exhibits, presenting) == ScreenWritten(r1.0, r1.1, ScreenCodec.EncodeScreen(screenParams, fmt));
      assert Observed() == Outcome(exhibits, presenting, dropped, l, settings, screenParams);
    }

    /** The catalogue step taken over and everything up to the write-back:
        what is observable then is the entry with the new layout, settings
        and screen parameters. */
    method Enter(e: Entry, s: Selection, dropped: bool)
      requires Valid()
      requires WellFormed(e.exhibits) && PresentingIn(e.exhibits, e.presenting)
      requires !e.presenting.NoExhibit? ==> |RecordOf(e.exhibits, e.presenting)| >= 3
      modifies this, rect, rect.core, equirect.core, equirect.camera, screen
      ensures Valid()
      ensures var l := LayoutOnPresent(e.config1, s, old(CurrentLayout()));
        Observed() == Outcome(e.exhibits, e.presenting, dropped, l,
                              Settings(s.media, l.arrangement, s.imagePath, s.rgbPath, s.depthPath, s.videoPath, l.orientation),
                              ScreenCodec.DecodeScreen(e.config2, parse))
      ensures screen.colorIntensity == 0.0 && ActiveCore().dirty && ActiveCore().play && Idle(ActiveCore().clock)
      ensures slideShow == old(slideShow) && clicks == old(clicks) && tilt == old(tilt)
    {
      ghost var l := LayoutOnPresent(e.config1, s, CurrentLayout());
      exhibits, presenting, droppedExhibit := e.exhibits, e.presenting, dropped;
      Apply(e.config1, e.config2, s);
      assert CurrentLayout() == l;
    }

    /** From `InitState` to the source setters: the provider reset, the
        darkened screen, the layout and screen strings, the new sources. */
    method Apply(config1: string, config2: string, s: Selection)
      requires Valid()
      modifies this, rect, rect.core, equirect.core, equirect.camera, screen
      ensures Valid() && BookkeepingUnchanged()
      ensures CurrentLayout() == LayoutOnPresent(config1, s, old(CurrentLayout()))
      ensures ScreenNow() == ScreenCodec.DecodeScreen(config2, parse)
      ensures ActiveCore().settings == Settings(s.media, CurrentLayout().arrangement, s.imagePath, s.rgbPath,
                                                s.depthPath, s.videoPath, CurrentLayout().orientation)
      ensures screen.colorIntensity == 0.0 && ActiveCore().dirty && ActiveCore().play && Idle(ActiveCore().clock)
    {
      Blank();
      Configure(config1, config2, s);
    }

    /** `InitState` on the active provider and the screen darkened. */
    method Blank()
      requires Valid()
      modifies rect, rect.core, equirect.core, equirect.camera, screen
      ensures Valid() && CurrentLayout() == old(CurrentLayout())
      ensures screen.colorIntensity == 0.0 && Idle(ActiveCore().clock)
    {
      ResetActive();
      var _ := screen.Darken();
    }

    /** The layout and screen strings applied and the new sources set. */
    method Configure(config1: string, config2: string, s: Selection)
      requires Valid() && Idle(ActiveCore().clock)
      modifies this, rect, rect.core, equirect.core, equirect.camera, screen
      ensures Valid() && BookkeepingUnchanged()
      ensures CurrentLayout() == LayoutOnPresent(config1, s, old(CurrentLayout()))
      ensures ScreenNow() == ScreenCodec.DecodeScreen(config2, parse)
      ensures ActiveCore().settings == Settings(s.media, CurrentLayout().arrangement, s.imagePath, s.rgbPath,
                                                s.depthPath, s.videoPath, CurrentLayout().orientation)
      ensures screen.colorIntensity == old(screen.colorIntensity)
      ensures ActiveCore().dirty && ActiveCore().play && Idle(ActiveCore().clock)
    {
      ShowLayout(config1, s);
      ParseConfig2(config2);
      SetSource(s);
    }

    /** `UpdateConfig1` then `UpdateConfig2`: both strings of the presented
        record rewritten from the current state. */
    method WriteBack()
      requires Valid()
      modifies this
      ensures Valid() && Observed() == old(Observed()).(exhibits := exhibits, presenting := presenting)
      ensures var r1 := LayoutWritten(old(exhibits), old(presenting), EncodeLayout(CurrentLayout()));
        (exhibits, presenting) == ScreenWritten(r1.0, r1.1, ScreenCodec.EncodeScreen(ScreenNow(), fmt))
      ensures rectangularActive == old(rectangularActive) && droppedExhibit == old(droppedExhibit)
      ensures slideShow == old(slideShow) && clicks == old(clicks) && tilt == old(tilt)
    {
      UpdateConfig1();
      UpdateConfig2();
    }

    /** `Present(List)` up to the slideshow step. */
    method ShowFiles(files: seq<string>, dropped: bool)
      requires Valid() && IsImage(startImage)
      modifies this, rect, rect.core, equirect.core, equirect.camera, screen
      ensures Valid()
      ensures Observed() == PresentOutcome(old(exhibits), old(CurrentLayout()), files, dropped, startImage, fmt, parse)
      ensures screen.colorIntensity == 0.0 && ActiveCore().dirty && ActiveCore().play && Idle(ActiveCore().clock)
      ensures slideShow == old(slideShow) && clicks == old(clicks) && tilt == old(tilt)
    {
      ghost var before, current := exhibits, CurrentLayout();
      var s, dr := Choose(files, dropped);
      assert exhibits == before && CurrentLayout() == current;
      Show(s, dr);
      PresentShowsChosen(before, current, files, dropped, startImage, fmt, parse, s, dr);
    }

    /** `Present(List)`: the files are classified (falling back to the start
        image), looked up in the catalogue, and shown; in a slideshow the
        next cycle starts from the draws `d`. The start image has to be an
        image: otherwise the fallback would call itself forever. */
    method Present(files: seq<string>, dropped: bool, d: Draws)
      requires Valid() && IsImage(startImage) && d.Valid()
      modifies this, rect, rect.core, equirect.core, equirect.camera, screen
      ensures Valid() && Shown(old(exhibits), old(CurrentLayout()), files, dropped)
      ensures clicks == old(clicks) && tilt == old(tilt) && slideShow == old(slideShow)
    {
      ShowFiles(files, dropped);
      if slideShow {
        StartSlideShowCycle(d);
      }
    }

    /** What `Present(files, dropped)` leaves when started on catalogue
        `base` with layout `current`: the observable outcome of
        `PresentOutcome`, a dark screen waiting for the fade-in, a provider
        marked for reload, and in a slideshow a new cycle started. */
    ghost predicate Shown(base: seq<Record>, current: Layout, files: seq<string>, dropped: bool)
      requires WellFormed(base)
      reads this, rect, rect.core, equirect.core, equirect.camera, screen
    {
      && Observed() == PresentOutcome(base, current, files, dropped, startImage, fmt, parse)
      && screen.colorIntensity == 0.0 && ActiveCore().dirty && ActiveCore().play
      && (!slideShow ==> Idle(ActiveCore().clock))
      && (slideShow ==> CycleStarted(ActiveCore().clock, ActiveCore().settings.media))
    }

    // -------------------------------------------------------------------------
    // RemovePresentingExhibit

    /** `RemovePresentingExhibit(presentStartImage)`: the presented record
        leaves the catalogue, and the record before it (cyclically) is
        presented again in its new place; the start image instead when that
        record was the removed one itself or `presentStartImage` is set.
        Nothing happens when no record is presented or the catalogue is
        empty. */
    method RemovePresentingExhibit(presentStartImage: bool, d: Draws)
      requires Valid() && IsImage(startImage) && d.Valid()
      modifies this, rect, rect.core, equirect.core, equirect.camera, screen
      ensures Valid() && slideShow == old(slideShow)
      ensures old(presenting).NoExhibit? || |old(exhibits)| == 0 ==>
        unchanged(this, rect, rect.core, equirect.core, equirect.camera, screen)
      ensures !old(presenting).NoExhibit? && |old(exhibits)| > 0 ==>
        var after := AfterRemoval(old(exhibits), old(presenting));
        var files := RemovalFiles(old(exhibits), old(presenting), presentStartImage, startImage);
        && (files == [] ==>
              && exhibits == after && presenting == Detached(old(RecordOf(exhibits, presenting)))
              && rectangularActive == old(rectangularActive) && droppedExhibit == old(droppedExhibit)
              && clicks == old(clicks) && tilt == old(tilt)
              && unchanged(rect, rect.core, equirect.core, equirect.camera, screen))
        && (files != [] ==> WellFormed(after) && Shown(after, old(CurrentLayout()), files, false))
      ensures clicks == old(clicks) && tilt == old(tilt)
    {
      if presenting.NoExhibit? || |exhibits| == 0 {
        return;
      }
      // `IndexOf(exhibit)`: where the preceding record is once the presented one is gone
      var k := PredecessorAfterRemoval(|exhibits|, presenting);
      ghost var after, current := AfterRemoval(exhibits, presenting), CurrentLayout();
      Detach();
      assert exhibits == after && CurrentLayout() == current;
      if !presentStartImage && k >= 0 {
        PresentIndex(k, d);
        return;
      }
      Present([startImage], false, d);
    }

    /** `defaults.Exhibits.Remove(presentingExhibit)`: the presented record
        leaves the catalogue (a detached one is not found) and stays
        presented, detached. */
    method Detach()
      requires Valid() && !presenting.NoExhibit?
      modifies this
      ensures Valid()
      ensures exhibits == AfterRemoval(old(exhibits), old(presenting))
      ensures presenting == Detached(old(RecordOf(exhibits, presenting)))
      ensures rectangularActive == old(rectangularActive) && droppedExhibit == old(droppedExhibit)
      ensures slideShow == old(slideShow) && clicks == old(clicks) && tilt == old(tilt)
    {
      RemovalKeepsWellFormed(exhibits, presenting);
      var rec := RecordOf(exhibits, presenting);
      exhibits, presenting := AfterRemoval(exhibits, presenting), Detached(rec);
    }

    // -------------------------------------------------------------------------
    // Present(int), ToNextExhibit, ToPrevExhibit

    /** `Present(int)`: a 3-field record is presented as its file, a 4-field
        one as its two files; an index out of range or a record of another
        length changes nothing. */
    method PresentIndex(index: int, d: Draws)
      requires Valid() && IsImage(startImage) && d.Valid()
      modifies this, rect, rect.core, equirect.core, equirect.camera, screen
      ensures Valid() && slideShow == old(slideShow)
      ensures var files := FilesOfRecord(old(exhibits), index);
        && (files == [] ==> unchanged(this, rect, rect.core, equirect.core, equirect.camera, screen))
        && (files != [] ==> Shown(old(exhibits), old(CurrentLayout()), files, false))
      ensures clicks == old(clicks) && tilt == old(tilt)
    {
      if index < 0 || index >= |exhibits| {
        return;
      }
      var rec := exhibits[index];
      if |rec| == 3 {
        Present([rec[0]], false, d);
      } else if |rec| == 4 {
        Present([rec[0], rec[1]], false, d);
      }
    }

    /** `ToNextExhibit`: the record after the presented one, cyclically; the
        first one when none or a detached one is presented. */
    method ToNextExhibit(d: Draws)
      requires Valid() && IsImage(startImage) && d.Valid()
      modifies this, rect, rect.core, equirect.core, equirect.camera, screen
      ensures Valid() && slideShow == old(slideShow)
      ensures var files := FilesOfRecord(old(exhibits), NextIndex(|old(exhibits)|, old(presenting)));
        && (files == [] ==> unchanged(this, rect, rect.core, equirect.core, equirect.camera, screen))
        && (files != [] ==> Shown(old(exhibits), old(CurrentLayout()), files, false))
      ensures clicks == old(clicks) && tilt == old(tilt)
    {
      if |exhibits| == 0 {
        return;
      }
      var index := 0;
      if !presenting.NoExhibit? {
        index := PresentingIndex(presenting) + 1;
        if index < 0 || index >= |exhibits| {
          index := 0;
        }
      }
      assert index == NextIndex(|exhibits|, presenting);
      PresentIndex(index, d);
    }

    /** `ToPrevExhibit`: the record before the presented one, cyclically;
        the last one when none or a detached one is presented. */
    method ToPrevExhibit(d: Draws)
      requires Valid() && IsImage(startImage) && d.Valid()
      modifies this, rect, rect.core, equirect.core, equirect.camera, screen
      ensures Valid() && slideShow == old(slideShow)
      ensures var files := FilesOfRecord(old(exhibits), PrevIndex(|old(exhibits)|, old(presenting)));
        && (files == [] ==> unchanged(this, rect, rect.core, equirect.core, equirect.camera, screen))
        && (files != [] ==> Shown(old(exhibits), old(CurrentLayout()), files, false))
      ensures clicks == old(clicks) && tilt == old(tilt)
    {
      if |exhibits| == 0 {
        return;
      }
      var index := |exhibits| - 1;
      if !presenting.NoExhibit? {
        index := PresentingIndex(presenting) - 1;
        if index < 0 || index >= |exhibits| {
          index := |exhibits| - 1;
        }
      }
      assert index == PrevIndex(|exhibits|, presenting);
      PresentIndex(index, d);
    }

    // -------------------------------------------------------------------------
    // Present(string), OnDroppedFiles

    /** `Present(string)`: a dropped image is presented with its companion
        (its depth map, or the picture of a depth map) when `fileExists`
        finds one among the candidates; anything else is presented alone. */
    method PresentFile(f: string, fileExists: string -> bool, d: Draws)
      requires Valid() && IsImage(startImage) && d.Valid()
      modifies this, rect, rect.core, equirect.core, equirect.camera, screen
      ensures Valid() && Shown(old(exhibits), old(CurrentLayout()), DroppedFiles(f, fileExists), true)
      ensures clicks == old(clicks) && tilt == old(tilt) && slideShow == old(slideShow)
    {
      var files := FindDroppedFiles(f, fileExists);
      Present(files, true, d);
    }

    /** The file search of `Present(string)`. */
    static method FindDroppedFiles(f: string, fileExists: string -> bool) returns (files: seq<string>)
      ensures files == DroppedFiles(f, fileExists)
    {
      files := [f];
      var isImage := IsImageFile(f);
      if isImage {
        var pair := FindCompanion(f, fileExists);
        if pair.Some? {
          files := [f, pair.value];
        }
      }
    }

    /** `OnDroppedFiles`: ignored during a slideshow; a single file goes
        through `Present(string)`, several are presented together, as
        dropped. */
    method OnDroppedFiles(files: seq<string>, fileExists: string -> bool, d: Draws)
      requires Valid() && IsImage(startImage) && d.Valid()
      modifies this, rect, rect.core, equirect.core, equirect.camera, screen
      ensures Valid() && clicks == old(clicks) && tilt == old(tilt) && slideShow == old(slideShow)
      ensures old(slideShow) ==> unchanged(this, rect, rect.core, equirect.core, equirect.camera, screen)
      ensures !old(slideShow) ==> Shown(old(exhibits), old(CurrentLayout()), DropSelection(files, fileExists), true)
    {
      if slideShow {
        return;
      }
      if |files| == 1 {
        PresentFile(files[0], fileExists, d);
      } else {
        Present(files, true, d);
      }
    }

    // -------------------------------------------------------------------------
    // OnRgbdImageProviderEvent

    /** `OnRgbdImageProviderEvent`: the provider's fade-in request fades the
        screen in over 0.5 s, its fade-out request fades it out over 2 s,
        and the end of a slideshow cycle moves on to the next exhibit. */
    method OnProviderEvent(ev: ProviderEvent, d: Draws)
      requires Valid() && IsImage(startImage) && d.Valid()
      modifies this, rect, rect.core, equirect.core, equirect.camera, screen
      ensures Valid() && clicks == old(clicks) && tilt == old(tilt) && slideShow == old(slideShow)
      ensures ev.StartFadeIn? ==> screen.fade == Screen.Fade(true, false, 0.0, FadeInPeriod)
      ensures ev.StartFadeOut? ==> screen.fade == Screen.Fade(false, true, 0.0, SlideShowFadeOutPeriod)
      ensures !ev.OneCycleOfSlideShowEnded? ==>
        && unchanged(this, rect, rect.core, equirect.core, equirect.camera)
        && ScreenNow() == old(ScreenNow()) && screen.colorIntensity == old(screen.colorIntensity)
      ensures ev.OneCycleOfSlideShowEnded? ==>
        var files := FilesOfRecord(old(exhibits), NextIndex(|old(exhibits)|, old(presenting)));
        && (files == [] ==> unchanged(this, rect, rect.core, equirect.core, equirect.camera, screen))
        && (files != [] ==> Shown(old(exhibits), old(CurrentLayout()), files, false))
    {
      match ev
      case StartFadeIn => screen.FadeIn(FadeInPeriod);
      case StartFadeOut => screen.FadeOut(SlideShowFadeOutPeriod);
      case OneCycleOfSlideShowEnded => ToNextExhibit(d);
    }

    // -------------------------------------------------------------------------
    // F1–F4

    /** The record of the outcome `was` can take a layout write-back. */
    ghost predicate Writable(was: Outcome)
    {
      PresentingIn(was.exhibits, was.presenting) && (!was.presenting.NoExhibit? ==> |RecordOf(was.exhibits, was.presenting)| >= 2)
    }

    // What each key of `Update` leaves, from the outcome `was` before it.

    /** F1: the depth orientation flipped and written back. */
    ghost predicate OrientationFlipped(was: Outcome)
      reads this, rect.core, equirect.core, equirect.camera
    {
      && Writable(was)
      && CurrentLayout() == was.layout.(orientation := FlipOrientation(was.layout.orientation))
      && (exhibits, presenting) == LayoutWritten(was.exhibits, was.presenting, EncodeLayout(CurrentLayout()))
    }

    /** F2: the next projection, with the same settings to reload, and the
        layout written back. */
    ghost predicate ProjectionAdvanced(was: Outcome)
      reads this, rect.core, equirect.core, equirect.camera
    {
      && Writable(was)
      && CurrentLayout() == was.layout.(projection := NextProjection(was.layout.projection))
      && ActiveCore().settings == was.settings && ActiveCore().dirty
      && (exhibits, presenting) == LayoutWritten(was.exhibits, was.presenting, EncodeLayout(CurrentLayout()))
    }

    /** F3: side by side and stacked exchanged, and written back. */
    ghost predicate DirectionToggled(was: Outcome)
      reads this, rect.core, equirect.core, equirect.camera
    {
      && Writable(was)
      && CurrentLayout() == was.layout.(arrangement := ToggleDirection(was.layout.arrangement))
      && (exhibits, presenting) == LayoutWritten(was.exhibits, was.presenting, EncodeLayout(CurrentLayout()))
    }

    /** F4: the halves (or the separate files) exchanged, and written back. */
    ghost predicate OrderToggled(was: Outcome)
      reads this, rect.core, equirect.core, equirect.camera
    {
      && Writable(was)
      && CurrentLayout() == was.layout.(arrangement := ToggleOrder(was.layout.arrangement))
      && var base := if was.layout.arrangement == Separate
                     then Swapped(was.exhibits, was.presenting, was.settings.rgbPath)
                     else (was.exhibits, was.presenting);
         (exhibits, presenting) == LayoutWritten(base.0, base.1, EncodeLayout(CurrentLayout()))
    }

    /** An arrow: the record at `index` presented, when it has files. */
    ghost predicate RecordShown(was: Outcome, index: int)
      reads this, rect, rect.core, equirect.core, equirect.camera, screen
    {
      && WellFormed(was.exhibits)
      && var files := FilesOfRecord(was.exhibits, index);
         && (files == [] ==> Observed() == was)
         && (files != [] ==> Shown(was.exhibits, was.layout, files, false))
    }

    /** Delete: `RemovePresentingExhibit(false)`. */
    ghost predicate ExhibitRemoved(was: Outcome)
      reads this, rect, rect.core, equirect.core, equirect.camera, screen
    {
      && WellFormed(was.exhibits) && PresentingIn(was.exhibits, was.presenting)
      && (was.presenting.NoExhibit? || |was.exhibits| == 0 ==> Observed() == was)
      && (!was.presenting.NoExhibit? && |was.exhibits| > 0 ==>
            var after := AfterRemoval(was.exhibits, was.presenting);
            var files := RemovalFiles(was.exhibits, was.presenting, false, startImage);
            && (files == [] ==> exhibits == after && presenting == Detached(RecordOf(was.exhibits, was.presenting)))
            && (files != [] ==> WellFormed(after) && Shown(after, was.layout, files, false)))
    }

    /** Escape: the start image presented. */
    ghost predicate StartImageShown(was: Outcome)
      reads this, rect, rect.core, equirect.core, equirect.camera, screen
    {
      WellFormed(was.exhibits) && Shown(was.exhibits, was.layout, [startImage], false)
    }

    /** The fields F1–F4 leave alone. */
    twostate predicate FlagsUnchanged()
      reads this
    {
      && rectangularActive == old(rectangularActive) && droppedExhibit == old(droppedExhibit)
      && slideShow == old(slideShow) && clicks == old(clicks) && tilt == old(tilt)
    }

    /** F1, `ChangeDepthOrientation`: the depth orientation flips, and the
        new layout is written into the presented record. */
    method ChangeDepthOrientation()
      requires Valid()
      modifies this, rect.core, equirect.core
      ensures Valid() && FlagsUnchanged()
      ensures CurrentLayout() == old(CurrentLayout()).(orientation := FlipOrientation(old(CurrentLayout().orientation)))
      ensures ActiveCore().State() == old(ActiveCore().State()).(
        settings := old(ActiveCore().settings).(orientation := CurrentLayout().orientation), dirty := true)
      ensures rectangularActive ==> equirect.core.State() == old(equirect.core.State())
      ensures !rectangularActive ==> rect.core.State() == old(rect.core.State())
      ensures (exhibits, presenting) == LayoutWritten(old(exhibits), old(presenting), EncodeLayout(CurrentLayout()))
    {
      SetOrientation(FlipOrientation(ActiveCore().settings.orientation));
      UpdateConfig1();
    }

    /** F3, `ChangeSourceImageArrangementDirection`: side by side becomes
        stacked and back, keeping which half is RGB; Separate has no case,
        so no setter runs. The layout is written back either way. */
    method ChangeArrangementDirection()
      requires Valid()
      modifies this, rect.core, equirect.core
      ensures Valid() && FlagsUnchanged()
      ensures CurrentLayout() == old(CurrentLayout()).(arrangement := ToggleDirection(old(CurrentLayout().arrangement)))
      ensures old(CurrentLayout().arrangement) == Separate ==> ActiveCore().State() == old(ActiveCore().State())
      ensures old(CurrentLayout().arrangement) != Separate ==>
        ActiveCore().State() == old(ActiveCore().State()).(
          settings := old(ActiveCore().settings).(arrangement := CurrentLayout().arrangement), dirty := true)
      ensures rectangularActive ==> equirect.core.State() == old(equirect.core.State())
      ensures !rectangularActive ==> rect.core.State() == old(rect.core.State())
      ensures (exhibits, presenting) == LayoutWritten(old(exhibits), old(presenting), EncodeLayout(CurrentLayout()))
    {
      var a := ActiveCore().settings.arrangement;
      if a != Separate {
        SetArrangement(ToggleDirection(a));
      }
      UpdateConfig1();
    }

    /** F4, `ChangeSourceImageArrangementOrder`: the other half becomes the
        RGB half; with separate files the provider's two paths trade places
        and so do the presented record's two file fields. The layout is
        written back afterwards. */
    method ChangeArrangementOrder()
      requires Valid()
      modifies this, rect.core, equirect.core
      ensures Valid() && FlagsUnchanged()
      ensures CurrentLayout() == old(CurrentLayout()).(arrangement := ToggleOrder(old(CurrentLayout().arrangement)))
      ensures var st := old(ActiveCore().State());
        && (st.settings.arrangement != Separate ==>
              ActiveCore().State() == st.(settings := st.settings.(arrangement := CurrentLayout().arrangement), dirty := true))
        && (st.settings.arrangement == Separate ==>
              ActiveCore().State() == st.(settings := st.settings.(rgbPath := st.settings.depthPath, depthPath := st.settings.rgbPath),
                                          dirty := true))
      ensures rectangularActive ==> equirect.core.State() == old(equirect.core.State())
      ensures !rectangularActive ==> rect.core.State() == old(rect.core.State())
      ensures var base := if old(CurrentLayout().arrangement) == Separate
                          then Swapped(old(exhibits), old(presenting), old(ActiveCore().settings.rgbPath))
                          else (old(exhibits), old(presenting));
        (exhibits, presenting) == LayoutWritten(base.0, base.1, EncodeLayout(CurrentLayout()))
    {
      var a := ActiveCore().settings.arrangement;
      if a != Separate {
        SetArrangement(ToggleOrder(a));
      } else {
        var rgb := ActiveCore().settings.rgbPath;
        SwapSourceFiles();
        SwapPresented(rgb);
      }
      UpdateConfig1();
    }

    /** The RGB and depth paths of the active provider trade places. */
    method SwapSourceFiles()
      requires Valid()
      modifies rect.core, equirect.core
      ensures Valid()
      ensures var st := old(ActiveCore().State());
        ActiveCore().State() == st.(settings := st.settings.(rgbPath := st.settings.depthPath, depthPath := st.settings.rgbPath),
                                    dirty := true)
      ensures rectangularActive ==> equirect.core.State() == old(equirect.core.State())
      ensures !rectangularActive ==> rect.core.State() == old(rect.core.State())
    {
      var core := ActiveCore();
      var rgb := core.settings.rgbPath;
      core.SetRgbPath(core.settings.depthPath);
      core.SetDepthPath(rgb);
    }

    /** F4's change to the presented record, as intended: its two file
        fields trade places (see `Exhibits.SwapCompanionAsWritten` for the
        code as written). */
    method SwapPresented(rgb: string)
      requires Valid()
      modifies this
      ensures Valid() && FlagsUnchanged()
      ensures (exhibits, presenting) == Swapped(old(exhibits), old(presenting), rgb)
    {
      SwappedKeepsShape(exhibits, presenting, rgb);
      var r := Swapped(exhibits, presenting, rgb);
      exhibits, presenting := r.0, r.1;
    }

    /** F2, `ChangeSourceImageProjection()`: the next projection in the
        cycle Half, Full, Rectangular; the screen is darkened, the provider
        of the new projection is reset and given the previous provider's
        settings (which also tells it to play), and the new layout is
        written into the presented record. */
    method ChangeSourceProjection()
      requires Valid()
      modifies this, rect, rect.core, equirect.core, equirect.camera, screen
      ensures Valid()
      ensures CurrentLayout() == old(CurrentLayout()).(projection := NextProjection(old(CurrentLayout().projection)))
      ensures ActiveCore() == CoreFor(CurrentLayout().projection)
      ensures ActiveCore().settings == old(ActiveCore().settings)
      ensures ActiveCore().dirty && ActiveCore().play && Idle(ActiveCore().clock)
      ensures screen.colorIntensity == 0.0 && ScreenNow() == old(ScreenNow())
      ensures (exhibits, presenting) == LayoutWritten(old(exhibits), old(presenting), EncodeLayout(CurrentLayout()))
      ensures droppedExhibit == old(droppedExhibit) && slideShow == old(slideShow) && clicks == old(clicks) && tilt == old(tilt)
    {
      var p := EquirectangularHalf;
      if !rectangularActive {
        p := if equirect.camera.horizontalRange == PanoramaCamera.Half then EquirectangularFull else Rectangular;
      }
      assert p == NextProjection(ActiveProjection());
      // The source reads the previous provider's properties after the
      // switch; `InitState` leaves them as they were.
      var previous := ActiveCore().settings;
      SwitchProjection(p);
      CopySettings(previous);
      UpdateConfig1();
    }

    /** `outputScreen.Darken()` and `ChangeSourceImageProjection(p)`. */
    method SwitchProjection(p: Projection)
      requires Valid()
      modifies this, rect, rect.core, equirect.core, equirect.camera, screen
      ensures Valid() && BookkeepingUnchanged()
      ensures ActiveProjection() == p && ActiveCore() == CoreFor(p) && Idle(ActiveCore().clock)
      ensures screen.colorIntensity == 0.0 && ScreenNow() == old(ScreenNow())
    {
      var _ := screen.Darken();
      ChangeProjection(p);
    }

    /** The seven property copies from the previous provider. */
    method CopySettings(s: Settings)
      requires Valid()
      modifies rect.core, equirect.core
      ensures Valid()
      ensures ActiveCore().State() == old(ActiveCore().State()).(settings := s, dirty := true, play := true)
      ensures rectangularActive ==> equirect.core.State() == old(equirect.core.State())
      ensures !rectangularActive ==> rect.core.State() == old(rect.core.State())
    {
      var core := ActiveCore();
      core.SetMedia(s.media);
      core.SetArrangement(s.arrangement);
      core.SetImagePath(s.imagePath);
      core.SetRgbPath(s.rgbPath);
      core.SetDepthPath(s.depthPath);
      core.SetVideoPath(s.videoPath);
      core.SetOrientation(s.orientation);
    }

    // -------------------------------------------------------------------------
    // The slideshow and the error check of Update

    /** Space or the circle button outside a slideshow: the slideshow starts
        at the first exhibit, when there is one. */
    method StartSlideShow(d: Draws)
      requires Valid() && IsImage(startImage) && d.Valid()
      modifies this, rect, rect.core, equirect.core, equirect.camera, screen
      ensures Valid() && clicks == old(clicks) && tilt == old(tilt)
      ensures old(slideShow) || |old(exhibits)| == 0 ==> unchanged(this, rect, rect.core, equirect.core, equirect.camera, screen)
      ensures !old(slideShow) && |old(exhibits)| > 0 ==>
        var files := FilesOfRecord(old(exhibits), 0);
        && slideShow
        && (files == [] ==> Observed() == old(Observed()) && unchanged(rect, rect.core, equirect.core, equirect.camera, screen))
        && (files != [] ==> Shown(old(exhibits), old(CurrentLayout()), files, false))
    {
      if slideShow || |exhibits| == 0 {
        return;
      }
      ghost var before, current := exhibits, CurrentLayout();
      slideShow := true;
      assert exhibits == before && CurrentLayout() == current;
      PresentIndex(0, d);
    }

    /** A key or button during a slideshow: the slideshow ends on the start
        image. */
    method StopSlideShow(d: Draws)
      requires Valid() && IsImage(startImage) && d.Valid()
      modifies this, rect, rect.core, equirect.core, equirect.camera, screen
      ensures Valid() && clicks == old(clicks) && tilt == old(tilt) && !slideShow
      ensures !old(slideShow) ==> unchanged(this, rect, rect.core, equirect.core, equirect.camera, screen)
      ensures old(slideShow) ==> Shown(old(exhibits), old(CurrentLayout()), [startImage], false)
    {
      if !slideShow {
        return;
      }
      ghost var before, current := exhibits, CurrentLayout();
      slideShow := false;
      assert exhibits == before && CurrentLayout() == current;
      Present([startImage], false, d);
    }

    /** The first step of `Update`: when the active provider reports an
        error (which clears it), the presented exhibit is removed, with the
        start image presented next when the failed exhibit was dropped. */
    method CheckProviderError(d: Draws)
      requires Valid() && IsImage(startImage) && d.Valid()
      modifies this, rect, rect.core, equirect.core, equirect.camera, screen
      ensures Valid() && clicks == old(clicks) && tilt == old(tilt) && slideShow == old(slideShow)
      ensures old(ActiveCore().noError) ==>
        && unchanged(this, rect, equirect.camera, screen) && Observed() == old(Observed())
        && rect.core.State() == old(rect.core.State()) && equirect.core.State() == old(equirect.core.State())
      ensures !old(ActiveCore().noError) && (old(presenting).NoExhibit? || |old(exhibits)| == 0) ==>
        Observed() == old(Observed())
      ensures !old(ActiveCore().noError) && !old(presenting).NoExhibit? && |old(exhibits)| > 0 ==>
        var after := AfterRemoval(old(exhibits), old(presenting));
        var files := RemovalFiles(old(exhibits), old(presenting), old(droppedExhibit), startImage);
        && (files == [] ==> exhibits == after && presenting == Detached(old(RecordOf(exhibits, presenting))))
        && (files != [] ==> WellFormed(after) && Shown(after, old(CurrentLayout()), files, false))
    {
      ghost var before, current, p := exhibits, CurrentLayout(), presenting;
      var core := ActiveCore();
      var ok := core.ReadNoError();
      if ok {
        return;
      }
      assert exhibits == before && presenting == p && CurrentLayout() == current;
      RemovePresentingExhibit(droppedExhibit, d);
    }

    // -------------------------------------------------------------------------
    // Clicks, drags and the wheel in Update

    /** The click part of `Update`: the counter advances as `ClickStep`
        says; a press with Shift or Control held starts tilting the screen
        and a release stops it; a finished count goes to the active
        provider, or to the screen while Z, S or D is held. */
    method Click(dt: real, down: bool, up: bool, modifier: bool, held: Screen.Held) returns (delivered: nat)
      requires Valid()
      modifies this, rect, rect.core, equirect.core, equirect.camera, screen
      ensures Valid() && (clicks, delivered) == ClickStep(old(clicks), dt, down, up)
      ensures tilt == (!up && (old(tilt) || (down && modifier)))
      ensures Observed() == old(Observed()) && slideShow == old(slideShow)
      ensures delivered == 0 || ScreenHeld(held) ==>
        ActiveCore().State() == old(ActiveCore().State()) && unchanged(rect, equirect.camera)
      ensures delivered == 0 || !ScreenHeld(held) ==> unchanged(screen)
      ensures rect.pose == old(rect.pose) && equirect.camera.Current() == old(equirect.camera.Current())
      ensures equirect.camera.horizontalRange == old(equirect.camera.horizontalRange)
      ensures var c := old(ActiveCore().clock);
        && (delivered == 2 && !ScreenHeld(held) && !c.slideShow && !c.moving ==>
              ActiveCore().State() == old(ActiveCore().State()).(clock := c.(moving := true, movingPeriod := ResetAnimationPeriod, elapsed := 0.0)))
        && (!(delivered == 2 && !ScreenHeld(held) && !c.slideShow && !c.moving) ==> ActiveCore().State() == old(ActiveCore().State()))
    {
      delivered := Count(dt, down, up, modifier);
      if delivered > 0 {
        if !ScreenHeld(held) {
          ClickProvider(delivered);
        } else {
          screen.OnClick(delivered, held);
        }
      }
    }

    /** The counter of `Update`: `elapsedTime`, `buttonDowned` and
        `clickCount` as `ClickStep` says, with the tilt flag beside them. */
    method Count(dt: real, down: bool, up: bool, modifier: bool) returns (delivered: nat)
      modifies this
      ensures (clicks, delivered) == ClickStep(old(clicks), dt, down, up)
      ensures tilt == (!up && (old(tilt) || (down && modifier)))
      ensures rectangularActive == old(rectangularActive) && exhibits == old(exhibits) && presenting == old(presenting)
      ensures droppedExhibit == old(droppedExhibit) && slideShow == old(slideShow)
    {
      var c := clicks.(elapsed := clicks.elapsed + dt);
      if down {
        c := Clicks(0.0, true, if c.clickCount > 0 && c.elapsed <= NextClickAcceptancePeriod then c.clickCount else 0);
        if modifier {
          tilt := true;
        }
      }
      if up {
        c := Clicks(0.0, false, if c.elapsed <= ClickAcceptancePeriod then c.clickCount + 1 else 0);
        tilt := false;
      }
      delivered := 0;
      if !c.buttonDowned && c.clickCount > 0 && c.elapsed > NextClickAcceptancePeriod {
        delivered := c.clickCount;
        c := c.(clickCount := 0);
      }
      clicks := c;
    }

    /** `rgbdImageProvider.OnClick(n)`: a double click outside a slideshow
        and while the camera is still prepares the move from the current
        view back to the initial one. */
    method ClickProvider(n: int)
      requires Valid()
      modifies rect, rect.core, equirect.core, equirect.camera
      ensures Valid() && CurrentLayout() == old(CurrentLayout()) && ActiveCore().settings == old(ActiveCore().settings)
      ensures var c := old(ActiveCore().clock);
        && (n == 2 && !c.slideShow && !c.moving ==>
              ActiveCore().State() == old(ActiveCore().State()).(clock := c.(moving := true, movingPeriod := ResetAnimationPeriod, elapsed := 0.0)))
        && (!(n == 2 && !c.slideShow && !c.moving) ==> ActiveCore().State() == old(ActiveCore().State()))
      ensures rectangularActive && n == 2 && !old(rect.core.clock.slideShow) && !old(rect.core.clock.moving) ==>
        rect.poseFrom == old(rect.pose) && rect.poseTo == FlatImage.InitialPose
      ensures rectangularActive ==> equirect.core.State() == old(equirect.core.State()) && unchanged(equirect.camera)
      ensures !rectangularActive ==> rect.core.State() == old(rect.core.State()) && unchanged(rect)
      ensures rect.pose == old(rect.pose) && equirect.camera.Current() == old(equirect.camera.Current())
      ensures equirect.camera.horizontalRange == old(equirect.camera.horizontalRange)
    {
      if rectangularActive {
        var hook := rect.core.OnClick(n);
        FlatImage.ResolveTags(Current, rect.pose, NoDraw);
        FlatImage.ResolveTags(Initial, rect.pose, NoDraw);
        rect.Apply(hook, NoDraw, NoDraw);
      } else {
        var hook := equirect.core.OnClick(n);
        equirect.Apply(hook, NoDraw, NoDraw);
      }
    }

    /** The drag part of `Update` while the left button is held: a move of
        more than 1e-8 turns the active provider's view, unless the drag
        tilts the screen. `eulerX`, `eulerY` and `rollKept` describe the
        panorama camera's rotation (see `PanoramaCamera.InsideCamera.OnDrag`). */
    method Drag(dx: real, dy: real, eulerX: real, eulerY: real, rollKept: bool)
      requires Valid()
      modifies rect, equirect.camera
      ensures Valid() && Observed() == old(Observed())
      ensures !Moved(dx, dy) || tilt ==> unchanged(rect, equirect.camera)
      ensures Moved(dx, dy) && !tilt && rectangularActive ==>
        unchanged(equirect.camera) && rect.changeView &&
        rect.pose == FlatImage.Pose(Clamp(old(rect.pose.x) - dx * rect.mouseMovingRatio, 0.0, 1.0),
                                    Clamp(old(rect.pose.y) - dy * rect.mouseMovingRatio, 0.0, 1.0), old(rect.pose.scale))
      ensures Moved(dx, dy) && !tilt && !rectangularActive ==>
        var cam := equirect.camera;
        && unchanged(rect) && cam.fieldOfView == old(cam.fieldOfView)
        && cam.rotation == if rollKept then PanoramaCamera.Turned(
                             PanoramaCamera.YawStep(old(cam.horizontalRange), dx, cam.mouseMovingRatio, eulerY),
                             PanoramaCamera.PitchStep(dy, cam.mouseMovingRatio, eulerX), old(cam.rotation))
                           else old(cam.rotation)
    {
      if !Moved(dx, dy) || tilt {
        return;
      }
      if rectangularActive {
        rect.OnDrag(dx, dy);
      } else {
        equirect.OnDrag(dx, dy, eulerX, eulerY, rollKept);
      }
    }

    /** The wheel part of `Update`: a turn of more than 1e-8 zooms the
        active provider's view, or edits the screen while Z, S or D is
        held. */
    method Wheel(delta: real, held: Screen.Held)
      requires Valid()
      modifies rect, equirect.camera, screen
      ensures Valid() && CurrentLayout() == old(CurrentLayout())
      ensures !Moved(delta, 0.0) ==> unchanged(rect, equirect.camera, screen)
      ensures Moved(delta, 0.0) && ScreenHeld(held) ==> unchanged(rect, equirect.camera)
      ensures Moved(delta, 0.0) && !ScreenHeld(held) ==> unchanged(screen)
      ensures Moved(delta, 0.0) && !ScreenHeld(held) && rectangularActive ==>
        unchanged(equirect.camera) &&
        rect.pose == old(rect.pose).(scale := Clamp(old(rect.pose.scale) + delta * 0.2, FlatImage.ScaleLower, FlatImage.ScaleUpper))
      ensures Moved(delta, 0.0) && !ScreenHeld(held) && !rectangularActive ==>
        unchanged(rect) && equirect.camera.rotation == old(equirect.camera.rotation) &&
        equirect.camera.fieldOfView == Clamp(old(equirect.camera.fieldOfView) - delta * 10.0,
                                             PanoramaCamera.FieldOfViewLower, PanoramaCamera.FieldOfViewUpper)
    {
      if !Moved(delta, 0.0) {
        return;
      }
      if ScreenHeld(held) {
        screen.OnWheel(delta, held);
      } else if rectangularActive {
        rect.OnWheel(delta);
      } else {
        equirect.OnWheel(delta);
      }
    }

    // -------------------------------------------------------------------------
    // Update

    /** One frame of `Update`, in the source's order: the error check; the
        slideshow started or stopped; during a slideshow nothing else; then
        the mouse, and the keys F1 to F4, the arrows, Delete and Escape. */
    method Update(input: Input, d: Draws)
      requires Valid() && IsImage(startImage) && d.Valid()
      modifies this, rect, rect.core, equirect.core, equirect.camera, screen
      ensures Valid()
      ensures old(slideShow) && input.stopKey ==> !slideShow
      ensures old(slideShow) && !input.stopKey ==> slideShow && clicks == old(clicks) && tilt == old(tilt)
      ensures !old(slideShow) && !input.startKey ==> !slideShow
      ensures old(ActiveCore().noError) && !old(slideShow) && input.startKey && |old(exhibits)| > 0 ==>
        slideShow && RecordShown(old(Observed()), 0)
      ensures old(ActiveCore().noError) && old(slideShow) && input.stopKey ==> StartImageShown(old(Observed()))
      ensures old(ActiveCore().noError) && old(slideShow) && !input.stopKey ==> Observed() == old(Observed())
      ensures old(ActiveCore().noError) && !old(slideShow) && !(input.startKey && |old(exhibits)| > 0) ==>
        && (clicks, tilt) == (ClickStep(old(clicks), input.dt, input.down, input.up).0,
                              !input.up && (old(tilt) || (input.down && input.modifier)))
        && KeyHandled(old(Observed()), input)
    {
      ghost var ok, was := ActiveCore().noError, Observed();
      CheckProviderError(d);
      assert ok ==> Observed() == was;
      AfterErrorCheck(input, d);
    }

    /** `Update` after the error check: the slideshow keys, and outside a
        slideshow the mouse and the other keys. */
    method AfterErrorCheck(input: Input, d: Draws)
      requires Valid() && IsImage(startImage) && d.Valid()
      modifies this, rect, rect.core, equirect.core, equirect.camera, screen
      ensures Valid()
      ensures old(slideShow) && input.stopKey ==> !slideShow && StartImageShown(old(Observed()))
      ensures old(slideShow) && !input.stopKey ==>
        slideShow && clicks == old(clicks) && tilt == old(tilt) && Observed() == old(Observed())
      ensures !old(slideShow) && input.startKey && |old(exhibits)| > 0 ==> slideShow && RecordShown(old(Observed()), 0)
      ensures !old(slideShow) && !(input.startKey && |old(exhibits)| > 0) ==>
        && !slideShow
        && (clicks, tilt) == (ClickStep(old(clicks), input.dt, input.down, input.up).0,
                              !input.up && (old(tilt) || (input.down && input.modifier)))
        && KeyHandled(old(Observed()), input)
    {
      var done := SlideShowKeys(input, d);
      if !done {
        MouseAndKeys(input, d);
      }
    }

    /** The slideshow part of `Update`: outside a slideshow the start key
        starts one when there is an exhibit; inside one the stop key ends
        it. `done` says that the frame ends here: a slideshow was running
        or has just started. */
    method SlideShowKeys(input: Input, d: Draws) returns (done: bool)
      requires Valid() && IsImage(startImage) && d.Valid()
      modifies this, rect, rect.core, equirect.core, equirect.camera, screen
      ensures Valid() && clicks == old(clicks) && tilt == old(tilt)
      ensures done == (old(slideShow) || slideShow)
      ensures !old(slideShow) && input.startKey && |old(exhibits)| > 0 ==> slideShow && RecordShown(old(Observed()), 0)
      ensures !old(slideShow) && !(input.startKey && |old(exhibits)| > 0) ==>
        !slideShow && unchanged(this, rect, rect.core, equirect.core, equirect.camera, screen)
      ensures old(slideShow) && input.stopKey ==> !slideShow && StartImageShown(old(Observed()))
      ensures old(slideShow) && !input.stopKey ==> unchanged(this, rect, rect.core, equirect.core, equirect.camera, screen)
    {
      done := slideShow;
      if !slideShow {
        if input.startKey && |exhibits| > 0 {
          StartSlideShow(d);
          done := true;
        }
      } else if input.stopKey {
        StopSlideShow(d);
      }
    }

    /** What the key of `input` leaves after the mouse part of a frame,
        from the outcome `was` before the frame, when it is the only key
        down; Delete is left to `Keys`, since its no-op case promises an
        unchanged outcome that a screen edit by the mouse would break. */
    ghost predicate KeyHandled(was: Outcome, input: Input)
      reads this, rect, rect.core, equirect.core, equirect.camera, screen
    {
      && (input.Only(F1) ==> OrientationFlipped(was))
      && (input.Only(F2) ==> ProjectionAdvanced(was))
      && (input.Only(F3) ==> DirectionToggled(was))
      && (input.Only(F4) ==> OrderToggled(was))
      && (input.Only(Prev) ==>
            && WellFormed(was.exhibits)
            && var files := FilesOfRecord(was.exhibits, PrevIndex(|was.exhibits|, was.presenting));
               (files != [] ==> Shown(was.exhibits, was.layout, files, false)))
      && (input.Only(Next) ==>
            && WellFormed(was.exhibits)
            && var files := FilesOfRecord(was.exhibits, NextIndex(|was.exhibits|, was.presenting));
               (files != [] ==> Shown(was.exhibits, was.layout, files, false)))
      && (input.Only(Home) ==> StartImageShown(was))
    }

    /** The part of `Update` outside a slideshow: the mouse, then the keys. */
    method MouseAndKeys(input: Input, d: Draws)
      requires Valid() && IsImage(startImage) && d.Valid() && !slideShow
      modifies this, rect, rect.core, equirect.core, equirect.camera, screen
      ensures Valid() && !slideShow
      ensures (clicks, tilt) == (ClickStep(old(clicks), input.dt, input.down, input.up).0,
                                 !input.up && (old(tilt) || (input.down && input.modifier)))
      ensures KeyHandled(old(Observed()), input)
    {
      Mouse(input);
      Keys(input, d);
    }

    /** The mouse part of `Update`: clicks, drags, the wheel. */
    method Mouse(input: Input)
      requires Valid()
      modifies this, rect, rect.core, equirect.core, equirect.camera, screen
      ensures Valid() && CurrentLayout() == old(CurrentLayout()) && ActiveCore().settings == old(ActiveCore().settings)
      ensures exhibits == old(exhibits) && presenting == old(presenting) && droppedExhibit == old(droppedExhibit)
      ensures slideShow == old(slideShow)
      ensures (clicks, tilt) == (ClickStep(old(clicks), input.dt, input.down, input.up).0,
                                 !input.up && (old(tilt) || (input.down && input.modifier)))
      ensures var n := ClickStep(old(clicks), input.dt, input.down, input.up).1; var c := old(ActiveCore().clock);
        && (n == 2 && !ScreenHeld(input.held) && !c.slideShow && !c.moving ==>
              ActiveCore().State() == old(ActiveCore().State()).(clock := c.(moving := true, movingPeriod := ResetAnimationPeriod, elapsed := 0.0)))
        && (!(n == 2 && !ScreenHeld(input.held) && !c.slideShow && !c.moving) ==> ActiveCore().State() == old(ActiveCore().State()))
      ensures var dragged := input.pressed && Moved(input.dx, input.dy) && !tilt;
        var zoomed := Moved(input.wheel, 0.0) && !ScreenHeld(input.held);
        rectangularActive ==>
          rect.pose == FlatImage.Pose(
            if dragged then Clamp(old(rect.pose.x) - input.dx * rect.mouseMovingRatio, 0.0, 1.0) else old(rect.pose.x),
            if dragged then Clamp(old(rect.pose.y) - input.dy * rect.mouseMovingRatio, 0.0, 1.0) else old(rect.pose.y),
            if zoomed then Clamp(old(rect.pose.scale) + input.wheel * 0.2, FlatImage.ScaleLower, FlatImage.ScaleUpper)
            else old(rect.pose.scale))
      ensures var dragged := input.pressed && Moved(input.dx, input.dy) && !tilt;
        var zoomed := Moved(input.wheel, 0.0) && !ScreenHeld(input.held);
        var cam := equirect.camera;
        !rectangularActive ==>
          && cam.rotation == (if dragged && input.rollKept then PanoramaCamera.Turned(
                                PanoramaCamera.YawStep(old(cam.horizontalRange), input.dx, cam.mouseMovingRatio, input.eulerY),
                                PanoramaCamera.PitchStep(input.dy, cam.mouseMovingRatio, input.eulerX), old(cam.rotation))
                              else old(cam.rotation))
          && cam.fieldOfView == if zoomed then Clamp(old(cam.fieldOfView) - input.wheel * 10.0,
                                                     PanoramaCamera.FieldOfViewLower, PanoramaCamera.FieldOfViewUpper)
                                else old(cam.fieldOfView)
    {
      var _ := Click(input.dt, input.down, input.up, input.modifier, input.held);
      DragAndWheel(input);
    }

    /** The drag (while the left button is held) and the wheel turn of a
        frame, after the clicks: the flat view is panned and zoomed, the
        panorama camera turned and zoomed. */
    method DragAndWheel(input: Input)
      requires Valid()
      modifies rect, equirect.camera, screen
      ensures Valid() && CurrentLayout() == old(CurrentLayout())
      ensures var dragged := input.pressed && Moved(input.dx, input.dy) && !tilt;
        var zoomed := Moved(input.wheel, 0.0) && !ScreenHeld(input.held);
        rectangularActive ==>
          rect.pose == FlatImage.Pose(
            if dragged then Clamp(old(rect.pose.x) - input.dx * rect.mouseMovingRatio, 0.0, 1.0) else old(rect.pose.x),
            if dragged then Clamp(old(rect.pose.y) - input.dy * rect.mouseMovingRatio, 0.0, 1.0) else old(rect.pose.y),
            if zoomed then Clamp(old(rect.pose.scale) + input.wheel * 0.2, FlatImage.ScaleLower, FlatImage.ScaleUpper)
            else old(rect.pose.scale))
      ensures var dragged := input.pressed && Moved(input.dx, input.dy) && !tilt;
        var zoomed := Moved(input.wheel, 0.0) && !ScreenHeld(input.held);
        var cam := equirect.camera;
        !rectangularActive ==>
          && cam.rotation == (if dragged && input.rollKept then PanoramaCamera.Turned(
                                PanoramaCamera.YawStep(old(cam.horizontalRange), input.dx, cam.mouseMovingRatio, input.eulerY),
                                PanoramaCamera.PitchStep(input.dy, cam.mouseMovingRatio, input.eulerX), old(cam.rotation))
                              else old(cam.rotation))
          && cam.fieldOfView == if zoomed then Clamp(old(cam.fieldOfView) - input.wheel * 10.0,
                                                     PanoramaCamera.FieldOfViewLower, PanoramaCamera.FieldOfViewUpper)
                                else old(cam.fieldOfView)
    {
      if input.pressed {
        Drag(input.dx, input.dy, input.eulerX, input.eulerY, input.rollKept);
      }
      Wheel(input.wheel, input.held);
    }

    /** The key part of `Update`. */
    method Keys(input: Input, d: Draws)
      requires Valid() && IsImage(startImage) && d.Valid() && !slideShow
      modifies this, rect, rect.core, equirect.core, equirect.camera, screen
      ensures Valid() && !slideShow && clicks == old(clicks) && tilt == old(tilt)
      ensures input.NoParameterKey() && input.NoNavigationKey() ==> unchanged(this, rect, rect.core, equirect.core, equirect.camera, screen)
      ensures input.Only(F1) ==> OrientationFlipped(old(Observed()))
      ensures input.Only(F2) ==> ProjectionAdvanced(old(Observed()))
      ensures input.Only(F3) ==> DirectionToggled(old(Observed()))
      ensures input.Only(F4) ==> OrderToggled(old(Observed()))
      ensures input.Only(Prev) ==> RecordShown(old(Observed()), PrevIndex(|old(exhibits)|, old(presenting)))
      ensures input.Only(Next) ==> RecordShown(old(Observed()), NextIndex(|old(exhibits)|, old(presenting)))
      ensures input.Only(Delete) ==> ExhibitRemoved(old(Observed()))
      ensures input.Only(Home) ==> StartImageShown(old(Observed()))
    {
      Parameters(input);
      Navigate(input, d);
    }

    /** F1 to F4. */
    method Parameters(input: Input)
      requires Valid()
      modifies this, rect, rect.core, equirect.core, equirect.camera, screen
      ensures Valid() && slideShow == old(slideShow) && clicks == old(clicks) && tilt == old(tilt)
      ensures input.NoParameterKey() ==> unchanged(this, rect, rect.core, equirect.core, equirect.camera, screen)
      ensures input.Only(F1) ==> OrientationFlipped(old(Observed()))
      ensures input.Only(F2) ==> ProjectionAdvanced(old(Observed()))
      ensures input.Only(F3) ==> DirectionToggled(old(Observed()))
      ensures input.Only(F4) ==> OrderToggled(old(Observed()))
    {
      if input.f1 {
        ChangeDepthOrientation();
      }
      if input.f2 {
        ChangeSourceProjection();
      }
      if input.f3 {
        ChangeArrangementDirection();
      }
      if input.f4 {
        ChangeArrangementOrder();
      }
    }

    /** The arrows, Delete and Escape. */
    method Navigate(input: Input, d: Draws)
      requires Valid() && IsImage(startImage) && d.Valid()
      modifies this, rect, rect.core, equirect.core, equirect.camera, screen
      ensures Valid() && slideShow == old(slideShow) && clicks == old(clicks) && tilt == old(tilt)
      ensures input.NoNavigationKey() ==> unchanged(this, rect, rect.core, equirect.core, equirect.camera, screen)
      ensures input.Only(Prev) ==> RecordShown(old(Observed()), PrevIndex(|old(exhibits)|, old(presenting)))
      ensures input.Only(Next) ==> RecordShown(old(Observed()), NextIndex(|old(exhibits)|, old(presenting)))
      ensures input.Only(Delete) ==> ExhibitRemoved(old(Observed()))
      ensures input.Only(Home) ==> StartImageShown(old(Observed()))
    {
      Arrows(input, d);
      DeleteAndEscape(input, d);
    }

    /** The left and right arrows. */
    method Arrows(input: Input, d: Draws)
      requires Valid() && IsImage(startImage) && d.Valid()
      modifies this, rect, rect.core, equirect.core, equirect.camera, screen
      ensures Valid() && slideShow == old(slideShow) && clicks == old(clicks) && tilt == old(tilt)
      ensures !input.prev && !input.next ==> unchanged(this, rect, rect.core, equirect.core, equirect.camera, screen)
      ensures input.prev && !input.next ==> RecordShown(old(Observed()), PrevIndex(|old(exhibits)|, old(presenting)))
      ensures !input.prev && input.next ==> RecordShown(old(Observed()), NextIndex(|old(exhibits)|, old(presenting)))
    {
      if input.prev {
        ToPrevExhibit(d);
      }
      if input.next {
        ToNextExhibit(d);
      }
    }

    /** Delete and Escape. */
    method DeleteAndEscape(input: Input, d: Draws)
      requires Valid() && IsImage(startImage) && d.Valid()
      modifies this, rect, rect.core, equirect.core, equirect.camera, screen
      ensures Valid() && slideShow == old(slideShow) && clicks == old(clicks) && tilt == old(tilt)
      ensures !input.delete && !input.home ==> unchanged(this, rect, rect.core, equirect.core, equirect.camera, screen)
      ensures input.delete && !input.home ==> ExhibitRemoved(old(Observed()))
      ensures !input.delete && input.home ==> StartImageShown(old(Observed()))
    {
      if input.delete {
        RemovePresentingExhibit(false, d);
      }
      if input.home {
        Present([startImage], false, d);
      }
    }
  }
}
