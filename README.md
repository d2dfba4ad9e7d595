# Fake3DViewer core, modelled in Dafny

Fake3DViewer is a Unity viewer for RGB-D pictures and videos. An RGB-D picture is a colour image with a depth map, either side by side or stacked in one file, or in two separate files. The viewer draws the colour image on a screen with a parallax taken from the depth map.

This project models the viewer's controller and the components it drives. It proves their contracts in Dafny.

- **`Controller.MainController`** (MainController.cs) owns the two image providers and the output screen.
  - It keeps the catalogue of exhibits. An exhibit is a record `[path, depth?, layout, screen]`.
  - It turns dropped files, keys, mouse input and provider events into presentations.
  - Each method is proved against a function on values:
    - `Presentation.PresentOutcome` for `Present(List)`;
    - `FilesOfRecord`, `NextIndex` and `PrevIndex` for navigation;
    - `AfterRemoval` and `PredecessorAfterRemoval` for removal;
    - `LayoutWritten` and `ScreenWritten` for the write-back of the two configuration strings.
- **`Provider.RgbdImageProvider`** (RgbdImageProvider.cs) is the state both image providers share.
  - It holds the source settings, whose setters mark the provider for reload, and the reload itself.
  - Its error flag clears once it is read.
  - Its animation clock drives the camera moves, the slideshow cycle and its fade-out and fade-in events.
- **The two concrete providers** wrap that core:
  - `FlatImage.RectangularImage` (RectangularImage.cs) shows flat pictures through a pan and zoom window.
  - `PanoramaImage.EquirectangularImage` (EquirectangularImage.cs) shows 180 and 360 degree pictures through the camera `PanoramaCamera.InsideCamera` (InsideCamera.cs).
- **`Screen.OutputScreen`** (OutputScreen.cs) edits the screen's position, scale and depth with the wheel and resets them with an animation. Its colour intensity fades in and out.
- **`Sway.MainCamera`** (MainCamera.cs) is the optional sway of the viewing camera.
- **The controller's pure logic** sits in modules on values:
  - the layout string (`LayoutCodec`: `180`/`360`/`RECTANGLE`, then `LR`/`RL`/`TB`/`BT`, then `INV`);
  - the screen string (`ScreenCodec`: `Z<position> S<scale> D<depth>`);
  - the catalogue surgery (`Exhibits`);
  - the file-name rules and the depth-companion search (`MediaFiles`);
  - the classification of dropped files and the click counter (`Presentation`).

In the `source` column, paths are relative to the repository root.

## Model

| member | source | states |
|---|---|---|
| Provider.ImageWidth | Assets/Scripts/RgbdImageProvider.cs:110-123 | A picture is never wider than the texture. For a non-empty texture it is narrower exactly for the side-by-side arrangements LR and RL. |
| Provider.ImageHeight | Assets/Scripts/RgbdImageProvider.cs:125-138 | A picture is never taller than the texture. For a non-empty texture it is shorter exactly for the stacked arrangements TB and BT. |
| Provider.ImageDimensionsByArrangement | Assets/Scripts/RgbdImageProvider.cs:110-138 | LR and RL halve the width and TB and BT halve the height, by integer division. The other dimension stays whole. Each picture fits in the texture. |
| Provider.MovePart | Assets/Scripts/RgbdImageProvider.cs:301-322 | Advancing the time and the current move keeps the clock valid: a running move still has a positive period. |
| Provider.CyclePart | Assets/Scripts/RgbdImageProvider.cs:324-351 | When a slideshow move or rest ends, the clock stays valid, including the next Current -> Random move. |
| Provider.FadePart | Assets/Scripts/RgbdImageProvider.cs:353-365 | Starting the fade-out and ending the cycle keep the clock valid. |
| Provider.SlideShowPart | Assets/Scripts/RgbdImageProvider.cs:324-366 | The slideshow part of a frame keeps the clock valid. |
| Provider.Advance | Assets/Scripts/RgbdImageProvider.cs:301-366 | One frame of the animation clock keeps the clock valid. |
| Provider.Run | Assets/Scripts/RgbdImageProvider.cs:208-369 | Any run of frames keeps the clock valid. |
| Provider.MoveRatio | Assets/Scripts/RgbdImageProvider.cs:310-318 | The linear ratio reaches 1 exactly when the elapsed time reaches the period, and it is not negative for a non-negative time. The eased ratio of a slideshow video lies in [0, 1]. |
| Provider.MoveRatioAtMostOne | Assets/Scripts/RgbdImageProvider.cs:304-322 | MoveCamera is called exactly on frames that begin with a move running, and its ratio never exceeds 1. |
| Provider.ManualMoveEnds | Assets/Scripts/RgbdImageProvider.cs:304-322 | Outside a slideshow, a move continues exactly while the elapsed time is within its period. The frame that ends it moves with ratio exactly 1 and raises no event. |
| Provider.QuotientAboveOne | Assets/Scripts/RgbdImageProvider.cs:314 | An elapsed time past a positive period gives a ratio above 1, so the clamp applies. |
| Provider.VideoCycle | Assets/Scripts/RgbdImageProvider.cs:326-351 | A slideshow video rests once its move outlasts the period, and the elapsed time restarts. After the rest, a Current -> Random move of one cycle starts. Until then nothing happens. |
| Provider.ImagesNeverRest | Assets/Scripts/RgbdImageProvider.cs:332-336 | An image never enters the rest phase. |
| Provider.FrameEvents | Assets/Scripts/RgbdImageProvider.cs:301-366 | StartFadeOut is raised exactly on a slideshow image's first frame with at most the fade-out period left. OneCycleOfSlideShowEnded is raised exactly when the slideshow ends, and that is exactly on a slideshow frame that is fading with the time overdrawn (remaining < 0). There is no fade-in, and each event occurs at most once. |
| Provider.SlideShowEvents | Assets/Scripts/RgbdImageProvider.cs:324-366 | The same event facts for the slideshow part of a frame: the cycle ends exactly when the frame is fading and the time is overdrawn. |
| Provider.FadeEvents | Assets/Scripts/RgbdImageProvider.cs:353-365 | The same event facts for the fade part of a frame: the cycle ends exactly when the frame is fading and the time is overdrawn. |
| Provider.RemainingTracksTime | Assets/Scripts/RgbdImageProvider.cs:302 | Over any run, the countdown falls by exactly the total time that passed. |
| Provider.EventsAtMostOnce | Assets/Scripts/RgbdImageProvider.cs:353-365 | Over any run, the fade-out starts at most once: never if already fading, never outside a slideshow. The cycle ends at most once. A slideshow never restarts by itself, and fading never stops. |
| Provider.FadeOutOnThirdFrame | Assets/Scripts/RgbdImageProvider.cs:474-487 | An 8 s image cycle with a 2 s fade-out, at 2 s a frame: no event for two frames, then StartFadeOut on the third. |
| Provider.EndsOnFirstFramePastPeriod | Assets/Scripts/RgbdImageProvider.cs:360-365 | At exactly 8 s no event is raised, since the remaining time is 0 and not negative. The cycle ends on the next frame, and the slideshow with it. |
| Provider.StartCycle | Assets/Scripts/RgbdImageProvider.cs:474-487 | A positive cycle period gives a valid clock. The slideshow move starts from elapsed 0 and lasts one cycle. The fade-out countdown is armed exactly for images. The rest and fade flags are kept. |
| Provider.RgbdImageProvider.constructor | Assets/Scripts/RgbdImageProvider.cs:24-160 | The field initialisers: an LR image with empty paths and FrontPositive depth, a zero clock, and no error. |
| Provider.RgbdImageProvider.SetMedia | Assets/Scripts/RgbdImageProvider.cs:34-38 | The setter changes only the media type and marks the provider dirty. |
| Provider.RgbdImageProvider.SetArrangement | Assets/Scripts/RgbdImageProvider.cs:50-54 | The setter changes only the arrangement and marks the provider dirty. |
| Provider.RgbdImageProvider.SetImagePath | Assets/Scripts/RgbdImageProvider.cs:57-61 | The setter changes only the image path and marks the provider dirty. |
| Provider.RgbdImageProvider.SetRgbPath | Assets/Scripts/RgbdImageProvider.cs:64-68 | The setter changes only the RGB path and marks the provider dirty. |
| Provider.RgbdImageProvider.SetDepthPath | Assets/Scripts/RgbdImageProvider.cs:71-75 | The setter changes only the depth path and marks the provider dirty. |
| Provider.RgbdImageProvider.SetVideoPath | Assets/Scripts/RgbdImageProvider.cs:82-86 | The setter changes only the video path, marks the provider dirty and arms playback. |
| Provider.RgbdImageProvider.SetOrientation | Assets/Scripts/RgbdImageProvider.cs:95-99 | The setter changes only the depth orientation and marks the provider dirty. |
| Provider.RgbdImageProvider.ReadNoError | Assets/Scripts/RgbdImageProvider.cs:102-105 | Reading the flag returns its old value and resets it to true, and changes nothing else. |
| Provider.RgbdImageProvider.Reload | Assets/Scripts/RgbdImageProvider.cs:210-297 | An image is loaded from one file, or from the RGB and depth files for Separate. noError holds exactly when every load succeeded. The texture size comes from the image or RGB file, or is 0. Textures reach the shader exactly on success, and a fade-in is always raised. A video keeps noError, is prepared exactly when playback is armed, and raises nothing. |
| Provider.RgbdImageProvider.Tick | Assets/Scripts/RgbdImageProvider.cs:301-366 | The clock, the hook and the new events are those of Advance, and the settings are kept. |
| Provider.RgbdImageProvider.MoveStep | Assets/Scripts/RgbdImageProvider.cs:301-322 | The clock and the hook are those of MovePart, and no event is raised. |
| Provider.RgbdImageProvider.SlideShowStep | Assets/Scripts/RgbdImageProvider.cs:324-366 | The clock, the hook and the events are those of SlideShowPart. |
| Provider.RgbdImageProvider.CycleStep | Assets/Scripts/RgbdImageProvider.cs:326-351 | The clock and the hook are those of CyclePart. |
| Provider.RgbdImageProvider.FadeStep | Assets/Scripts/RgbdImageProvider.cs:353-365 | The clock and the events are those of FadePart. |
| Provider.RgbdImageProvider.Update | Assets/Scripts/RgbdImageProvider.cs:208-369 | A dirty provider reloads as Reload states and then advances as Advance states. The events are the reload's fade-in followed by the frame's events. A dirty image provider takes the loaded texture's width and height, or 0 when the load failed. A dirty video provider keeps noError, has no texture and shows nothing, and it prepares the video exactly when playback is armed. A clean provider keeps its texture and error flag. Afterwards the provider is never dirty. |
| Provider.RgbdImageProvider.OnClick | Assets/Scripts/RgbdImageProvider.cs:452-462 | A double click outside a slideshow, with the camera still, starts the 0.5 s Current -> Initial move. Any other click changes nothing. |
| Provider.RgbdImageProvider.InitState | Assets/Scripts/RgbdImageProvider.cs:464-472 | It resets the camera and clears the moving, resting, fading and slideshow flags, and nothing else. |
| Provider.Stopped | Assets/Scripts/RgbdImageProvider.cs:468-471 | InitState's clock turns every animation flag off, so the clock is idle and valid, and keeps the elapsed time, the countdown and the move period. |
| Provider.RgbdImageProvider.StartOneCycleOfSlideShow | Assets/Scripts/RgbdImageProvider.cs:474-487 | It starts a Random -> Random move of one cycle with the elapsed time at 0. Images count down from the cycle period; videos count from 0. |
| Provider.RgbdImageProvider.OnLoopPointReached | Assets/Scripts/RgbdImageProvider.cs:189-198 | During a slideshow that is not yet fading, it starts the fade-out with the fade-out period left and raises StartFadeOut. Otherwise nothing changes. |
| Provider.RgbdImageProvider.OnErrorReceived | Assets/Scripts/RgbdImageProvider.cs:200-203 | It clears noError and nothing else. |
| Provider.RgbdImageProvider.OnPrepareCompleted | Assets/Scripts/RgbdImageProvider.cs:164-187 | The texture takes the video's size and a fade-in is raised. |
| FlatImage.RandomPose | Assets/Scripts/RectangularImage.cs:166-174 | A random pose pans within [0.25,0.75] on both axes and zooms within [1,2]. |
| FlatImage.Resolve | Assets/Scripts/RectangularImage.cs:119-156 | Initial and Random resolve to a pose in bounds, and Current does when the live pose is. A random pose pans within the central window [0.25, 0.75]. |
| FlatImage.ResolveTags | Assets/Scripts/RectangularImage.cs:119-156 | Initial resolves to the centred, unzoomed pose and Current to the live pose. Random resolves to a pose in the central window. A resolved pose is in bounds whenever the live pose is. |
| FlatImage.Interpolate | Assets/Scripts/RectangularImage.cs:158-164 | A move between equal poses stays there. A ratio of 0 or less gives the start pose, and one of 1 or more the end pose. |
| FlatImage.InterpolateEndsAndBounds | Assets/Scripts/RectangularImage.cs:158-164 | A ratio of 0 or less gives the start pose and a ratio of 1 or more gives the end pose. With both ends in bounds, every step of the move is in bounds too. |
| FlatImage.AspectScales | Assets/Scripts/RectangularImage.cs:46-58 | The scale along the picture's longer side is 1: the u scale for a wide picture, the v scale for a tall one, both for a square one. |
| FlatImage.AspectScalesSquareThePicture | Assets/Scripts/RectangularImage.cs:46-58 | The aspect scales make the picture square in texture space (uScale * w == vScale * h). Neither scale is below 1, and the one along the longer side is 1. |
| FlatImage.QuotientAtLeastOne | Assets/Scripts/RectangularImage.cs:53-57 | The longer side over the shorter is at least 1, and multiplying back restores the longer side. |
| FlatImage.ViewDividesByZoom | Assets/Scripts/RectangularImage.cs:62-80 | The shader receives the pan position and the aspect scales divided by the zoom, which are never larger than the aspect scales. |
| FlatImage.View | Assets/Scripts/RectangularImage.cs:60-80 | The shader receives the pan position unchanged, and scales that, multiplied back by the zoom, give the aspect scales. |
| FlatImage.ViewFor | Assets/Scripts/RectangularImage.cs:46-80 | Parameters exist unless one side has zero pixels and the other does not. They carry the pan position. |
| FlatImage.DivideByAtLeastOne | Assets/Scripts/RectangularImage.cs:74-79 | Dividing by a zoom of at least 1 never enlarges a scale, and multiplying back restores it. |
| FlatImage.ShaderName | Assets/Scripts/RectangularImage.cs:186-196 | Every shader name lies under `RectangularImage/`. |
| FlatImage.ShaderNamesDistinct | Assets/Scripts/RectangularImage.cs:186-196 | Each arrangement gets a shader of its own. |
| FlatImage.RectangularImage.constructor | Assets/Scripts/RectangularImage.cs:11-40 | The pose and both ends of the animation start centred and unzoomed. The pan per pixel is 2 over the screen height. |
| FlatImage.RectangularImage.OnDrag | Assets/Scripts/RectangularImage.cs:98-104 | It pans against the mouse by delta times the pan ratio, clamped to [0,1], keeps the zoom and marks the view changed. |
| FlatImage.RectangularImage.OnWheel | Assets/Scripts/RectangularImage.cs:106-111 | It zooms by 0.2 per notch, clamped to [1,2], keeps the pan and marks the view changed. |
| FlatImage.RectangularImage.ResetCamera | Assets/Scripts/RectangularImage.cs:113-117 | It restores the centred, unzoomed pose and nothing else. |
| FlatImage.RectangularImage.PrepareCameraMoving | Assets/Scripts/RectangularImage.cs:119-156 | Both ends of the next animation are resolved from their tags against the live pose. The live pose is kept. |
| FlatImage.RectangularImage.MoveCamera | Assets/Scripts/RectangularImage.cs:158-164 | The pose is the interpolation of the two ends at the ratio, and the view is marked changed. |
| FlatImage.RectangularImage.Apply | Assets/Scripts/RgbdImageProvider.cs:434-444 | Reset restores the centred, unzoomed pose and keeps both ends and the change flag. Move sets the pose to the ends interpolated at the ratio, keeps the ends and marks the view changed. Prepare resolves both ends against the live pose and keeps the pose and the change flag. NoHook changes nothing. |
| FlatImage.RectangularImage.OnUpdate | Assets/Scripts/RectangularImage.cs:42-86 | After a change the view parameters for the current picture size are pushed, and the change flag is cleared. Without a change nothing is pushed. |
| FlatImage.RectangularImage.MarkChanged | Assets/Scripts/RectangularImage.cs:88-96 | It marks the view changed and keeps the poses. |
| FlatImage.RectangularImage.OnPrepareCompleted | Assets/Scripts/RgbdImageProvider.cs:164-187 | The core takes the video's size and raises a fade-in, and the view is marked changed. |
| FlatImage.RectangularImage.Update | Assets/Scripts/RgbdImageProvider.cs:208-369 | The core's frame runs with the shader chosen on a reload, and the clock and events are those of Advance. The frame's hook then acts on the pose. NoHook and Prepare keep it, Reset restores the centred, unzoomed pose, and Move interpolates the old ends at the ratio. Prepare resolves both ends against the old pose, and every other hook keeps them. The view is pushed exactly when the view had changed, a reload showed an image, or the camera moved. The provider ends clean. |
| PanoramaCamera.ClampStep | Assets/Scripts/InsideCamera.cs:59-65 | From an angle in [-90, 90], a cut step stays in it. The cut step is never longer than the drag's step in the drag's direction, and it is the whole step when that fits. |
| PanoramaCamera.PitchStep | Assets/Scripts/InsideCamera.cs:52-65 | The signed pitch: from within ±90 degrees, the pitch after a drag stays within them. A step that fits is taken whole. |
| PanoramaCamera.YawStep | Assets/Scripts/InsideCamera.cs:53-66 | A full-range yaw is never cut. From a signed yaw within ±90 degrees, a half-range yaw stays within them. |
| PanoramaCamera.ClampStepKeepsRange | Assets/Scripts/InsideCamera.cs:59-65 | A cut step never takes an angle in [-90,90] outside that range and never reverses the drag's direction. When the whole step fits, it is kept whole. |
| PanoramaCamera.DragStepsInRange | Assets/Scripts/InsideCamera.cs:49-66 | After a drag the pitch stays within ±90 degrees. A half-range yaw stays within ±90 too, and a full-range yaw is never cut. |
| PanoramaCamera.RandomRotation | Assets/Scripts/InsideCamera.cs:131-137 | A random rotation is a yaw-then-pitch turn. |
| PanoramaCamera.RandomRotationRanges | Assets/Scripts/InsideCamera.cs:131-137 | The random yaw is within ±45 degrees for half range and ±180 for full range. The random pitch is within ±20. |
| PanoramaCamera.RandomFieldOfView | Assets/Scripts/InsideCamera.cs:139-142 | A random field of view lies in [30,90]. |
| PanoramaCamera.Resolve | Assets/Scripts/InsideCamera.cs:86-123 | Initial and Random give a field of view in [30, 90], and Current does when the live one is. A random end is a yaw-then-pitch turn. |
| PanoramaCamera.ResolveTags | Assets/Scripts/InsideCamera.cs:86-123 | Initial resolves to the identity with 60 degrees and Current to the live view. Random resolves to a random turn with the field of view in [30,90]. A resolved field of view stays in range whenever the live one is. |
| PanoramaCamera.InsideCamera.constructor | Assets/Scripts/InsideCamera.cs:15-38 | The camera starts at half range, looking straight ahead with 60 degrees on both animation ends. It turns 360 degrees per screen height of mouse movement. |
| PanoramaCamera.InsideCamera.SetHorizontalRange | Assets/Scripts/InsideCamera.cs:16-20 | The setter changes only the range. |
| PanoramaCamera.InsideCamera.OnDrag | Assets/Scripts/InsideCamera.cs:49-73 | The camera turns by the cut yaw and pitch steps. The yaw is cut only at half range. The turn is dropped when it would roll by 1 degree or more. Nothing else changes. |
| PanoramaCamera.InsideCamera.OnWheel | Assets/Scripts/InsideCamera.cs:75-78 | The view narrows by 10 degrees per notch, clamped to [30,90]. Nothing else changes. |
| PanoramaCamera.InsideCamera.ResetCamera | Assets/Scripts/InsideCamera.cs:80-84 | The camera looks straight ahead with 60 degrees. |
| PanoramaCamera.InsideCamera.PrepareCameraMoving | Assets/Scripts/InsideCamera.cs:86-123 | Both ends of the next animation are resolved from their tags against the live view, which is kept. |
| PanoramaCamera.InsideCamera.MoveCamera | Assets/Scripts/InsideCamera.cs:125-129 | The rotation is the slerp of both ends, and the field of view is their clamped interpolation. It hits the start at ratio 0 and the end at ratio 1, and stays in [30,90]. |
| PanoramaImage.ShaderName | Assets/Scripts/EquirectangularImage.cs:67-91 | Every shader name lies under `EquirectangularImage/SphericalScreen/`, followed by the H of Half or the F of Full. |
| PanoramaImage.ShaderNamesDistinct | Assets/Scripts/EquirectangularImage.cs:67-91 | The ten pairs of range and arrangement get ten different shaders. |
| PanoramaImage.RangeName | Assets/Scripts/EquirectangularImage.cs:69-90 | The range's part of the shader name has four letters, and starts with H exactly for the half range. |
| PanoramaImage.EquirectangularImage.Shader | Assets/Scripts/EquirectangularImage.cs:67-91 | The picture's current shader lies under `EquirectangularImage/SphericalScreen/`, followed by H exactly when the camera has the half range. |
| PanoramaImage.EquirectangularImage.constructor | Assets/Scripts/EquirectangularImage.cs:19-26 | The shared provider starts at its initial settings, and the camera starts at half range looking straight ahead with 60 degrees. |
| PanoramaImage.EquirectangularImage.SetHorizontalRange | Assets/Scripts/EquirectangularImage.cs:9-13 | The range is written to the camera, which keeps its view. |
| PanoramaImage.EquirectangularImage.OnDrag | Assets/Scripts/EquirectangularImage.cs:32-35 | The drag is the camera's drag. The animation ends, the core and the range are kept. |
| PanoramaImage.EquirectangularImage.OnWheel | Assets/Scripts/EquirectangularImage.cs:37-40 | The wheel is the camera's zoom. The animation ends, the core and the range are kept. |
| PanoramaImage.EquirectangularImage.Apply | Assets/Scripts/EquirectangularImage.cs:42-55 | Reset makes the camera look straight ahead with 60 degrees. Move gives the slerp of the ends and the clamped lerp of their fields of view. Prepare resolves both ends against the live view, which is kept. NoHook keeps the view, and every hook but Prepare keeps the ends. |
| PanoramaImage.EquirectangularImage.Update | Assets/Scripts/RgbdImageProvider.cs:208-369 | The core's frame runs with the shader of the camera's range and the arrangement chosen on a reload, and the clock and events are those of Advance. The frame's hook then acts on the camera. NoHook and Prepare keep the view, Reset gives the identity with 60 degrees, and Move gives the slerp of the old ends and the lerp of their fields of view. Prepare resolves both ends, and every other hook keeps them. |
| Sway.SwayStep | Assets/Scripts/MainCamera.cs:19-54 | From within ±22.5 degrees, one frame forward in time stays within them. The direction flips only with the angle clamped at the bound it ran toward. |
| Sway.SwayStepBehaviour | Assets/Scripts/MainCamera.cs:19-54 | The sway angle stays within ±22.5 degrees. Its direction flips exactly when the angle is clamped at the bound it passed. Otherwise the angle moves by exactly 50 degrees a second. |
| Sway.SwayRunInBounds | Assets/Scripts/MainCamera.cs:19-54 | Any number of frames keeps the angle within the bounds. |
| Sway.MainCamera.constructor | Assets/Scripts/MainCamera.cs:7-17 | The camera starts still, at angle 0, turning in the plus direction. |
| Sway.MainCamera.Update | Assets/Scripts/MainCamera.cs:19-54 | M toggles the sway. While it is on, one frame is one SwayStep, and while it is off the angle is kept. |
| Screen.ResetStep | Assets/Scripts/OutputScreen.cs:103-148 | The clock advances by dt, and the start value is kept. A value is written exactly while the reset runs. The end is reported exactly on the frame the reset stops, and a reset never starts by itself. |
| Screen.ResetStepBehaviour | Assets/Scripts/OutputScreen.cs:103-148 | A running reset writes the value interpolated from its start toward the initial value. It ends on the first frame past 0.2 s, writing exactly the initial value, and reports its end only then. An idle reset writes nothing. The value written always lies between the start and the initial value. |
| Screen.ResetEndsOnce | Assets/Scripts/OutputScreen.cs:103-148 | However many frames pass, a reset reports its end at most once. An idle reset never reports an end and never starts by itself. |
| Screen.NonNegativeQuotient | Assets/Scripts/OutputScreen.cs:164 | The fade's elapsed fraction is never negative, is at most 1 up to the period, and is above 1 past it. |
| Screen.FadeStep | Assets/Scripts/OutputScreen.cs:160-173 | The clock advances by dt, and the period is kept. A fade never starts by itself, and an idle fade leaves the intensity alone. |
| Screen.FadeStepBehaviour | Assets/Scripts/OutputScreen.cs:160-173 | A fade keeps the intensity in [0,1]. A fade-in gives min(elapsed/period, 1) and a fade-out its complement. Each keeps running exactly while within its period, then stops at 1 or 0. An idle fade leaves the intensity alone. |
| Screen.ToggledShader | Assets/Scripts/OutputScreen.cs:175-206 | The shader changes only when no reset runs and F12 or F11 is down. DepthOnly is entered only with F12, and RgbOnly only with F11 while F12 is not down. |
| Screen.ToggleShaderBehaviour | Assets/Scripts/OutputScreen.cs:175-206 | F12 switches between DepthOnly and Parallax. F11 switches between RgbOnly and Parallax, but only when F12 is not down. While any reset runs, neither key has an effect. Pressing the same key twice returns to Parallax. |
| Screen.OutputScreen.constructor | Assets/Scripts/OutputScreen.cs:26-99 | The initial z position -5, scale 18 and depth 10, full intensity and the parallax shader. The screen starts dirty, with no reset and no fade. |
| Screen.OutputScreen.SetParams | Assets/Scripts/OutputScreen.cs:32-57 | The position, scale and depth setters write exactly those three values. The depth setter marks the screen dirty. |
| Screen.OutputScreen.OnWheel | Assets/Scripts/OutputScreen.cs:268-315 | Only the parameter of the first held key is edited (Z, then S, then D), and only when it is not resetting. The depth is edited only with the parallax shader. Z moves by -delta, S by +delta and D by -delta, each clamped to its range. Each edit raises its own event, and a depth edit marks the screen dirty. |
| Screen.OutputScreen.OnClick | Assets/Scripts/OutputScreen.cs:317-349 | A double click with Z, S or D held (first held key wins) starts that parameter's reset from its current value. This happens only when that parameter is not already resetting, and for the depth only with the parallax shader. Nothing else changes. |
| Screen.OutputScreen.FadeIn | Assets/Scripts/OutputScreen.cs:351-357 | It starts a fade-in of the given period from elapsed 0. Nothing else changes. |
| Screen.OutputScreen.FadeOut | Assets/Scripts/OutputScreen.cs:359-365 | It starts a fade-out of the given period from elapsed 0. Nothing else changes. |
| Screen.OutputScreen.Darken | Assets/Scripts/OutputScreen.cs:367-378 | The intensity is set to 0 and pushed, both fades are cancelled, and the screen is marked dirty. Nothing else changes. |
| Screen.OutputScreen.TickPosition | Assets/Scripts/OutputScreen.cs:103-116 | The position reset advances one frame as ResetStep states, and PositionUpdated is raised when it ends. |
| Screen.OutputScreen.TickScale | Assets/Scripts/OutputScreen.cs:118-132 | The scale reset advances one frame as ResetStep states, and ScaleUpdated is raised when it ends. |
| Screen.OutputScreen.TickDepth | Assets/Scripts/OutputScreen.cs:134-148 | The depth reset advances one frame, and a running one marks the screen dirty. DepthUpdated is raised when it ends. |
| Screen.OutputScreen.TickFade | Assets/Scripts/OutputScreen.cs:160-173 | The fade advances one frame as FadeStep states, and a running fade marks the screen dirty. |
| Screen.OutputScreen.TickResets | Assets/Scripts/OutputScreen.cs:103-148 | All three resets advance, in the source's order, and their end events are raised in that order. |
| Screen.OutputScreen.ToggleShader | Assets/Scripts/OutputScreen.cs:175-206 | The shader becomes ToggledShader of the old shader, idle when no reset runs. |
| Screen.OutputScreen.Update | Assets/Scripts/OutputScreen.cs:101-227 | One frame runs the resets, the fade and the toggle. The depth, step length (depth/64) and intensity are pushed exactly when something dirtied the screen. The screen ends clean. |
| ProviderTypes.ArrangementNamesDistinct | Assets/Scripts/RectangularImage.cs:186-196 | Each arrangement selects its own shader. Different arrangements give different names under a common prefix, and equal names mean equal arrangements. |
| Numeric.Min | Assets/Scripts/InsideCamera.cs:59-60 | `System.Math.Min` returns one of its arguments, and it is no greater than either. |
| Numeric.Max | Assets/Scripts/InsideCamera.cs:59-60 | `System.Math.Max` returns one of its arguments, and it is no smaller than either. |
| Numeric.Clamp | Assets/Scripts/RectangularImage.cs:100-108 | `Max(lo, Min(x, hi))` lies in [lo, hi]. It is x inside the range and the bound that x ran past outside it. |
| Numeric.Clamp01 | Assets/Scripts/OutputScreen.cs:109-110 | The clamped interpolation parameter lies in [0, 1] and is unchanged inside it. |
| Numeric.LerpEnds | Assets/Scripts/OutputScreen.cs:109-110 | `Mathf.Lerp` gives its start at t <= 0 and its end at t >= 1. |
| Numeric.Lerp | Assets/Scripts/OutputScreen.cs:110 | `Mathf.Lerp` gives its start at t <= 0 and its end at t >= 1. |
| Numeric.LerpBetween | Assets/Scripts/RectangularImage.cs:158-164 | An interpolated value lies between the two end points, whatever the parameter. |
| Numeric.LerpInRange | Assets/Scripts/RectangularImage.cs:158-164 | End points inside [lo, hi] keep every interpolated value inside [lo, hi]. |
| Numeric.RandomRange | Assets/Scripts/RectangularImage.cs:166-174 | `Random.Range(lo, hi)` lies in [lo, hi] and reaches both ends. |
| Text.IndexOfIgnoreCase | Assets/Scripts/MainController.cs:437-494 | The result is -1 or a position where the keyword occurs, ignoring ASCII case. |
| Text.ShiftMatch | Assets/Scripts/MainController.cs:437 | A match in the tail of a string is a match one position later in the whole string. |
| Text.IndexOfIgnoreCaseIsFirst | Assets/Scripts/MainController.cs:437-494 | The result is the first occurrence, and -1 exactly when the keyword occurs nowhere. |
| Text.InfixMatches | Assets/Scripts/MainController.cs:437-494 | A keyword written into a string is found there. |
| Text.FoundAt | Assets/Scripts/MainController.cs:437-494 | A keyword that occurs anywhere is found. |
| Text.AbsentByChar | Assets/Scripts/MainController.cs:437-494 | A keyword with a character that never occurs in the string, in either case, is not found. |
| Text.AbsentByPair | Assets/Scripts/MainController.cs:459-478 | A keyword whose first two characters are never adjacent in the string is not found. |
| Text.RemoveRange | Assets/Scripts/MainController.cs:746-754 | String.Remove(index, count) keeps what is before index and after index + count. |
| Lists.IndexOf | Assets/Scripts/MainController.cs:600 | List.IndexOf returns the first index holding the element, or -1 exactly when it is absent. |
| Lists.IndexOfFrom | Assets/Scripts/MainController.cs:600 | The search from a position finds the first matching index at or after it, or -1. |
| Lists.IndexOfAt | Assets/Scripts/MainController.cs:667 | An occurrence with none before it is the one IndexOf returns. |
| Lists.LastIndexOf | Assets/Scripts/MainController.cs:722 | LastIndexOf returns the last index holding the element, or -1 exactly when it is absent. |
| Lists.LastIndexOfBefore | Assets/Scripts/MainController.cs:722 | The backward search below a bound finds the last matching index below it, or -1. |
| Lists.RemoveFirst | Assets/Scripts/MainController.cs:663 | List.Remove(item) drops exactly the first element equal to the item, or nothing when there is none. |
| Lists.IndexOfTail | Assets/Scripts/MainController.cs:663 | Past a head that does not match, membership and index are those of the tail, shifted by one. |
| Lists.InsertAt | Assets/Scripts/MainController.cs:411 | List.Insert(i, x) puts x at position i and shifts the rest up by one. |
| Lists.RemoveAt | Assets/Scripts/MainController.cs:663 | Removing the element at an index shifts everything after it down by one and keeps everything before it. |
| LayoutCodec.EncodeLayout | Assets/Scripts/MainController.cs:532-566 | A layout string is between 3 and 14 characters long. |
| LayoutCodec.DecodeLayout | Assets/Scripts/MainController.cs:427-507 | A string shorter than 2 characters is rejected. An accepted layout is Separate exactly when the hint is Separate. |
| LayoutCodec.MarkerCharacters | Assets/Scripts/MainController.cs:40-47 | 8 appears only in 180, 6 only in 360 and V only in INV, so the encoding of a layout without those keywords avoids those characters. |
| LayoutCodec.AvoidsPairConcat | Assets/Scripts/MainController.cs:539-562 | Joining two strings that each avoid an adjacent pair avoids it too, unless the pair straddles the join. |
| LayoutCodec.LRAbsent | Assets/Scripts/MainController.cs:459-462 | LR does not occur in the encoding of an RL, TB or BT layout. |
| LayoutCodec.RLAbsent | Assets/Scripts/MainController.cs:464-467 | RL does not occur in the encoding of a TB or BT layout. |
| LayoutCodec.TBAbsent | Assets/Scripts/MainController.cs:469-472 | TB does not occur in the encoding of a BT layout. |
| LayoutCodec.MatchProjection | Assets/Scripts/MainController.cs:436-455 | A match is a projection keyword found in the string, with its length. There is no match exactly when none of 180, 360 and RECTANGLE occurs. 180 takes precedence over the others. |
| LayoutCodec.MatchArrangement | Assets/Scripts/MainController.cs:457-483 | The result is Separate exactly when the hint is. A match is an arrangement keyword found in the string, with its length. Without a match the arrangement defaults to LR, and none of LR, RL, TB and BT occurs. |
| LayoutCodec.MatchOrientation | Assets/Scripts/MainController.cs:485-494 | The orientation is FrontNegative exactly when INV occurs. The length is that of the keyword written for it. |
| LayoutCodec.ProjectionRoundTrip | Assets/Scripts/MainController.cs:436-455 | The projection group of the decoder finds the keyword the encoder wrote, with its length. |
| LayoutCodec.ArrangementRoundTrip | Assets/Scripts/MainController.cs:457-483 | The arrangement group finds the keyword the encoder wrote, with its length. Separate adds nothing. |
| LayoutCodec.OrientationRoundTrip | Assets/Scripts/MainController.cs:485-494 | The orientation group finds INV exactly when the encoder wrote it. |
| LayoutCodec.LayoutRoundTrip | Assets/Scripts/MainController.cs:427-566 | Decoding what UpdateConfig1 wrote, with the arrangement it was written for as the hint, gives back the same projection, arrangement and depth orientation. |
| LayoutCodec.TrailingCharacterRejected | Assets/Scripts/MainController.cs:496-499 | "180LRX" is rejected, because the keyword lengths do not add up to the string's length. |
| LayoutCodec.ProjectionAloneAccepted | Assets/Scripts/MainController.cs:479-494 | "180" alone is accepted, with the arrangement defaulting to LR and the orientation to FrontPositive. |
| LayoutCodec.OverlapKeywordsPresent | Assets/Scripts/MainController.cs:447-462 | "LRECTANGLEX" contains both RECTANGLE and LR, which overlap in the R. |
| LayoutCodec.OverlapKeywordsAbsent | Assets/Scripts/MainController.cs:437-446 | "LRECTANGLEX" contains none of 180, 360 and INV. |
| LayoutCodec.OverlappingKeywordsAccepted | Assets/Scripts/MainController.cs:427-507 | Keywords are matched by presence, not parsed: "LRECTANGLEX" is accepted as a rectangular LR layout, because 9 + 2 == 11. |
| LayoutCodec.FramedAvoids | Assets/Scripts/MainController.cs:437-494 | A character absent from a keyword, and other than L and X, is absent from L + keyword + X. |
| LayoutCodec.NextProjection | Assets/Scripts/MainController.cs:352-362 | F2 always changes the projection. |
| LayoutCodec.ToggleDirection | Assets/Scripts/MainController.cs:381-392 | F3 keeps Separate and changes every other arrangement. |
| LayoutCodec.ToggleOrder | Assets/Scripts/MainController.cs:394-401 | F4 keeps Separate and changes every other arrangement. |
| LayoutCodec.FlipOrientation | Assets/Scripts/MainController.cs:419-425 | F1 always changes the depth orientation. |
| LayoutCodec.ProjectionCycle | Assets/Scripts/MainController.cs:352-362 | Three presses of F2 return to the start, and two never do. |
| LayoutCodec.TogglesAreInvolutions | Assets/Scripts/MainController.cs:381-425 | F1, F3 and F4 each undo themselves, and F3 and F4 commute. |
| ScreenCodec.EncodeScreen | Assets/Scripts/MainController.cs:568-588 | A screen string starts with Z and holds at least the markers and the blanks between them. |
| ScreenCodec.DecodeScreen | Assets/Scripts/MainController.cs:509-530 | Unless the first Z, S and D appear in that order, with a character after the D, every field keeps its initial value. |
| ScreenCodec.EncodedMarkers | Assets/Scripts/MainController.cs:515-517 | In an encoded string whose numbers hold no marker letter, the first Z, S and D are the markers the encoder wrote. |
| ScreenCodec.EncodedFields | Assets/Scripts/MainController.cs:522-524 | The three texts between the markers are the formatted numbers, the first two followed by a blank. |
| ScreenCodec.ScreenRoundTrip | Assets/Scripts/MainController.cs:509-588 | Decoding what UpdateConfig2 wrote gives back the position, scale and depth, provided the number format reads back. |
| ScreenCodec.ReadFields | Assets/Scripts/MainController.cs:519-525 | With the markers in order, the decoder reads the three texts between them. |
| ScreenCodec.MarkersOutOfOrder | Assets/Scripts/MainController.cs:519 | "S1 Z2 D3" leaves every field at its initial value. |
| ScreenCodec.EmptyScreenConfig | Assets/Scripts/MainController.cs:509-530 | The empty screen string of a newly catalogued record gives the initial values. |
| ScreenCodec.FieldsParsedIndependently | Assets/Scripts/MainController.cs:521-524 | A field whose text does not parse keeps its initial value while the others are still read. |
| MediaFiles.LastSeparator | Assets/Scripts/MainController.cs:735-736 | The result is the index of the last / or \ in the path, or -1 when there is none. |
| MediaFiles.FileName | Assets/Scripts/MainController.cs:720 | A file name holds no directory separator. |
| MediaFiles.Extension | Assets/Scripts/MainController.cs:685 | An extension is empty, or a dot followed by at least one character and no other dot. |
| MediaFiles.FileNameWithoutExtension | Assets/Scripts/MainController.cs:736 | The name without extension is a prefix of the file name. When there is an extension, the file name is that name followed by the extension. |
| MediaFiles.DirectoryName | Assets/Scripts/MainController.cs:735 | The directory is a prefix of the path. A non-empty one is followed by a separator and then the file name, and no separator comes after it. |
| MediaFiles.PathPartsRoundTrip | Assets/Scripts/MainController.cs:735-736 | Taking dir/stem.ext apart gives back the directory, the name without extension and the extension. |
| MediaFiles.HasListedExtension | Assets/Scripts/MainController.cs:683-696 | The loop returns true exactly when the extension equals a listed one, ignoring ASCII case. |
| MediaFiles.IsImageFile | Assets/Scripts/MainController.cs:678-696 | True exactly for the ten image extensions, ignoring ASCII case. |
| MediaFiles.IsVideoFile | Assets/Scripts/MainController.cs:698-716 | True exactly for the six video extensions, ignoring ASCII case. |
| MediaFiles.ListedExtensionRecognised | Assets/Scripts/MainController.cs:687-693 | A path whose extension matches a listed one, ignoring ASCII case, is recognised. |
| MediaFiles.NoExtensionNoMedia | Assets/Scripts/MainController.cs:683-716 | A path without an extension is neither an image nor a video. |
| MediaFiles.FileNameSuffix | Assets/Scripts/MainController.cs:718-725 | A suffix contains no underscore. |
| MediaFiles.SuffixAfterLastUnderbar | Assets/Scripts/MainController.cs:718-725 | The suffix is exactly what follows the last underscore of the name, so Fuyu1_180LR.jpg gives 180LR. |
| MediaFiles.NoUnderbarNoSuffix | Assets/Scripts/MainController.cs:722-724 | A name without an underscore has an empty suffix. |
| MediaFiles.CompanionNames | Assets/Scripts/MainController.cs:738-761 | The search tries one or two companion names. |
| MediaFiles.NamePairs | Assets/Scripts/MainController.cs:765-767 | One name gives one path per image extension, dir\name+ext, in the order of the extension list. |
| MediaFiles.Candidates | Assets/Scripts/MainController.cs:763-775 | There are ten candidate paths per name. |
| MediaFiles.CandidateOrder | Assets/Scripts/MainController.cs:763-775 | Candidate k is name k/10 with extension k%10: the names form the outer loop and the extensions the inner one. |
| MediaFiles.DivModTen | Assets/Scripts/MainController.cs:763-775 | Each candidate index splits into a name index and an extension index. |
| MediaFiles.DivModTenOf | Assets/Scripts/MainController.cs:763-775 | The name index and extension index of a candidate are recovered from its position. |
| MediaFiles.FirstAccepted | Assets/Scripts/MainController.cs:769-773 | The result is the first candidate that exists, or -1 when none exists. |
| MediaFiles.Companion | Assets/Scripts/MainController.cs:763-775 | A companion that is found exists and is one of the candidates. |
| MediaFiles.FindCompanion | Assets/Scripts/MainController.cs:763-777 | The nested loop returns exactly the first existing candidate, in search order, or nothing when none exists. |
| MediaFiles.DroppedFiles | Assets/Scripts/MainController.cs:727-778 | A dropped file is passed on first. Its companion is added exactly when the file is an image and a companion exists, and the companion exists and is a candidate. |
| MediaFiles.FirstAcceptedPair | Assets/Scripts/MainController.cs:769-772 | An existing pair with none before it in search order is the first accepted candidate. |
| MediaFiles.NoneAcceptedAtAll | Assets/Scripts/MainController.cs:777 | When no pair exists, no candidate is accepted. |
| MediaFiles.FirstAcceptedAt | Assets/Scripts/MainController.cs:769-773 | An accepted candidate with none accepted before it is the one FirstAccepted returns. |
| MediaFiles.DepthPrefixedName | Assets/Scripts/MainController.cs:743-747 | A name containing depth_ looks only for the name with that occurrence removed. |
| MediaFiles.PlainName | Assets/Scripts/MainController.cs:758-761 | A plain name looks for depth_name first and name_depth second. |
| Exhibits.RewriteLayoutSlot | Assets/Scripts/MainController.cs:564-565 | The record keeps its length. Its second-to-last field is the new layout string and its last field is kept. |
| Exhibits.RewriteScreenSlot | Assets/Scripts/MainController.cs:586-587 | The record keeps its length, and its last field is the new screen string. |
| Exhibits.LayoutSlotOnly | Assets/Scripts/MainController.cs:564-565 | When the old layout value occurs nowhere earlier in the record, only the layout slot changes. |
| Exhibits.ScreenSlotOnly | Assets/Scripts/MainController.cs:586-587 | When the old screen value occurs nowhere earlier in the record, only the screen slot changes. |
| Exhibits.LayoutSlotRemovesEarlierDuplicate | Assets/Scripts/MainController.cs:564 | Remove takes the first equal field. So when an earlier field equals the old layout value, that earlier field is the one that goes. |
| Exhibits.SwapCompanionAsWritten | Assets/Scripts/MainController.cs:408-412 | The F4 record surgery as written: afterwards the RGB path is at index 1, and the record grows by one field when the path was not in it. |
| Exhibits.SwapCompanionAsWrittenOnPair | Assets/Scripts/MainController.cs:408-412 | On a four-field record [rgb, depth, layout, screen] the code swaps the two file fields, as intended. |
| Exhibits.SwapCompanionAsWrittenLosesPath | Assets/Scripts/MainController.cs:408-412 | On a three-field record, reused for a two-file presentation, the code moves the layout string into the path field. The next layout rewrite then loses the path. |
| Exhibits.SwapCompanion | Assets/Scripts/MainController.cs:403-413 | The corrected swap keeps the record's length. On a four-field record that starts with the RGB path, it exchanges the two file fields and keeps the rest. A record that does not start with the RGB path is left alone. |
| Exhibits.SwapCompanionKeepsFields | Assets/Scripts/MainController.cs:403-413 | The corrected swap keeps the record's length, its fields as a multiset and both configuration slots. |
| Exhibits.SwapCompanionInvolution | Assets/Scripts/MainController.cs:403-413 | Swapping back restores the record, and the corrected swap agrees with the code on four-field records. |
| Exhibits.FindByPath | Assets/Scripts/MainController.cs:858 | Find returns the first record whose path field equals the path, or -1 when there is none. |
| Exhibits.FindByPathFrom | Assets/Scripts/MainController.cs:858 | The search from a position returns the first matching record at or after it, or -1. |
| Exhibits.CatalogOnPresent | Assets/Scripts/MainController.cs:853-881 | After the lookup the catalogue stays well formed. The presented record, when there is one, is catalogued, has the exhibit's path first and has at least 3 fields. |
| Exhibits.MoveToTail | Assets/Scripts/MainController.cs:877-878 | Remove and then Add keep the catalogue's length and put the record last. |
| Exhibits.AppendKeepsWellFormed | Assets/Scripts/MainController.cs:868 | Adding a new record keeps every record non-empty. |
| Exhibits.MoveToTailKeepsWellFormed | Assets/Scripts/MainController.cs:877-878 | Moving a record to the tail keeps every record non-empty. |
| Exhibits.StartImageNotCatalogued | Assets/Scripts/MainController.cs:856 | The start image leaves the catalogue alone and presents no record. |
| Exhibits.UnknownPathAppended | Assets/Scripts/MainController.cs:859-869 | An unknown path is appended as [path, "", ""], or [path, depth, "", ""] with a depth file. It keeps the layout string from the file name and an empty screen string. |
| Exhibits.KnownRecordReused | Assets/Scripts/MainController.cs:870-880 | A known record of at least 3 fields supplies its last two fields as the layout and screen strings. It stays in place, or, when dropped, moves to the tail with the others keeping their order. |
| Exhibits.FilesOfRecord | Assets/Scripts/MainController.cs:630-646 | Present(int) presents the path of a 3-field record, or the path and the depth file of a 4-field record. It presents nothing for an index out of range or a record of any other length. |
| Exhibits.NextIndex | Assets/Scripts/MainController.cs:590-608 | With an empty catalogue nothing is presented. Otherwise the next index is in range. |
| Exhibits.PrevIndex | Assets/Scripts/MainController.cs:610-628 | With an empty catalogue nothing is presented. Otherwise the previous index is in range. |
| Exhibits.NavigationIsCyclic | Assets/Scripts/MainController.cs:590-628 | Next and previous are the cyclic successor and predecessor of a catalogued record. From no record, or a detached one, they start at the first and at the last record. |
| Exhibits.NavigationRoundTrip | Assets/Scripts/MainController.cs:590-628 | Previous undoes next, and next undoes previous. |
| Exhibits.AfterRemoval | Assets/Scripts/MainController.cs:663 | Removing the presented record shortens the catalogue by one when the record is catalogued. A detached record is not found and nothing changes. |
| Exhibits.RemovalKeepsWellFormed | Assets/Scripts/MainController.cs:663 | Removal keeps every record non-empty. |
| Exhibits.RemovalFindsPredecessor | Assets/Scripts/MainController.cs:655-673 | After a catalogued record is removed, its cyclic predecessor is found again, unless it was the only record. A detached record leads to the last record. |
| Exhibits.PredecessorAfterRemoval | Assets/Scripts/MainController.cs:655-668 | Where the record before the removed one is found again: one place down when it followed nothing removed before it, the new last place when the first record was removed, nowhere when the removed record was the only one, and the last place for a detached record. |
| Exhibits.CyclicPredecessor | Assets/Scripts/MainController.cs:655-659 | The wrapped index before i among n is (i + n - 1) % n. |
| Presentation.ImagePathNotEmpty | Assets/Scripts/MainController.cs:683-716 | A path that counts as an image or a video is never empty. |
| Presentation.Select | Assets/Scripts/MainController.cs:793-845 | A selected path is one of the files. No file, or more than two, selects nothing. A selection is Separate exactly when it came from two files. |
| Presentation.SelectOne | Assets/Scripts/MainController.cs:793-816 | A single image or video is presented under its own path, and anything else selects nothing. The arrangement is never Separate. The file is a video exactly when it is not an image, and the layout string is the name's suffix. |
| Presentation.SelectPair | Assets/Scripts/MainController.cs:817-845 | A pair is one Separate image named by its RGB file. Its picture and depth map are the two files, each used once. A first file whose name holds `depth` is the depth map, and otherwise the first file is the picture. |
| Presentation.PairClassification | Assets/Scripts/MainController.cs:817-843 | In a pair, the first file whose name holds "depth" is the depth map and the other is the picture. When neither name holds it, the first file is the picture. Both files are used once, the arrangement is Separate, and the layout string comes from the picture's name. |
| Presentation.HasDepthWord | Assets/Scripts/MainController.cs:823 | The test holds exactly when the file name without its extension contains `depth` at some position, ignoring ASCII case. |
| Presentation.SelectPairByDepthAt | Assets/Scripts/MainController.cs:821-831 | The picture is `files[1 - k]` and the depth map is `files[k]`, where k is the depth file's position. This is the `(i + 1) % 2` of the loop. |
| Presentation.TwoFilesMultiset | Assets/Scripts/MainController.cs:817 | A two-file list is the multiset of its two entries. |
| Presentation.TwoImageClassification | Assets/Scripts/MainController.cs:817-845 | Two images become one Separate exhibit named by its RGB file, with the two files as its picture and depth map. |
| Presentation.SingleFileClassification | Assets/Scripts/MainController.cs:793-816 | One image or video is presented under its own path. Its arrangement is kept, with Separate replaced by LR. It is a video exactly when it is not an image. A file that is neither, and any list other than one file or two images, selects nothing. A selected path is one of the files. |
| Presentation.Chosen | Assets/Scripts/MainController.cs:847-851 | A presentation counts as dropped only when the files were dropped. |
| Presentation.ChosenPathOrigin | Assets/Scripts/MainController.cs:847-851 | The presented path is one of the files, the start image, or empty, and a presentation kept as dropped shows one of the files. |
| Presentation.ChosenNeverEmpty | Assets/Scripts/MainController.cs:847-851 | When nothing was selected, the start image is presented instead, so some path is always presented. |
| Presentation.LayoutOnPresent | Assets/Scripts/MainController.cs:890-905 | A layout string that decodes is the layout. Otherwise the selected arrangement is used. |
| Presentation.IsKandaoPair | Assets/Scripts/MainController.cs:895-897 | A Kandao QooCam pair is exactly a Separate selection whose RGB file name, without its extension, contains `Output_KD3D` at some position, ignoring ASCII case. |
| Presentation.Written | Assets/Scripts/MainController.cs:564-587 | Replacing the presented record writes into the catalogue in place when the record is catalogued and leaves every other record alone. A detached record changes only itself. |
| Presentation.LayoutWritten | Assets/Scripts/MainController.cs:568-588 | UpdateConfig1 rewrites the presented record's layout slot, in place for a catalogued record. It does nothing when no record is presented. |
| Presentation.LayoutWrittenRecord | Assets/Scripts/MainController.cs:564-565 | After UpdateConfig1 the record keeps its length and screen string, holds the new layout string, and keeps its screen string unique. |
| Presentation.LayoutWrittenKeepsShape | Assets/Scripts/MainController.cs:564-565 | UpdateConfig1 keeps the catalogue well formed and the record at its length. |
| Presentation.ScreenWritten | Assets/Scripts/MainController.cs:568-588 | UpdateConfig2 rewrites the presented record's screen slot in the same way. |
| Presentation.ScreenWrittenRecord | Assets/Scripts/MainController.cs:586-587 | After UpdateConfig2 the record keeps its length and holds the new screen string. When the old screen string was unique, the layout slot is kept. |
| Presentation.ScreenWrittenKeepsShape | Assets/Scripts/MainController.cs:586-587 | UpdateConfig2 keeps the catalogue well formed and the record at its length. |
| Presentation.Swapped | Assets/Scripts/MainController.cs:403-413 | The corrected F4 replaces the presented record, in its place, by `SwapCompanion` of it. Nothing changes when no record is presented. The catalogue keeps its length. |
| Presentation.SwappedKeepsShape | Assets/Scripts/MainController.cs:403-413 | The corrected F4 swap keeps the catalogue well formed, every other record, and the presented record's place, length and configuration strings. |
| Presentation.SwappedTwice | Assets/Scripts/MainController.cs:403-413 | F4 pressed twice on a two-file exhibit restores the catalogue and the presented record. |
| Presentation.Settle | Assets/Scripts/MainController.cs:907-916 | The providers show the layout and screen chosen. The settings take the arrangement and orientation from the layout, and the media type and four paths from the selection. The dropped flag is passed on, and the catalogue keeps its length. |
| Presentation.SettleKeepsShape | Assets/Scripts/MainController.cs:907-916 | After the setters and both write-backs, the providers show the layout and screen chosen. The catalogue keeps its length, and the presented record keeps its place and length. |
| Presentation.SettleRecords | Assets/Scripts/MainController.cs:915-916 | A catalogued record of at least three fields, with a unique screen string, ends with the encoded layout and screen that are shown. |
| Presentation.WrittenBack | Assets/Scripts/MainController.cs:915-916 | The two write-backs keep the record in place at its length and leave it ending with the two strings written. |
| Presentation.PresentOutcome | Assets/Scripts/MainController.cs:780-916 | The providers' arrangement and depth orientation agree with the layout shown. A presentation counts as dropped only when the files were dropped. |
| Presentation.PresentShowsChosen | Assets/Scripts/MainController.cs:780-922 | A presentation is the chosen selection shown: classification, then fallback, then the catalogue step and the settling. |
| Presentation.ShowChosen | Assets/Scripts/MainController.cs:853-916 | Showing a chosen selection keeps its dropped flag and gives the providers the selection's media type. |
| Presentation.CataloguedScreenFieldUnique | Assets/Scripts/MainController.cs:859-880 | The record a presentation catalogues keeps its screen string unique, whether it is new or reused. |
| Presentation.LayoutRewriteAvoidsScreen | Assets/Scripts/MainController.cs:564-565 | The layout rewrite leaves the screen string last and nowhere before the layout slot. |
| Presentation.DropBeforeAvoids | Assets/Scripts/MainController.cs:564 | Removing an element equal to the one at m, at or before m, brings nothing new into the first m elements. |
| Presentation.LayoutRewriteKeepsScreenUnique | Assets/Scripts/MainController.cs:564-565 | The layout rewrite keeps the screen string unique. |
| Presentation.ScreenRewriteKeepsLayout | Assets/Scripts/MainController.cs:586-587 | When the screen string is unique, the screen rewrite keeps the layout slot. |
| Presentation.SlotsWritten | Assets/Scripts/MainController.cs:564-587 | Both rewrites together keep the length and fill the layout and screen slots. |
| Presentation.PresentRecordsWhatIsShown | Assets/Scripts/MainController.cs:853-916 | For any files, when every record keeps its screen string unique, the presented catalogued record ends with the layout and screen strings of what is shown. |
| Presentation.ShownRecordsWhatIsShown | Assets/Scripts/MainController.cs:853-916 | The same holds for any chosen selection with a path. |
| Presentation.StartImageLeavesCatalogue | Assets/Scripts/MainController.cs:847-856 | Presenting the start image, or anything that falls back to it, leaves the catalogue unchanged, presents no record, and shows the start image. |
| Presentation.ClickStep | Assets/Scripts/MainController.cs:148-191 | A release ends the press, restarts the clock and delivers nothing in its frame. A press alone starts the clock and delivers nothing. One frame adds at most one click. A delivery carries exactly the count built up before the frame. |
| Presentation.ClickCounting | Assets/Scripts/MainController.cs:147-176 | A press and release in one frame starts a count of one after a pause, or extends a count within 0.2 s. Nothing is delivered in that frame or in a frame with a press. |
| Presentation.DoubleClickDelivered | Assets/Scripts/MainController.cs:145-191 | Two quick clicks followed by a pause deliver a double click, exactly once. |
| Presentation.DeliveryResets | Assets/Scripts/MainController.cs:179-191 | A delivery carries the count built up. It happens only with the button up, no event in the frame and more than 0.2 s elapsed, and it resets the count. |
| Controller.StartingCatalogue | Assets/Scripts/MainController.cs:96-104 | An empty stored catalogue is replaced by the six bundled photographs. A non-empty one is kept as it is. |
| Controller.BundledLayout | Assets/Scripts/MainController.cs:98-103 | The bundled layout string "180LR" decodes to the half panorama, side by side with the left half RGB, with FrontPositive depth. |
| Controller.BundledCatalogue | Assets/Scripts/MainController.cs:96-104 | The starting catalogue is well formed. Each bundled record is presented as its one file, with the bundled layout. |
| Controller.MainController.constructor | Assets/Scripts/MainController.cs:68-109 | Start: the rectangular provider is active, the catalogue is the starting one, no slideshow runs, and the start image is presented as `PresentOutcome` says. |
| Controller.MainController.ResetActive | Assets/Scripts/MainController.cs:347 | InitState stops the active provider's clock and resets its camera. The layout and the other provider stay as they were. |
| Controller.MainController.ChangeProjection | Assets/Scripts/MainController.cs:329-350 | ChangeSourceImageProjection(p) makes p's provider the active one and gives the panorama camera its range. The provider keeps its own settings, and its clock is stopped. |
| Controller.MainController.SetArrangement | Assets/Scripts/RgbdImageProvider.cs:50-54 | SourceImageArrangement on the active provider sets the arrangement, marks the provider for reload, and changes nothing else. |
| Controller.MainController.SetOrientation | Assets/Scripts/RgbdImageProvider.cs:95-99 | DepthOrientation on the active provider sets the orientation and marks the provider for reload. |
| Controller.MainController.SetSource | Assets/Scripts/MainController.cs:909-913 | The five source setters set the media type and the four paths, mark the provider for reload, and tell it to play. |
| Controller.MainController.ParseConfig1 | Assets/Scripts/MainController.cs:427-507 | The result is true exactly when the layout string decodes. A string that decodes selects its projection's provider and sets its arrangement and orientation. One that does not decode changes nothing. |
| Controller.MainController.ParseConfig2 | Assets/Scripts/MainController.cs:509-530 | The screen takes the parameters `DecodeScreen` gives for the string, the defaults included. |
| Controller.MainController.UpdateConfig1 | Assets/Scripts/MainController.cs:532-566 | The encoded current layout is written into the presented record's layout slot, as `LayoutWritten` says. |
| Controller.MainController.ActiveProjection | Assets/Scripts/MainController.cs:541-548 | The written projection is Rectangular exactly when the rectangular provider is active, and the half panorama exactly when the panorama provider is active with the half range. |
| Controller.MainController.UpdateConfig2 | Assets/Scripts/MainController.cs:568-588 | The encoded screen parameters are written into the presented record's screen slot, as `ScreenWritten` says. |
| Controller.MainController.WriteLayout | Assets/Scripts/MainController.cs:564-565 | The catalogue and the presented record become `LayoutWritten` of the old ones, and the invariant is kept. |
| Controller.MainController.WriteScreen | Assets/Scripts/MainController.cs:586-587 | The catalogue and the presented record become `ScreenWritten` of the old ones, and the invariant is kept. |
| Controller.MainController.ClassifyOne | Assets/Scripts/MainController.cs:793-816 | The one-file branch computes `SelectOne`. |
| Controller.MainController.ClassifyPair | Assets/Scripts/MainController.cs:817-845 | The loop that looks for "depth", and its fallback, compute `SelectPair` (see `PairClassification`). |
| Controller.MainController.Classify | Assets/Scripts/MainController.cs:793-845 | The classification computes `Select`. |
| Controller.MainController.Choose | Assets/Scripts/MainController.cs:847-851 | The classification with the start-image fallback computes `Chosen`. |
| Controller.MainController.ShowLayout | Assets/Scripts/MainController.cs:890-905 | A layout string that decodes is applied. Otherwise the selected arrangement is set, or the Kandao QooCam layout for a pair with its mark. The result is `LayoutOnPresent`. |
| Controller.MainController.KandaoLayout | Assets/Scripts/MainController.cs:895-903 | The Kandao QooCam pair is shown as the half panorama, Separate, with FrontPositive depth. |
| Controller.MainController.StartSlideShowCycle | Assets/Scripts/MainController.cs:918-921 | StartOneCycleOfSlideShow(8, 0.2, 2) starts a cycle on the active provider. What a presentation decides is unchanged. |
| Controller.MainController.Show | Assets/Scripts/MainController.cs:853-916 | From the catalogue step on, the observable state becomes `ShowChosen`. The screen is dark, and the provider is marked for reload and to play. |
| Controller.MainController.ShowEntry | Assets/Scripts/MainController.cs:883-916 | After the catalogue step, the observable state becomes `Settle` of the entry. |
| Controller.MainController.Enter | Assets/Scripts/MainController.cs:853-913 | Up to the write-back, the state holds the entry's catalogue with the layout, settings and screen parameters decided. |
| Controller.MainController.Apply | Assets/Scripts/MainController.cs:883-913 | InitState, Darken, both configuration strings and the source setters: the layout, screen and settings are those decided, and the screen is dark. |
| Controller.MainController.Blank | Assets/Scripts/MainController.cs:883-888 | The active provider is reset, and the screen is darkened. |
| Controller.MainController.Configure | Assets/Scripts/MainController.cs:890-913 | Both configuration strings are applied, and the sources are set. |
| Controller.MainController.WriteBack | Assets/Scripts/MainController.cs:915-916 | UpdateConfig1 then UpdateConfig2 rewrite the presented record from the current state and change nothing else. |
| Controller.MainController.ShowFiles | Assets/Scripts/MainController.cs:780-916 | Present(List), up to the slideshow step: the observable state becomes `PresentOutcome` of the files. |
| Controller.MainController.Present | Assets/Scripts/MainController.cs:780-922 | Present(List) leaves the state `Shown` describes: the outcome of `PresentOutcome`, a dark screen, a provider to reload, and in a slideshow a new cycle started. |
| Controller.MainController.RemovePresentingExhibit | Assets/Scripts/MainController.cs:648-676 | The presented record leaves the catalogue. Its cyclic predecessor is presented again in its new place, and the start image when there is none or it is asked for. Nothing happens when nothing is presented or the catalogue is empty. |
| Controller.MainController.Detach | Assets/Scripts/MainController.cs:663 | `Remove` takes the presented record out of the catalogue. It stays presented, detached. |
| Controller.MainController.PresentIndex | Assets/Scripts/MainController.cs:630-646 | Present(int) presents `FilesOfRecord`. Nothing changes for an index out of range or a record of another length. |
| Controller.MainController.ToNextExhibit | Assets/Scripts/MainController.cs:590-608 | The record `NextIndex` names is presented. |
| Controller.MainController.ToPrevExhibit | Assets/Scripts/MainController.cs:610-628 | The record `PrevIndex` names is presented. |
| Controller.MainController.PresentFile | Assets/Scripts/MainController.cs:727-778 | Present(string) presents, as dropped, the image with the companion `DroppedFiles` finds, or the file alone. |
| Controller.MainController.FindDroppedFiles | Assets/Scripts/MainController.cs:727-778 | The file search computes `DroppedFiles`. |
| Controller.MainController.OnDroppedFiles | Assets/Scripts/MainController.cs:296-309 | A drop is ignored during a slideshow. Otherwise one file goes through Present(string), and several are presented as they are, as dropped. |
| Controller.MainController.OnProviderEvent | Assets/Scripts/MainController.cs:311-327 | A fade-in request fades the screen in over 0.5 s, and a fade-out request fades it out over 2 s. The end of a cycle moves on to the next exhibit. |
| Controller.MainController.ChangeDepthOrientation | Assets/Scripts/MainController.cs:419-425 | F1 flips the depth orientation and writes the new layout into the presented record. |
| Controller.MainController.ChangeArrangementDirection | Assets/Scripts/MainController.cs:381-392 | F3 turns side by side into stacked and back, keeping which half is RGB. Separate is left alone. The layout is written back. |
| Controller.MainController.ChangeArrangementOrder | Assets/Scripts/MainController.cs:394-417 | F4 makes the other half the RGB half. With separate files, the provider's two paths trade places, and so do the presented record's two file fields (the corrected swap). The layout is written back. |
| Controller.MainController.SwapSourceFiles | Assets/Scripts/MainController.cs:404-406 | The active provider's RGB and depth paths trade places. |
| Controller.MainController.SwapPresented | Assets/Scripts/MainController.cs:408-412 | The presented record becomes `Swapped`, the corrected swap of its file fields. |
| Controller.MainController.ChangeSourceProjection | Assets/Scripts/MainController.cs:352-379 | F2 moves to the next projection of the cycle Half, Full, Rectangular. The new provider takes the previous provider's settings. The screen is darkened, and the layout is written back. |
| Controller.MainController.SwitchProjection | Assets/Scripts/MainController.cs:364-368 | Darken, then ChangeSourceImageProjection: p becomes active and idle, and the screen is dark. |
| Controller.MainController.CopySettings | Assets/Scripts/MainController.cs:370-376 | The seven property copies give the active provider the previous settings, marked for reload and to play. |
| Controller.MainController.StartSlideShow | Assets/Scripts/MainController.cs:118-126 | Outside a slideshow, with a catalogue that is not empty, the slideshow starts at the first record. |
| Controller.MainController.StopSlideShow | Assets/Scripts/MainController.cs:127-141 | A key or button during a slideshow ends it on the start image. |
| Controller.MainController.CheckProviderError | Assets/Scripts/MainController.cs:113-116 | A provider error removes the presented exhibit. The start image comes next when that exhibit was dropped. Without an error nothing changes, the observable outcome included. |
| Controller.MainController.Click | Assets/Scripts/MainController.cs:148-191 | The counter and the tilt flag follow `ClickStep`, and the observable outcome is kept. A finished count goes to the active provider, or to the screen while Z, S or D is held. A double click on a still provider outside a slideshow arms the 0.2 s move back to the initial view. Any other click keeps the provider's state. The flat pose and the camera's view and range are kept. |
| Controller.MainController.Count | Assets/Scripts/MainController.cs:148-191 | The counter and the tilt flag update as `ClickStep` says. |
| Controller.MainController.ClickProvider | Assets/Scripts/RgbdImageProvider.cs:452-462 | A double click, outside a slideshow and with the camera still, prepares the reset move from the current view to the initial one. Any other count changes nothing. The flat pose, the camera's view and range, and the inactive provider are kept. |
| Controller.MainController.Drag | Assets/Scripts/MainController.cs:193-210 | A move of more than 1e-8, while the screen is not tilting, turns the active view, and the observable outcome is kept. The flat image pans against the mouse by delta times the pan ratio, clamped to [0, 1]. It keeps its zoom and marks the view changed. The panorama camera turns by the cut yaw and pitch steps when the roll is kept, and it keeps its field of view. A smaller move, or a tilting screen, changes nothing. |
| Controller.MainController.Wheel | Assets/Scripts/MainController.cs:212-223 | A turn of more than 1e-8 zooms the active view, or edits the screen while Z, S or D is held. The flat image zooms by 0.2 per notch within [1, 2] and keeps its pan. The panorama narrows by 10 degrees per notch within [30, 90] and keeps its rotation. The layout is kept, and a smaller turn changes nothing. |
| Controller.MainController.Update | Assets/Scripts/MainController.cs:111-264 | One frame. A running slideshow stops on the stop key and otherwise keeps running, and none starts without the start key. When the active provider reported no error, the outcome is as follows. Outside a slideshow, the start key with a non-empty catalogue starts one at the first record (`RecordShown` at 0). During a slideshow, the stop key presents the start image and any other input changes nothing. Otherwise the counter and tilt flag follow `ClickStep`, and a lone key does what `KeyHandled` states. That is, F1 to F4 change the layout and write it back, the arrows present the neighbouring record, and Escape presents the start image. The invariant is kept. |
| Controller.MainController.AfterErrorCheck | Assets/Scripts/MainController.cs:118-263 | After the error check: the slideshow keys, then, outside a slideshow, the mouse and the other keys. The slideshow outcomes, the counter and `KeyHandled` are as `Update` states. |
| Controller.MainController.SlideShowKeys | Assets/Scripts/MainController.cs:118-146 | Outside a slideshow, the start key with a non-empty catalogue starts one at the first record. During one, the stop key ends it on the start image. Any other input changes nothing. The result says that the frame ends here, because a slideshow was running or has just started. |
| Controller.MainController.MouseAndKeys | Assets/Scripts/MainController.cs:148-263 | Outside a slideshow: the counter and tilt flag follow `ClickStep`, and a lone key does what `KeyHandled` states. |
| Controller.MainController.Mouse | Assets/Scripts/MainController.cs:148-223 | The counter and tilt flag follow `ClickStep`. A finished double click arms the provider's move back, as `Click` states. The flat pose pans when dragged and zooms when the wheel turns, and the panorama camera turns and zooms in the same way. The layout, settings, catalogue and presented record are kept. |
| Controller.MainController.DragAndWheel | Assets/Scripts/MainController.cs:193-223 | The drag while the button is held, then the wheel turn. The flat pose pans and zooms, and the panorama camera turns and zooms, each as `Drag` and `Wheel` state. The layout is kept. |
| Controller.MainController.Keys | Assets/Scripts/MainController.cs:225-263 | With one key down, the state is the one that key's predicate names. F1 gives `OrientationFlipped`, F2 `ProjectionAdvanced`, F3 `DirectionToggled` and F4 `OrderToggled`. The arrows give `RecordShown` at the previous or next index, Delete gives `ExhibitRemoved` and Escape `StartImageShown`. With no key down nothing changes. The counter, tilt flag and slideshow flag are kept. |
| Controller.MainController.Parameters | Assets/Scripts/MainController.cs:225-243 | With no F-key down nothing changes. With only F1, F2, F3 or F4 down, the state is the one `OrientationFlipped`, `ProjectionAdvanced`, `DirectionToggled` or `OrderToggled` describes: the layout changed and written back into the presented record. The slideshow flag, counter and tilt flag are kept. |
| Controller.MainController.Navigate | Assets/Scripts/MainController.cs:245-263 | With no arrow, Delete or Escape down nothing changes. The left or right arrow alone presents the record at `PrevIndex` or `NextIndex` (`RecordShown`). Delete alone removes the presented exhibit as `RemovePresentingExhibit(false)` does (`ExhibitRemoved`). Escape alone presents the start image. |
| Controller.MainController.Arrows | Assets/Scripts/MainController.cs:245-253 | The left arrow alone presents the record at `PrevIndex`, and the right arrow alone the record at `NextIndex`. With neither, nothing changes. |
| Controller.MainController.DeleteAndEscape | Assets/Scripts/MainController.cs:255-263 | Delete alone removes the presented exhibit, and Escape alone presents the start image. With neither, nothing changes. |

## Left out

- Rendering, textures and Unity objects are not modelled: `SetActive`, `SetRgbdImageTexture`, the render texture and the shader properties. Their values are modelled where the model states them: the shader names, the view window and the aspect scales.
- Texture loading (`MakeTexture2DFromImageFile`) and the video player are not modelled. The reload takes the loaded dimensions, or the failure, as an input. The video player's callbacks are methods the caller invokes.
- File I/O is not modelled. The `Defaults.xml` read is the constructor's `stored` parameter. `OnDestroy` (the XML write) has nothing to model, and neither do `OnEnable`/`OnDisable` (the drop hook).
- `File.Exists` is the oracle `fileExists`. Like the source, the companion search joins directory and name with a backslash.
- MediaFiles.HasListedExtension, MediaFiles.IsImageFile, MediaFiles.IsVideoFile, MediaFiles.ListedExtensionRecognised: the model compares extensions by folding the ASCII letters a-z only. The source's `string.Compare(extension, e, true)` (MainController.cs:689 and 709) uses the current culture: under tr-TR, `I` does not fold to `i`, so `.GIF`, `.TIF`, `.TIFF`, `.IFF`, `.PICT` and `.AVI` are rejected there and accepted by the model; a culture compare also skips ignorable characters such as a soft hyphen, which the model does not. Culture data is outside the model.
- Text.IndexOfIgnoreCase, Text.EqualsIgnoreCase: `StringComparison.OrdinalIgnoreCase` also folds letters outside ASCII in the searched file name or configuration string. The model folds only a-z, so a non-ASCII name that the source folds onto a keyword is not matched by the model (a dotless `ı` upper-cases to `I`, so the source finds `INV` in `ınv`). The keywords are ASCII, but that does not make the two foldings agree on every string.
- `Random.Range` is a unit draw supplied by the caller (`Draw`, `Draws`). `Random.InitState` seeds a generator the model does not have. `Mathf.Cos` in the provider's ease-in-out move ratio is the parameter `cosPi`.
- Number formatting (`ToString("0.00")`) and parsing (`float.TryParse`) are the parameters `fmt` and `parse`. Floating point is modelled as `real`.
- Quaternions are not computed. A camera rotation is the symbolic term that produced it (`Identity`, `YawPitch`, `Slerp`, `Turned`). The Euler angles and whether the panorama drag keeps the roll are inputs (`eulerX`, `eulerY`, `rollKept`).
- The screen tilt is not modelled: `OutputScreen.OnDrag`, `OnButtonUp` and the tilt reset animation. The controller keeps the `tilt` flag that routes a drag away from the provider.
- MainCamera's `transform` update from the sway angle is not modelled. The angle and the direction are.
- `previousMousePosition` is replaced by the mouse delta of the frame (`Input.dx`, `Input.dy`).
- The Looking Glass `ButtonManager` buttons are folded into the key inputs of `Input`.
- The event wiring of `Start` is not modelled. The provider and screen events are logged on the components, and a caller delivers them: `OnProviderEvent`, and `UpdateConfig2` for a screen event.
- `MainController.Update` in the model runs the controller's own frame. The providers', the screen's and the camera's `Update` are separate methods with their own contracts.
- The initial `rgbdImageProvider` is not modelled as null. The model starts with the rectangular provider active. In the source, `Start` presents the start image, whose suffix `LR` decodes to a rectangular side-by-side layout, and that selects the rectangular provider. So the provider's null checks in `Present(List)` only skip an `InitState` on a fresh provider.
- Controller.MainController.Present: requires the start image to be an image (`IsImage(startImage)`). Otherwise the source's fallback would call itself forever.
- Provider.RgbdImageProvider.StartOneCycleOfSlideShow: requires a positive cycle period. The source divides by it. The controller always passes 8 s.
- Screen.OutputScreen.FadeIn: requires a positive period, as FadeOut does. The source divides by it. The controller always passes 0.5 s or 2 s.
- FlatImage.ViewFor: returns `None` for a picture with one side of zero pixels and the other not. The source divides by zero there and gets an infinite aspect scale.
- MediaFiles.DirectoryName: takes everything before the last `/` or `\`, or `""` when there is none. .NET's `Path.GetDirectoryName` differs in two ways. It keeps the separator of a root, so `E:\photo.jpg` gives `E:\`, and the companion candidates become `E:\\depth_photo.jpg` and so on, where the model gives `E:` and `E:\depth_photo.jpg`. On Windows it also turns `/` into `\`. The companion search (`Candidates`, `FindCompanion`) therefore differs from the source for a file at a drive root and for a path written with `/`.
- Controller.MainController.constructor, Exhibits.FindByPath, Exhibits.CatalogOnPresent: require `WellFormed`, that no catalogued record is empty. In the source, an empty record read from `Defaults.xml` would make `Find(exhibit => exhibit[0] == exhibitFilePath)` (MainController.cs:858) throw, and the model has no such failure. The controller itself only adds records of three or four fields, so a well-formed stored catalogue stays well formed.
- `files[(i + 1) % 2]` in the pair search is written `files[1 - i]`, which is the same for i in {0, 1}.

## Findings

| source | as written | input that shows it | evidently intended | confidence | as-written member | corrected member |
|---|---|---|---|---|---|---|
| Assets/Scripts/MainController.cs:408-412 | F4 on a separate pair rewrites the record with `Remove(rgb)` then `Insert(1, rgb)` | Present `a.jpg` alone, so it is catalogued as a 3-field record. Then drop `a.jpg` with `a_depth.jpg`: the 3-field record is reused. Then press F4. The record becomes `[layout, a.jpg, screen]`, and the layout write-back removes `a.jpg`, leaving no path. | Swap the two file fields of a 4-field record, and leave any other record alone | not executed | Exhibits.SwapCompanionAsWritten, Exhibits.SwapCompanionAsWrittenLosesPath | Exhibits.SwapCompanion with Exhibits.SwapCompanionKeepsFields, Exhibits.SwapCompanionInvolution, Presentation.SwappedTwice |
