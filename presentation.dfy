/** What MainController.cs `Present(List)` does with the files it is given,
    as values: which file is the picture, which is its depth map and what
    the providers are told (`Selection`), which layout the providers end up
    with, and the whole observable outcome of one presentation, together
    with the click counter of `Update`. The controller class proves its
    methods against these functions. */
module Presentation {
  import opened Optional
  import opened Text
  import opened Lists
  import opened ProviderTypes
  import opened Provider
  import opened LayoutCodec
  import opened Exhibits
  import opened MediaFiles
  import ScreenCodec

  /** `SlideShowOneCyclePeriod`, `SlideShowRestPeriod`,
      `SlideShowFadeOutPeriod` and `FadeInPeriod`. */
  const SlideShowOneCyclePeriod: real := 8.0
  const SlideShowRestPeriod: real := 0.2
  const SlideShowFadeOutPeriod: real := 2.0
  const FadeInPeriod: real := 0.5

  /** The word that marks the depth image of a dropped pair. */
  const DepthWord := "depth"

  /** The file-name mark of Kandao QooCam pictures. */
  const KandaoMark := "Output_KD3D"

  /** The locals of `Present(List)` once the files are classified. */
  datatype Selection = Selection(media: MediaType, arrangement: ImageArrangement,
                                 imagePath: string, rgbPath: string, depthPath: string, videoPath: string,
                                 exhibitPath: string, config1: string)

  /** The file name, without its extension, holds `depth`, ignoring ASCII case. */
  predicate HasDepthWord(path: string)
    ensures HasDepthWord(path) <==> exists j: nat :: MatchAt(FileNameWithoutExtension(path), DepthWord, j)
  {
    IndexOfIgnoreCaseIsFirst(FileNameWithoutExtension(path), DepthWord);
    ContainsIgnoreCase(FileNameWithoutExtension(path), DepthWord)
  }

  /** The classification of `Present(List)`, before the start-image fallback.
      One image or video is presented alone, with its arrangement kept
      unless it was Separate (then LR). Two images are a separate RGB and
      depth pair: the first whose name holds `depth` is the depth map, and
      the first file is the picture when neither does. Anything else selects
      nothing (an empty exhibit path). */
  ghost function Select(files: seq<string>, hint: ImageArrangement): (r: Selection)
    ensures r.exhibitPath != "" ==> r.exhibitPath in files
    ensures |files| == 0 || |files| > 2 ==> r.exhibitPath == ""
    ensures r.exhibitPath != "" ==> (r.arrangement == Separate <==> |files| == 2)
  {
    if |files| == 1 then SelectOne(files[0], hint)
    else if |files| == 2 && IsImage(files[0]) && IsImage(files[1]) then SelectPair(files[0], files[1])
    else Selection(Image, hint, "", "", "", "", "", "")
  }

  /** One file: an image or a video, or nothing. */
  ghost function SelectOne(f: string, hint: ImageArrangement): (r: Selection)
    ensures r.arrangement != Separate && r.config1 == FileNameSuffix(f)
    ensures r.exhibitPath == (if IsImage(f) || IsVideo(f) then f else "")
    ensures r.media == Video <==> !IsImage(f) && IsVideo(f)
    ensures r.imagePath == "" || r.videoPath == ""
  {
    var a := if hint == Separate then LR else hint;
    var c := FileNameSuffix(f);
    if IsImage(f) then Selection(Image, a, f, "", "", "", f, c)
    else if IsVideo(f) then Selection(Video, a, "", "", "", f, f, c)
    else Selection(Image, a, "", "", "", "", "", c)
  }

  /** Two images: the RGB picture and its depth map. */
  function SelectPair(first: string, second: string): (r: Selection)
    ensures r.media == Image && r.arrangement == Separate && r.exhibitPath == r.rgbPath
    ensures multiset{r.rgbPath, r.depthPath} == multiset{first, second}
    ensures HasDepthWord(first) ==> r.depthPath == first
    ensures !HasDepthWord(first) ==> r.rgbPath == first
  {
    var k := if HasDepthWord(first) then 0 else 1;
    var pair := [first, second];
    Selection(Image, Separate, "", pair[1 - k], pair[k], "", pair[1 - k], FileNameSuffix(pair[1 - k]))
  }

  /** An image path is never empty (it has an extension). */
  lemma ImagePathNotEmpty(path: string)
    requires IsImage(path) || IsVideo(path)
    ensures |path| > 0
  {
    if path == "" {
      assert FileName(path) == "";
      NoExtensionNoMedia(path);
    }
  }

  /** The pair's picture and depth map are its two files, each used once. */
  lemma PairClassification(first: string, second: string)
    requires first != "" && second != ""
    ensures var s := SelectPair(first, second);
      && s.media == Image && s.arrangement == Separate && s.exhibitPath == s.rgbPath && s.exhibitPath != ""
      && s.imagePath == "" && s.videoPath == ""
      && multiset{s.rgbPath, s.depthPath} == multiset{first, second}
      && (HasDepthWord(first) ==> s.depthPath == first && s.rgbPath == second)
      && (!HasDepthWord(first) ==> s.depthPath == second && s.rgbPath == first)
      && s.config1 == FileNameSuffix(s.rgbPath)
  {
  }

  /** The pair as the depth map's position in it determines it. */
  lemma SelectPairByDepthAt(files: seq<string>, depthAt: nat)
    requires |files| == 2 && depthAt == (if HasDepthWord(files[0]) then 0 else 1)
    ensures SelectPair(files[0], files[1])
         == Selection(Image, Separate, "", files[1 - depthAt], files[depthAt], "", files[1 - depthAt], FileNameSuffix(files[1 - depthAt]))
  {
    var pair := [files[0], files[1]];
    assert pair[depthAt] == files[depthAt] && pair[1 - depthAt] == files[1 - depthAt];
  }

  lemma TwoFilesMultiset(files: seq<string>)
    requires |files| == 2
    ensures multiset(files) == multiset{files[0], files[1]}
  {
    assert files == [files[0], files[1]];
  }

  /** The two-file classification: the pair becomes one Separate exhibit
      named by its RGB file, with both files used once. */
  lemma TwoImageClassification(files: seq<string>, hint: ImageArrangement)
    requires |files| == 2 && IsImage(files[0]) && IsImage(files[1])
    ensures var s := Select(files, hint);
      && s.media == Image && s.arrangement == Separate && s.exhibitPath == s.rgbPath && s.exhibitPath != ""
      && multiset{s.rgbPath, s.depthPath} == multiset(files)
      && (HasDepthWord(files[0]) ==> s.depthPath == files[0] && s.rgbPath == files[1])
      && (!HasDepthWord(files[0]) ==> s.depthPath == files[1] && s.rgbPath == files[0])
      && s.config1 == FileNameSuffix(s.rgbPath)
  {
    ImagePathNotEmpty(files[0]);
    ImagePathNotEmpty(files[1]);
    PairClassification(files[0], files[1]);
    assert Select(files, hint) == SelectPair(files[0], files[1]);
    TwoFilesMultiset(files);
  }

  /** A single image or video keeps a side-by-side or stacked arrangement and
      replaces Separate by LR; anything that is neither, and any pair that is
      not two images, selects nothing. */
  lemma SingleFileClassification(files: seq<string>, hint: ImageArrangement)
    ensures var s := Select(files, hint);
      && (|files| == 1 && (IsImage(files[0]) || IsVideo(files[0])) ==>
            s.exhibitPath == files[0] && s.arrangement == (if hint == Separate then LR else hint)
            && (s.media == Video <==> !IsImage(files[0]))
            && s.config1 == FileNameSuffix(files[0]))
      && (|files| == 1 && !IsImage(files[0]) && !IsVideo(files[0]) ==> s.exhibitPath == "")
      && (|files| != 1 && !(|files| == 2 && IsImage(files[0]) && IsImage(files[1])) ==> s.exhibitPath == "")
      && (s.exhibitPath != "" ==> s.exhibitPath in files)
  {
    if |files| == 2 && IsImage(files[0]) && IsImage(files[1]) {
      TwoImageClassification(files, hint);
    }
  }

  /** The selection and the dropped flag after the fallback: when nothing
      was selected, the start image is presented instead, as not dropped. */
  ghost function Chosen(files: seq<string>, dropped: bool, hint: ImageArrangement, startImage: string): (r: (Selection, bool))
    ensures r.1 ==> dropped
  {
    var s := Select(files, hint);
    if s.exhibitPath == "" then (Select([startImage], hint), false) else (s, dropped)
  }

  /** What is presented is one of the files or else the start image, and
      only one of the files can be kept as dropped. */
  lemma ChosenPathOrigin(files: seq<string>, dropped: bool, hint: ImageArrangement, startImage: string)
    ensures var r := Chosen(files, dropped, hint, startImage);
      r.0.exhibitPath == "" || r.0.exhibitPath in files || r.0.exhibitPath == startImage
    ensures var r := Chosen(files, dropped, hint, startImage); r.1 ==> r.0.exhibitPath in files
  {
    var s := Select(files, hint);
    if s.exhibitPath == "" {
      var t := Select([startImage], hint);
      assert t.exhibitPath != "" ==> t.exhibitPath in [startImage];
    }
  }

  lemma ChosenNeverEmpty(files: seq<string>, dropped: bool, hint: ImageArrangement, startImage: string)
    requires IsImage(startImage)
    ensures Chosen(files, dropped, hint, startImage).0.exhibitPath != ""
    ensures Select(files, hint).exhibitPath == "" ==> Chosen(files, dropped, hint, startImage).0.exhibitPath == startImage
  {
    ImagePathNotEmpty(startImage);
  }

  /** The layout the providers end up with: the layout string when it
      decodes; otherwise the selected arrangement with the current projection
      and depth orientation, except that a Kandao QooCam pair is shown as a
      180-degree picture with FrontPositive depth. */
  /** A separate pair whose RGB file carries the Kandao QooCam mark. */
  predicate IsKandaoPair(s: Selection)
    ensures IsKandaoPair(s) <==> s.arrangement == Separate && exists j: nat :: MatchAt(FileNameWithoutExtension(s.rgbPath), KandaoMark, j)
  {
    IndexOfIgnoreCaseIsFirst(FileNameWithoutExtension(s.rgbPath), KandaoMark);
    s.arrangement == Separate && ContainsIgnoreCase(FileNameWithoutExtension(s.rgbPath), KandaoMark)
  }

  function LayoutOnPresent(config1: string, s: Selection, current: Layout): (r: Layout)
    ensures DecodeLayout(config1, s.arrangement).Some? ==> Some(r) == DecodeLayout(config1, s.arrangement)
    ensures DecodeLayout(config1, s.arrangement).None? ==> r.arrangement == s.arrangement
  {
    match DecodeLayout(config1, s.arrangement)
    case Some(l) => l
    case None =>
      if IsKandaoPair(s) then Layout(EquirectangularHalf, Separate, FrontPositive)
      else current.(arrangement := s.arrangement)
  }

  /** The observable state the controller changes: the catalogue, the
      presented record, the dropped flag, the providers' layout and settings,
      and the screen parameters. */
  datatype Outcome = Outcome(exhibits: seq<Record>, presenting: Presenting, dropped: bool,
                             layout: Layout, settings: Settings, screen: ScreenCodec.ScreenParams)

  /** The catalogue and the presented record after a string was written into
      one slot of the presented record (`UpdateConfig1`, `UpdateConfig2`). */
  function RecordOf(exhibits: seq<Record>, p: Presenting): Record
    requires PresentingIn(exhibits, p)
  {
    match p
    case NoExhibit => []
    case Catalogued(i) => exhibits[i]
    case Detached(r) => r
  }

  /** The catalogue and the presented record once the presented record is
      replaced by `rec`: in place when it is catalogued, every other record
      untouched. */
  function Written(exhibits: seq<Record>, p: Presenting, rec: Record): (r: (seq<Record>, Presenting))
    requires PresentingIn(exhibits, p) && !p.NoExhibit?
    ensures |r.0| == |exhibits| && PresentingIn(r.0, r.1) && RecordOf(r.0, r.1) == rec
    ensures PresentingIndex(r.1) == PresentingIndex(p) && r.1.Catalogued? == p.Catalogued? && !r.1.NoExhibit?
    ensures p.Catalogued? ==> r.0 == exhibits[p.index := rec]
    ensures p.Detached? ==> r.0 == exhibits
  {
    match p
    case Catalogued(i) => (exhibits[i := rec], p)
    case Detached(_) => (exhibits, Detached(rec))
  }

  /** `UpdateConfig1`: the layout string `config` written into the layout
      slot of the presented record, which is catalogued or detached from the
      catalogue; nothing when no record is presented. The rewritten record
      replaces the presented one, in place when it is catalogued. */
  function LayoutWritten(exhibits: seq<Record>, p: Presenting, config: string): (r: (seq<Record>, Presenting))
    requires PresentingIn(exhibits, p) && (!p.NoExhibit? ==> |RecordOf(exhibits, p)| >= 2)
    ensures PresentingIn(r.0, r.1) && |r.0| == |exhibits| && PresentingIndex(r.1) == PresentingIndex(p)
    ensures r.1.NoExhibit? == p.NoExhibit? && r.1.Catalogued? == p.Catalogued?
    ensures p.NoExhibit? ==> r == (exhibits, p)
    ensures !p.NoExhibit? ==> RecordOf(r.0, r.1) == RewriteLayoutSlot(RecordOf(exhibits, p), config)
    ensures p.Catalogued? ==> r.0 == exhibits[p.index := RecordOf(r.0, r.1)]
    ensures !p.Catalogued? ==> r.0 == exhibits
  {
    if p.NoExhibit? then (exhibits, p)
    else Written(exhibits, p, RewriteLayoutSlot(RecordOf(exhibits, p), config))
  }

  /** The presented record after `UpdateConfig1` keeps its length and its
      screen slot, holds `config` in its layout slot, and keeps its screen
      string unique. */
  lemma LayoutWrittenRecord(exhibits: seq<Record>, p: Presenting, config: string)
    requires PresentingIn(exhibits, p) && !p.NoExhibit? && |RecordOf(exhibits, p)| >= 2
    ensures var before, r := RecordOf(exhibits, p), LayoutWritten(exhibits, p, config);
      var rec := RecordOf(r.0, r.1);
      && |rec| == |before| && rec[|rec| - 2] == config && rec[|rec| - 1] == before[|before| - 1]
      && (ScreenFieldUnique(before) ==> ScreenFieldUnique(rec))
  {
    LayoutRewriteKeepsScreenUnique(RecordOf(exhibits, p), config);
  }

  /** `UpdateConfig1` keeps a well-formed catalogue well formed and the
      presented record at its length. */
  lemma LayoutWrittenKeepsShape(exhibits: seq<Record>, p: Presenting, config: string)
    requires WellFormed(exhibits) && PresentingIn(exhibits, p) && (!p.NoExhibit? ==> |RecordOf(exhibits, p)| >= 2)
    ensures var r := LayoutWritten(exhibits, p, config);
      WellFormed(r.0) && (!p.NoExhibit? ==> |RecordOf(r.0, r.1)| == |RecordOf(exhibits, p)|)
  {
  }

  /** `UpdateConfig2`: the screen string `config` written into the screen
      slot of the presented record, in the same way. */
  function ScreenWritten(exhibits: seq<Record>, p: Presenting, config: string): (r: (seq<Record>, Presenting))
    requires PresentingIn(exhibits, p) && (!p.NoExhibit? ==> |RecordOf(exhibits, p)| >= 1)
    ensures PresentingIn(r.0, r.1) && |r.0| == |exhibits| && PresentingIndex(r.1) == PresentingIndex(p)
    ensures r.1.NoExhibit? == p.NoExhibit? && r.1.Catalogued? == p.Catalogued?
    ensures p.NoExhibit? ==> r == (exhibits, p)
    ensures !p.NoExhibit? ==> RecordOf(r.0, r.1) == RewriteScreenSlot(RecordOf(exhibits, p), config)
    ensures p.Catalogued? ==> r.0 == exhibits[p.index := RecordOf(r.0, r.1)]
    ensures !p.Catalogued? ==> r.0 == exhibits
  {
    if p.NoExhibit? then (exhibits, p)
    else Written(exhibits, p, RewriteScreenSlot(RecordOf(exhibits, p), config))
  }

  /** The presented record after `UpdateConfig2` keeps its length, holds
      `config` in its screen slot, and keeps its layout slot when its old
      screen string occurred nowhere before it. */
  lemma ScreenWrittenRecord(exhibits: seq<Record>, p: Presenting, config: string)
    requires PresentingIn(exhibits, p) && !p.NoExhibit? && |RecordOf(exhibits, p)| >= 2
    ensures var before, r := RecordOf(exhibits, p), ScreenWritten(exhibits, p, config);
      var rec := RecordOf(r.0, r.1);
      && |rec| == |before| && rec[|rec| - 1] == config
      && (ScreenFieldUnique(before) ==> rec[|rec| - 2] == before[|before| - 2])
  {
    ScreenRewriteKeepsLayout(RecordOf(exhibits, p), config);
  }

  /** `UpdateConfig2` keeps a well-formed catalogue well formed and the
      presented record at its length. */
  lemma ScreenWrittenKeepsShape(exhibits: seq<Record>, p: Presenting, config: string)
    requires WellFormed(exhibits) && PresentingIn(exhibits, p) && (!p.NoExhibit? ==> |RecordOf(exhibits, p)| >= 1)
    ensures var r := ScreenWritten(exhibits, p, config);
      WellFormed(r.0) && (!p.NoExhibit? ==> |RecordOf(r.0, r.1)| == |RecordOf(exhibits, p)|)
  {
  }

  /** F4 with separate files: the presented record gets its two file
      fields swapped (the intended `SwapCompanion` for the RGB path `rgb`);
      nothing when no record is presented. */
  function Swapped(exhibits: seq<Record>, p: Presenting, rgb: string): (r: (seq<Record>, Presenting))
    requires PresentingIn(exhibits, p)
    ensures PresentingIn(r.0, r.1) && |r.0| == |exhibits| && PresentingIndex(r.1) == PresentingIndex(p)
    ensures p.NoExhibit? ==> r == (exhibits, p)
    ensures !p.NoExhibit? ==> RecordOf(r.0, r.1) == SwapCompanion(RecordOf(exhibits, p), rgb)
  {
    if p.NoExhibit? then (exhibits, p)
    else Written(exhibits, p, SwapCompanion(RecordOf(exhibits, p), rgb))
  }

  /** The swap keeps the catalogue well formed, the presented record where
      it was and its length, every other record, and the record's two
      configuration strings. */
  lemma SwappedKeepsShape(exhibits: seq<Record>, p: Presenting, rgb: string)
    requires WellFormed(exhibits) && PresentingIn(exhibits, p)
    ensures var r := Swapped(exhibits, p, rgb);
      && WellFormed(r.0) && PresentingIn(r.0, r.1) && |r.0| == |exhibits|
      && r.1.NoExhibit? == p.NoExhibit? && r.1.Catalogued? == p.Catalogued? && PresentingIndex(r.1) == PresentingIndex(p)
      && (forall k :: 0 <= k < |exhibits| && k != PresentingIndex(p) ==> r.0[k] == exhibits[k])
      && |RecordOf(r.0, r.1)| == |RecordOf(exhibits, p)|
      && (|RecordOf(exhibits, p)| >= 2 ==>
            RecordOf(r.0, r.1)[|RecordOf(exhibits, p)| - 2..] == RecordOf(exhibits, p)[|RecordOf(exhibits, p)| - 2..])
  {
    if !p.NoExhibit? {
      SwapCompanionKeepsFields(RecordOf(exhibits, p), rgb);
    }
  }

  /** Pressing F4 twice on a two-file exhibit restores the catalogue and
      the presented record: the second press swaps back with the new RGB
      path, which is the old depth path. */
  lemma SwappedTwice(exhibits: seq<Record>, p: Presenting, rgb: string)
    requires PresentingIn(exhibits, p) && !p.NoExhibit?
    requires |RecordOf(exhibits, p)| == 4 && RecordOf(exhibits, p)[0] == rgb
    ensures var r := Swapped(exhibits, p, rgb);
      PresentingIn(r.0, r.1) && Swapped(r.0, r.1, RecordOf(exhibits, p)[1]) == (exhibits, p)
  {
    var rec := RecordOf(exhibits, p);
    SwapCompanionInvolution(rec, rgb);
    var r := Swapped(exhibits, p, rgb);
    assert RecordOf(r.0, r.1) == SwapCompanion(rec, rgb);
    if p.Catalogued? {
      assert r == (exhibits[p.index := SwapCompanion(rec, rgb)], p);
      assert exhibits[p.index := SwapCompanion(rec, rgb)][p.index := rec] == exhibits;
    } else {
      assert r == (exhibits, Detached(SwapCompanion(rec, rgb)));
    }
  }

  /** `Present(List)` after the catalogue step (`CatalogOnPresent`) for the
      selection the classification and its fallback chose (`Chosen`), once
      it has settled on layout `l` and the screen parameters `screen`: the
      new settings, and both configuration strings written back
      (`UpdateConfig1`, `UpdateConfig2`). */
  function Settle(e: Entry, s: Selection, dropped: bool, l: Layout, screen: ScreenCodec.ScreenParams,
                  fmt: real -> string): (o: Outcome)
    requires PresentingIn(e.exhibits, e.presenting) && (!e.presenting.NoExhibit? ==> |RecordOf(e.exhibits, e.presenting)| >= 2)
    ensures o.layout == l && o.screen == screen && o.dropped == dropped
    ensures o.settings.arrangement == l.arrangement && o.settings.orientation == l.orientation && o.settings.media == s.media
    ensures (o.settings.imagePath, o.settings.rgbPath, o.settings.depthPath, o.settings.videoPath)
         == (s.imagePath, s.rgbPath, s.depthPath, s.videoPath)
    ensures PresentingIn(o.exhibits, o.presenting) && |o.exhibits| == |e.exhibits|
  {
    var r1 := LayoutWritten(e.exhibits, e.presenting, EncodeLayout(l));
    var r2 := ScreenWritten(r1.0, r1.1, ScreenCodec.EncodeScreen(screen, fmt));
    Outcome(r2.0, r2.1, dropped, l,
            Settings(s.media, l.arrangement, s.imagePath, s.rgbPath, s.depthPath, s.videoPath, l.orientation), screen)
  }

  /** A catalogued presented record of at least three fields ends with the
      layout and screen strings of what is shown. */
  ghost predicate RecordsShown(o: Outcome, fmt: real -> string)
  {
    o.presenting.Catalogued? ==>
      && o.presenting.index < |o.exhibits|
      && var rec := o.exhibits[o.presenting.index];
      && |rec| >= 3
      && rec[|rec| - 2] == EncodeLayout(o.layout)
      && rec[|rec| - 1] == ScreenCodec.EncodeScreen(o.screen, fmt)
  }

  /** What `Settle` keeps: the layout and screen it is given, the catalogue's
      length, and the presented record's place and length. */
  lemma SettleKeepsShape(e: Entry, s: Selection, dropped: bool, l: Layout, screen: ScreenCodec.ScreenParams,
                         fmt: real -> string)
    requires PresentingIn(e.exhibits, e.presenting) && (!e.presenting.NoExhibit? ==> |RecordOf(e.exhibits, e.presenting)| >= 2)
    ensures var o := Settle(e, s, dropped, l, screen, fmt);
      && o.layout == l && o.screen == screen && o.dropped == dropped
      && PresentingIn(o.exhibits, o.presenting) && |o.exhibits| == |e.exhibits|
      && (e.presenting.Catalogued? ==>
            o.presenting == e.presenting && |o.exhibits[o.presenting.index]| == |e.exhibits[e.presenting.index]|)
  {
  }

  /** What `Settle` writes: a catalogued record of at least three fields
      whose screen string is unique ends with the layout and screen strings
      of what is shown. */
  lemma SettleRecords(e: Entry, s: Selection, dropped: bool, l: Layout, screen: ScreenCodec.ScreenParams,
                      fmt: real -> string)
    requires PresentingIn(e.exhibits, e.presenting) && (!e.presenting.NoExhibit? ==> |RecordOf(e.exhibits, e.presenting)| >= 2)
    requires e.presenting.Catalogued? ==> |e.exhibits[e.presenting.index]| >= 3 && ScreenFieldUnique(e.exhibits[e.presenting.index])
    ensures RecordsShown(Settle(e, s, dropped, l, screen, fmt), fmt)
  {
    if e.presenting.Catalogued? {
      WrittenBack(e.exhibits, e.presenting, EncodeLayout(l), ScreenCodec.EncodeScreen(screen, fmt));
    }
  }

  /** Both write-backs on a catalogued record of at least three fields whose
      screen string is unique: the record stays in place at its length and
      ends with the two strings written. */
  lemma WrittenBack(exhibits: seq<Record>, p: Presenting, c1: string, c2: string)
    requires PresentingIn(exhibits, p) && p.Catalogued? && |exhibits[p.index]| >= 3 && ScreenFieldUnique(exhibits[p.index])
    ensures var r1 := LayoutWritten(exhibits, p, c1);
      var r2 := ScreenWritten(r1.0, r1.1, c2);
      && r2.1 == p && |r2.0| == |exhibits|
      && var rec := r2.0[p.index];
      && |rec| == |exhibits[p.index]| && rec[|rec| - 2] == c1 && rec[|rec| - 1] == c2
  {
    var r1 := LayoutWritten(exhibits, p, c1);
    var r2 := ScreenWritten(r1.0, r1.1, c2);
    LayoutWrittenRecord(exhibits, p, c1);
    var mid, rec := RecordOf(r1.0, r1.1), RecordOf(r2.0, r2.1);
    assert mid[|mid| - 2] == c1 && ScreenFieldUnique(mid);
    assert rec == RewriteScreenSlot(mid, c2);
    ScreenRewriteKeepsLayout(mid, c2);
  }

  /** One whole `Present(List)`: the classification and its fallback, then
      the chosen selection shown. */
  ghost function PresentOutcome(exhibits: seq<Record>, current: Layout, files: seq<string>, dropped: bool,
                                startImage: string, fmt: real -> string, parse: string -> Option<real>): (o: Outcome)
    requires WellFormed(exhibits)
    ensures o.settings.arrangement == o.layout.arrangement && o.settings.orientation == o.layout.orientation
    ensures o.dropped ==> dropped
  {
    var c := Chosen(files, dropped, current.arrangement, startImage);
    ShowChosen(exhibits, current, c.0, c.1, startImage, fmt, parse)
  }

  /** `PresentOutcome` for a selection known to be the chosen one. */
  lemma PresentShowsChosen(exhibits: seq<Record>, current: Layout, files: seq<string>, dropped: bool, startImage: string,
                           fmt: real -> string, parse: string -> Option<real>, s: Selection, dr: bool)
    requires WellFormed(exhibits) && (s, dr) == Chosen(files, dropped, current.arrangement, startImage)
    ensures PresentOutcome(exhibits, current, files, dropped, startImage, fmt, parse)
         == ShowChosen(exhibits, current, s, dr, startImage, fmt, parse)
  {
  }

  /** The chosen selection `s` shown: the catalogue step, then the rest. */
  function ShowChosen(exhibits: seq<Record>, current: Layout, s: Selection, dropped: bool,
                      startImage: string, fmt: real -> string, parse: string -> Option<real>): (r: Outcome)
    requires WellFormed(exhibits)
    ensures r.dropped == dropped && r.settings.media == s.media
  {
    var e := CatalogOnPresent(exhibits, s.exhibitPath, s.depthPath, dropped, startImage, s.config1);
    Settle(e, s, dropped, LayoutOnPresent(e.config1, s, current), ScreenCodec.DecodeScreen(e.config2, parse), fmt)
  }

  /** `UpdateConfig2` removes the first field equal to the old screen
      string, so the rewrites hit the slots only when that string does not
      also occur among the fields before the layout slot. The controller's
      own records satisfy this (their screen slot starts empty and their
      paths are not). */
  ghost predicate ScreenFieldUnique(rec: Record)
  {
    |rec| >= 2 ==> rec[|rec| - 1] !in rec[..|rec| - 2]
  }

  ghost predicate AllScreenFieldsUnique(exhibits: seq<Record>)
  {
    forall k :: 0 <= k < |exhibits| ==> ScreenFieldUnique(exhibits[k])
  }

  /** The record a presentation catalogues inherits the property. */
  lemma CataloguedScreenFieldUnique(exhibits: seq<Record>, path: string, depthPath: string, dropped: bool,
                                    startImage: string, config1: string)
    requires WellFormed(exhibits) && AllScreenFieldsUnique(exhibits) && path != ""
    ensures var e := CatalogOnPresent(exhibits, path, depthPath, dropped, startImage, config1);
      e.presenting.Catalogued? ==> ScreenFieldUnique(e.exhibits[e.presenting.index])
  {
    var e := CatalogOnPresent(exhibits, path, depthPath, dropped, startImage, config1);
    if e.presenting.Catalogued? && path != startImage {
      var i := FindByPath(exhibits, path);
      if i < 0 || |exhibits[i]| < 3 {
        var rec := if |depthPath| > 0 then [path, depthPath, "", ""] else [path, "", ""];
        assert e.exhibits[e.presenting.index] == rec;
        assert rec[..|rec| - 2] == if |depthPath| > 0 then [path, depthPath] else [path];
      } else if dropped {
        assert e.exhibits[e.presenting.index] == exhibits[i];
      }
    }
  }

  /** The layout rewrite leaves the screen string last and nowhere before
      the layout slot. */
  lemma LayoutRewriteAvoidsScreen(rec: Record, layout: string)
    requires |rec| >= 3 && ScreenFieldUnique(rec)
    ensures var a := RewriteLayoutSlot(rec, layout);
      a[|a| - 1] == rec[|rec| - 1] && rec[|rec| - 1] !in a[..|a| - 2]
  {
    var n := |rec|;
    var j := IndexOf(rec, rec[n - 2]);
    assert 0 <= j <= n - 2;
    var a := RewriteLayoutSlot(rec, layout);
    assert a[..n - 2] == (rec[..j] + rec[j + 1..])[..n - 2];
    DropBeforeAvoids(rec, j, n - 2, rec[n - 1]);
  }

  /** Dropping an element equal to the one at `m`, at or before `m`, moves
      nothing absent from the first `m` elements into them. */
  lemma DropBeforeAvoids<T>(s: seq<T>, j: nat, m: nat, y: T)
    requires j <= m < |s| && s[j] == s[m] && y !in s[..m]
    ensures y !in (s[..j] + s[j + 1..])[..m]
  {
    var t := (s[..j] + s[j + 1..])[..m];
    forall k | 0 <= k < m ensures t[k] != y {
      if k < j {
        assert t[k] == s[..m][k];
      } else if k + 1 < m {
        assert t[k] == s[..m][k + 1];
      } else {
        assert t[k] == s[..m][j];
      }
    }
  }

  /** The layout rewrite keeps the screen string unique. */
  lemma LayoutRewriteKeepsScreenUnique(rec: Record, layout: string)
    requires |rec| >= 2
    ensures ScreenFieldUnique(rec) ==> ScreenFieldUnique(RewriteLayoutSlot(rec, layout))
  {
    if ScreenFieldUnique(rec) && |rec| >= 3 {
      LayoutRewriteAvoidsScreen(rec, layout);
    }
  }

  /** The screen rewrite of a record whose screen string occurs nowhere
      before the layout slot keeps the layout slot. */
  lemma ScreenRewriteKeepsLayout(a: Record, screen: string)
    requires |a| >= 1
    ensures |a| >= 2 && ScreenFieldUnique(a) ==> RewriteScreenSlot(a, screen)[|a| - 2] == a[|a| - 2]
  {
    var n := |a|;
    if n >= 2 && ScreenFieldUnique(a) {
      if a[n - 2] == a[n - 1] {
        IndexOfAt(a, a[n - 1], n - 2);
      } else {
        IndexOfAt(a, a[n - 1], n - 1);
      }
    }
  }

  /** Both rewrites together keep the record's length and fill its two slots. */
  lemma SlotsWritten(rec: Record, layout: string, screen: string)
    requires |rec| >= 2 && ScreenFieldUnique(rec)
    ensures var r := RewriteScreenSlot(RewriteLayoutSlot(rec, layout), screen);
      |r| == |rec| && r[|r| - 2] == layout && r[|r| - 1] == screen
  {
    LayoutRewriteKeepsScreenUnique(rec, layout);
    ScreenRewriteKeepsLayout(RewriteLayoutSlot(rec, layout), screen);
  }

  /** A presentation of any selection that names a picture, from a
      catalogue whose records all keep their screen string unique, writes
      what it shows into the presented record. */
  lemma PresentRecordsWhatIsShown(exhibits: seq<Record>, current: Layout, files: seq<string>, dropped: bool,
                                  startImage: string, fmt: real -> string, parse: string -> Option<real>)
    requires WellFormed(exhibits) && AllScreenFieldsUnique(exhibits) && IsImage(startImage)
    ensures RecordsShown(PresentOutcome(exhibits, current, files, dropped, startImage, fmt, parse), fmt)
  {
    var c := Chosen(files, dropped, current.arrangement, startImage);
    ChosenNeverEmpty(files, dropped, current.arrangement, startImage);
    ShownRecordsWhatIsShown(exhibits, current, c.0, c.1, startImage, fmt, parse);
  }

  /** The same for a chosen selection with a path. */
  lemma ShownRecordsWhatIsShown(exhibits: seq<Record>, current: Layout, s: Selection, dropped: bool,
                                startImage: string, fmt: real -> string, parse: string -> Option<real>)
    requires WellFormed(exhibits) && AllScreenFieldsUnique(exhibits) && s.exhibitPath != ""
    ensures RecordsShown(ShowChosen(exhibits, current, s, dropped, startImage, fmt, parse), fmt)
  {
    var e := CatalogOnPresent(exhibits, s.exhibitPath, s.depthPath, dropped, startImage, s.config1);
    CataloguedScreenFieldUnique(exhibits, s.exhibitPath, s.depthPath, dropped, startImage, s.config1);
    SettleRecords(e, s, dropped, LayoutOnPresent(e.config1, s, current), ScreenCodec.DecodeScreen(e.config2, parse), fmt);
  }

  /** The start image, and the start image in place of anything the
      controller cannot show, leaves the catalogue alone and presents no
      record. */
  lemma StartImageLeavesCatalogue(exhibits: seq<Record>, current: Layout, files: seq<string>, dropped: bool,
                                  startImage: string, fmt: real -> string, parse: string -> Option<real>)
    requires WellFormed(exhibits) && IsImage(startImage)
    requires files == [startImage] || Select(files, current.arrangement).exhibitPath == ""
    ensures var o := PresentOutcome(exhibits, current, files, dropped, startImage, fmt, parse);
      o.exhibits == exhibits && o.presenting == NoExhibit && o.settings.imagePath == startImage
  {
    ChosenNeverEmpty(files, dropped, current.arrangement, startImage);
    SingleFileClassification([startImage], current.arrangement);
  }

  // ---------------------------------------------------------------------------
  // The click counter of Update (ClickAcceptancePeriod, NextClickAcceptancePeriod)

  const ClickAcceptancePeriod: real := 0.3
  const NextClickAcceptancePeriod: real := 0.2

  datatype Clicks = Clicks(elapsed: real, buttonDowned: bool, clickCount: nat)

  /** One frame of the counter given the left button's down and up events:
      the new counter and the number of clicks delivered (0 for none). A
      press continues a sequence only within 0.2 s of the last release, a
      release counts only within 0.3 s of its press, and the clicks are
      delivered once the button has stayed up for more than 0.2 s. */
  function ClickStep(c: Clicks, dt: real, down: bool, up: bool): (r: (Clicks, nat))
    ensures up ==> !r.0.buttonDowned && r.0.elapsed == 0.0 && r.1 == 0
    ensures down && !up ==> r.0.buttonDowned && r.0.elapsed == 0.0 && r.1 == 0
    ensures r.0.clickCount <= c.clickCount + 1
    ensures r.1 == 0 || r.1 == c.clickCount
  {

    var e := c.elapsed + dt;
    var c1 := if down then Clicks(0.0, true, if c.clickCount > 0 && e <= NextClickAcceptancePeriod then c.clickCount else 0)
              else c.(elapsed := e);
    var c2 := if up then Clicks(0.0, false, if c1.elapsed <= ClickAcceptancePeriod then c1.clickCount + 1 else 0)
              else c1;
    if !c2.buttonDowned && c2.clickCount > 0 && c2.elapsed > NextClickAcceptancePeriod then (c2.(clickCount := 0), c2.clickCount)
    else (c2, 0)
  }

  /** A press and release in one frame, after a pause, starts a new count of
      one; nothing is delivered while the count is being built. */
  lemma ClickCounting(c: Clicks, dt: real)
    requires dt >= 0.0
    ensures ClickStep(c, dt, true, true).0 == Clicks(0.0, false,
      (if c.clickCount > 0 && c.elapsed + dt <= NextClickAcceptancePeriod then c.clickCount else 0) + 1)
    ensures ClickStep(c, dt, true, true).1 == 0 && ClickStep(c, dt, true, false).1 == 0
  {
  }

  /** Two quick clicks and a pause deliver a double click, exactly once. */
  lemma DoubleClickDelivered()
    ensures var a := ClickStep(Clicks(1.0, false, 0), 0.05, true, false);
      var b := ClickStep(a.0, 0.05, false, true);
      var c := ClickStep(b.0, 0.05, true, false);
      var d := ClickStep(c.0, 0.05, false, true);
      var e := ClickStep(d.0, 0.25, false, false);
      var f := ClickStep(e.0, 0.25, false, false);
      a.1 == 0 && b.1 == 0 && c.1 == 0 && d.1 == 0 && e.1 == 2 && f.1 == 0
  {
  }

  /** A delivered count is what was built up, and the counter restarts. */
  lemma DeliveryResets(c: Clicks, dt: real, down: bool, up: bool)
    ensures var (c', n) := ClickStep(c, dt, down, up);
      n > 0 ==>
        c'.clickCount == 0 && !c'.buttonDowned && c'.elapsed > NextClickAcceptancePeriod && !down && !up && n == c.clickCount
  {
  }
}
