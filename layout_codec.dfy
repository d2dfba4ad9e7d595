/** The layout configuration string of an exhibit (MainController.cs,
    `ParseConfig1` and `UpdateConfig1`) and the F1–F4 parameter cyclers.

    The encoder concatenates a projection keyword (`180`, `360` or
    `RECTANGLE`), an arrangement keyword (`LR`, `RL`, `TB`, `BT`, nothing for
    Separate) and `INV` for a FrontNegative depth orientation. The decoder
    looks for each keyword anywhere in the string, ignoring ASCII case, takes the
    first hit of each group in the order above, and accepts the string only
    when the lengths of the keywords it found add up to the string's length. */
module LayoutCodec {
  import opened Text
  import opened Optional
  import opened ProviderTypes

  /** MainController.SourceImageProjection. */
  datatype Projection = EquirectangularHalf | EquirectangularFull | Rectangular

  /** The display parameters one layout string records. */
  datatype Layout = Layout(projection: Projection, arrangement: ImageArrangement, orientation: ZAxisOrientation)

  const KeywordHalf := "180"
  const KeywordFull := "360"
  const KeywordRectangle := "RECTANGLE"
  const KeywordLR := "LR"
  const KeywordRL := "RL"
  const KeywordTB := "TB"
  const KeywordBT := "BT"
  const KeywordInverted := "INV"

  function ProjectionKeyword(p: Projection): string
  {
    match p
    case EquirectangularHalf => KeywordHalf
    case EquirectangularFull => KeywordFull
    case Rectangular => KeywordRectangle
  }

  function ArrangementKeyword(a: ImageArrangement): string
  {
    match a
    case LR => KeywordLR
    case RL => KeywordRL
    case TB => KeywordTB
    case BT => KeywordBT
    case Separate => ""
  }

  function OrientationKeyword(z: ZAxisOrientation): string
  {
    if z == FrontNegative then KeywordInverted else ""
  }

  /** `UpdateConfig1`: the layout string written into the exhibit record. */
  function EncodeLayout(l: Layout): (r: string)
    ensures 3 <= |r| <= 14
  {
    ProjectionKeyword(l.projection) + ArrangementKeyword(l.arrangement) + OrientationKeyword(l.orientation)
  }

  /** The projection group of `ParseConfig1`: the first keyword found, in the
      order 180, 360, RECTANGLE, with its length; Rectangular and 0 when none is. */
  function MatchProjection(config: string): (r: (Projection, nat))
    ensures r.1 > 0 ==> ContainsIgnoreCase(config, ProjectionKeyword(r.0)) && r.1 == |ProjectionKeyword(r.0)|
    ensures r.1 == 0 <==> !ContainsIgnoreCase(config, KeywordHalf) && !ContainsIgnoreCase(config, KeywordFull)
                          && !ContainsIgnoreCase(config, KeywordRectangle)
    ensures r.0 != EquirectangularHalf ==> !ContainsIgnoreCase(config, KeywordHalf)
  {
    if ContainsIgnoreCase(config, KeywordHalf) then (EquirectangularHalf, |KeywordHalf|)
    else if ContainsIgnoreCase(config, KeywordFull) then (EquirectangularFull, |KeywordFull|)
    else if ContainsIgnoreCase(config, KeywordRectangle) then (Rectangular, |KeywordRectangle|)
    else (Rectangular, 0)
  }

  /** The arrangement group: skipped when the hint is Separate; otherwise the
      first keyword found in the order LR, RL, TB, BT, and LR with length 0
      when none is. */
  function MatchArrangement(config: string, hint: ImageArrangement): (r: (ImageArrangement, nat))
    ensures hint == Separate <==> r.0 == Separate
    ensures r.1 > 0 ==> ContainsIgnoreCase(config, ArrangementKeyword(r.0)) && r.1 == |ArrangementKeyword(r.0)|
    ensures hint != Separate && r.1 == 0 ==>
      (r.0 == LR && !ContainsIgnoreCase(config, KeywordLR) && !ContainsIgnoreCase(config, KeywordRL)
       && !ContainsIgnoreCase(config, KeywordTB) && !ContainsIgnoreCase(config, KeywordBT))
  {
    if hint == Separate then (Separate, 0)
    else if ContainsIgnoreCase(config, KeywordLR) then (LR, |KeywordLR|)
    else if ContainsIgnoreCase(config, KeywordRL) then (RL, |KeywordRL|)
    else if ContainsIgnoreCase(config, KeywordTB) then (TB, |KeywordTB|)
    else if ContainsIgnoreCase(config, KeywordBT) then (BT, |KeywordBT|)
    else (LR, 0)
  }

  function MatchOrientation(config: string): (r: (ZAxisOrientation, nat))
    ensures r.0 == FrontNegative <==> ContainsIgnoreCase(config, KeywordInverted)
    ensures r.1 == |OrientationKeyword(r.0)|
  {

    if ContainsIgnoreCase(config, KeywordInverted) then (FrontNegative, |KeywordInverted|)
    else (FrontPositive, 0)
  }

  /** `ParseConfig1` without its effect on the providers: the decoded layout,
      or None when the string is rejected. */
  function DecodeLayout(config: string, hint: ImageArrangement): (r: Option<Layout>)
    ensures |config| < 2 ==> r.None?
    ensures r.Some? ==> (r.value.arrangement == Separate <==> hint == Separate)
  {
    if |config| < 2 then None
    else
      var (p, lp) := MatchProjection(config);
      var (a, la) := MatchArrangement(config, hint);
      var (z, lz) := MatchOrientation(config);
      if lp + la + lz == |config| then Some(Layout(p, a, z)) else None
  }

  // ---------------------------------------------------------------------------
  // Properties of the codec

  /** No character of `s` is `c` in either case. */
  ghost predicate Avoids(s: string, c: char)
  {
    forall i :: 0 <= i < |s| ==> Upper(s[i]) != Upper(c)
  }

  /** No two neighbouring characters of `s` read `a` then `b`, in either case. */
  ghost predicate AvoidsPair(s: string, a: char, b: char)
  {
    forall i :: 0 <= i < |s| - 1 ==> !(Upper(s[i]) == Upper(a) && Upper(s[i + 1]) == Upper(b))
  }

  /** The digit 8 belongs to `180` alone, 6 to `360` alone and V to `INV` alone. */
  lemma MarkerCharacters(l: Layout)
    ensures l.projection != EquirectangularHalf ==> Avoids(EncodeLayout(l), '8')
    ensures l.projection == Rectangular ==> Avoids(EncodeLayout(l), '6')
    ensures l.orientation == FrontPositive ==> Avoids(EncodeLayout(l), 'V')
  {
    var s := EncodeLayout(l);
    match l.arrangement
    case LR =>
    case RL =>
    case TB =>
    case BT =>
    case Separate =>
  }

  /** Two strings that avoid a pair avoid it together too, unless the pair
      straddles the join. */
  lemma AvoidsPairConcat(x: string, y: string, a: char, b: char)
    requires AvoidsPair(x, a, b) && AvoidsPair(y, a, b)
    requires |x| > 0 && |y| > 0 ==> !(Upper(x[|x| - 1]) == Upper(a) && Upper(y[0]) == Upper(b))
    ensures AvoidsPair(x + y, a, b)
  {
    var s := x + y;
    forall i | 0 <= i < |s| - 1 ensures !(Upper(s[i]) == Upper(a) && Upper(s[i + 1]) == Upper(b)) {
      if i + 1 < |x| {
        assert s[i] == x[i] && s[i + 1] == x[i + 1];
      } else if i + 1 == |x| {
        assert s[i] == x[|x| - 1] && s[i + 1] == y[0];
      } else {
        assert s[i] == y[i - |x|] && s[i + 1] == y[i + 1 - |x|];
      }
    }
  }

  /** The arrangement keywords searched for before the encoded one do not occur in
      the encoding: `LR` is absent unless it was written ... */
  lemma LRAbsent(l: Layout)
    requires l.arrangement in {RL, TB, BT}
    ensures AvoidsPair(EncodeLayout(l), 'L', 'R')
  {
    var p, r, z := ProjectionKeyword(l.projection), ArrangementKeyword(l.arrangement), OrientationKeyword(l.orientation);
    AvoidsPairConcat(p, r, 'L', 'R');
    AvoidsPairConcat(p + r, z, 'L', 'R');
  }

  /** ... `RL` is absent from a TB or BT encoding ... */
  lemma RLAbsent(l: Layout)
    requires l.arrangement in {TB, BT}
    ensures AvoidsPair(EncodeLayout(l), 'R', 'L')
  {
    var p, r, z := ProjectionKeyword(l.projection), ArrangementKeyword(l.arrangement), OrientationKeyword(l.orientation);
    AvoidsPairConcat(p, r, 'R', 'L');
    AvoidsPairConcat(p + r, z, 'R', 'L');
  }

  /** ... and `TB` from a BT encoding. */
  lemma TBAbsent(l: Layout)
    requires l.arrangement == BT
    ensures AvoidsPair(EncodeLayout(l), 'T', 'B')
  {
    var p, r, z := ProjectionKeyword(l.projection), ArrangementKeyword(l.arrangement), OrientationKeyword(l.orientation);
    AvoidsPairConcat(p, r, 'T', 'B');
    AvoidsPairConcat(p + r, z, 'T', 'B');
  }

  lemma ProjectionRoundTrip(l: Layout)
    ensures MatchProjection(EncodeLayout(l)) == (l.projection, |ProjectionKeyword(l.projection)|)
  {
    var s := EncodeLayout(l);
    var rest := ArrangementKeyword(l.arrangement) + OrientationKeyword(l.orientation);
    assert s == "" + ProjectionKeyword(l.projection) + rest;
    InfixMatches(s, "", ProjectionKeyword(l.projection), rest);
    MarkerCharacters(l);
    if l.projection != EquirectangularHalf {
      AbsentByChar(s, KeywordHalf, 1);
    }
    if l.projection == Rectangular {
      AbsentByChar(s, KeywordFull, 1);
    }
  }

  lemma ArrangementRoundTrip(l: Layout)
    ensures MatchArrangement(EncodeLayout(l), l.arrangement) == (l.arrangement, |ArrangementKeyword(l.arrangement)|)
  {
    var s := EncodeLayout(l);
    var p := ProjectionKeyword(l.projection);
    var z := OrientationKeyword(l.orientation);
    if l.arrangement != Separate {
      InfixMatches(s, p, ArrangementKeyword(l.arrangement), z);
      if l.arrangement in {RL, TB, BT} {
        LRAbsent(l);
        AbsentByPair(s, KeywordLR);
      }
      if l.arrangement in {TB, BT} {
        RLAbsent(l);
        AbsentByPair(s, KeywordRL);
      }
      if l.arrangement == BT {
        TBAbsent(l);
        AbsentByPair(s, KeywordTB);
      }
    }
  }

  lemma OrientationRoundTrip(l: Layout)
    ensures MatchOrientation(EncodeLayout(l)) == (l.orientation, |OrientationKeyword(l.orientation)|)
  {
    var s := EncodeLayout(l);
    if l.orientation == FrontNegative {
      assert s == ProjectionKeyword(l.projection) + ArrangementKeyword(l.arrangement) + KeywordInverted + "";
      InfixMatches(s, ProjectionKeyword(l.projection) + ArrangementKeyword(l.arrangement), KeywordInverted, "");
    } else {
      MarkerCharacters(l);
      AbsentByChar(s, KeywordInverted, 2);
    }
  }

  /** Decoding what `UpdateConfig1` wrote, with the arrangement it was written
      for as the hint, gives back the projection, arrangement and depth
      orientation (a Separate layout carries no arrangement keyword; the hint
      supplies it). */
  lemma {:induction false} LayoutRoundTrip(l: Layout)
    ensures DecodeLayout(EncodeLayout(l), l.arrangement) == Some(l)
  {
    ProjectionRoundTrip(l);
    ArrangementRoundTrip(l);
    OrientationRoundTrip(l);
  }

  /** A keyword list followed by anything else is rejected: the lengths no longer add up. */
  lemma TrailingCharacterRejected(hint: ImageArrangement)
    requires hint != Separate
    ensures DecodeLayout(KeywordHalf + KeywordLR + "X", hint) == None
  {
    var s := KeywordHalf + KeywordLR + "X";
    assert ContainsIgnoreCase(s, KeywordHalf) by { InfixMatches(s, "", KeywordHalf, KeywordLR + "X"); }
    assert ContainsIgnoreCase(s, KeywordLR) by { InfixMatches(s, KeywordHalf, KeywordLR, "X"); }
    assert !ContainsIgnoreCase(s, KeywordInverted) by { AbsentByChar(s, KeywordInverted, 2); }
  }

  /** A projection keyword alone is enough outside Separate: the arrangement
      defaults to LR and the orientation to FrontPositive. */
  lemma ProjectionAloneAccepted(hint: ImageArrangement)
    requires hint != Separate
    ensures DecodeLayout(KeywordHalf, hint) == Some(Layout(EquirectangularHalf, LR, FrontPositive))
  {
    var s := KeywordHalf;
    assert ContainsIgnoreCase(s, KeywordHalf) by { InfixMatches(s, "", KeywordHalf, ""); }
    AbsentByChar(s, KeywordLR, 0);
    AbsentByChar(s, KeywordRL, 0);
    AbsentByChar(s, KeywordTB, 0);
    AbsentByChar(s, KeywordBT, 0);
    AbsentByChar(s, KeywordInverted, 0);
    assert MatchArrangement(s, hint) == (LR, 0);
  }

  /** `L` + `RECTANGLE` + `X` holds `RECTANGLE` and, across its first letter, `LR`. */
  lemma OverlapKeywordsPresent(s: string)
    requires s == "L" + KeywordRectangle + "X"
    ensures ContainsIgnoreCase(s, KeywordRectangle) && ContainsIgnoreCase(s, KeywordLR)
  {
    InfixMatches(s, "L", KeywordRectangle, "X");
    assert s[0] == 'L' && s[1] == 'R';
    FoundAt(s, KeywordLR, 0);
  }

  /** `L` + `RECTANGLE` + `X` holds none of `180`, `360` and `INV`. */
  lemma OverlapKeywordsAbsent(s: string)
    requires s == "L" + KeywordRectangle + "X"
    ensures !ContainsIgnoreCase(s, KeywordHalf) && !ContainsIgnoreCase(s, KeywordFull)
    ensures !ContainsIgnoreCase(s, KeywordInverted)
  {
    FramedAvoids(KeywordRectangle, '1');
    AbsentByChar(s, KeywordHalf, 0);
    FramedAvoids(KeywordRectangle, '3');
    AbsentByChar(s, KeywordFull, 0);
    FramedAvoids(KeywordRectangle, 'V');
    AbsentByChar(s, KeywordInverted, 2);
  }

  /** Keywords are matched by presence, not parsed: two keywords sharing a
      letter leave room for one stray character. `LRECTANGLEX` holds `LR` and
      `RECTANGLE` (overlapping in R), 2 + 9 = 11 characters, and is accepted. */
  lemma OverlappingKeywordsAccepted(hint: ImageArrangement)
    requires hint != Separate
    ensures DecodeLayout("L" + KeywordRectangle + "X", hint) == Some(Layout(Rectangular, LR, FrontPositive))
  {
    var s := "L" + KeywordRectangle + "X";
    OverlapKeywordsPresent(s);
    OverlapKeywordsAbsent(s);
    assert MatchProjection(s) == (Rectangular, 9);
    assert MatchArrangement(s, hint) == (LR, 2);
    assert MatchOrientation(s) == (FrontPositive, 0);
  }

  /** A character is avoided by `L` + `k` + `X` when it is avoided by `k` and is neither L nor X. */
  lemma FramedAvoids(k: string, c: char)
    requires Avoids(k, c) && Upper(c) != 'L' && Upper(c) != 'X'
    ensures Avoids("L" + k + "X", c)
  {
    var s := "L" + k + "X";
    forall i | 0 <= i < |s| ensures Upper(s[i]) != Upper(c) {
      if 0 < i <= |k| { assert s[i] == k[i - 1]; }
    }
  }

  // ---------------------------------------------------------------------------
  // The F1–F4 cyclers (ChangeDepthOrientation, ChangeSourceImageProjection,
  // ChangeSourceImageArrangementDirection, ChangeSourceImageArrangementOrder)

  /** F2: Half → Full → Rectangular → Half. */
  function NextProjection(p: Projection): (r: Projection)
    ensures r != p
  {
    match p
    case EquirectangularHalf => EquirectangularFull
    case EquirectangularFull => Rectangular
    case Rectangular => EquirectangularHalf
  }

  /** F3: side by side ↔ stacked, keeping which half comes first. */
  function ToggleDirection(a: ImageArrangement): (r: ImageArrangement)
    ensures (a == Separate) == (r == Separate)
    ensures a != Separate ==> r != a
  {
    match a
    case LR => TB
    case RL => BT
    case TB => LR
    case BT => RL
    case Separate => Separate
  }

  /** F4: swap which half is RGB. Separate is handled by swapping the two
      file paths instead (see Exhibits.SwapCompanion). */
  function ToggleOrder(a: ImageArrangement): (r: ImageArrangement)
    ensures (a == Separate) == (r == Separate)
    ensures a != Separate ==> r != a
  {
    match a
    case LR => RL
    case RL => LR
    case TB => BT
    case BT => TB
    case Separate => Separate
  }

  /** F1. */
  function FlipOrientation(z: ZAxisOrientation): (r: ZAxisOrientation)
    ensures r != z
  {
    if z == FrontPositive then FrontNegative else FrontPositive
  }

  /** Three presses of F2 come back to the start, and no fewer do. */
  lemma ProjectionCycle(p: Projection)
    ensures NextProjection(NextProjection(NextProjection(p))) == p
    ensures NextProjection(NextProjection(p)) != p
  {
  }

  /** F1, F3 and F4 undo themselves, and F3 and F4 commute. */
  lemma TogglesAreInvolutions(a: ImageArrangement, z: ZAxisOrientation)
    ensures ToggleDirection(ToggleDirection(a)) == a
    ensures ToggleOrder(ToggleOrder(a)) == a
    ensures ToggleDirection(ToggleOrder(a)) == ToggleOrder(ToggleDirection(a))
    ensures FlipOrientation(FlipOrientation(z)) == z
  {
  }
}
