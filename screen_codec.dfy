/** The screen configuration string of an exhibit (MainController.cs,
    `ParseConfig2` and `UpdateConfig2`): `Z<position> S<scale> D<depth>`.

    Number formatting (`ToString("0.00")`) and parsing (`float.TryParse`)
    depend on the culture and on floating point; the model takes them as
    parameters `fmt` and `parse`, and the round trip states what it needs
    of them. */
module ScreenCodec {
  import opened Lists
  import opened Optional
  import opened Screen

  datatype ScreenParams = ScreenParams(position: real, scale: real, depth: real)

  const Initial := ScreenParams(PositionInitial, ScaleInitial, DepthInitial)

  /** `UpdateConfig2`: the screen string written into the exhibit record. */
  function EncodeScreen(p: ScreenParams, fmt: real -> string): (r: string)
    ensures |r| >= 5 && r[0] == 'Z'
  {
    "Z" + fmt(p.position) + " S" + fmt(p.scale) + " D" + fmt(p.depth)
  }

  /** The guard of `ParseConfig2`: the first Z, S and D occur in that order,
      with at least one character after the D. */
  predicate MarkersInOrder(config: string)
  {
    var z, s, d := IndexOf(config, 'Z'), IndexOf(config, 'S'), IndexOf(config, 'D');
    0 <= z < s < d < |config| - 1
  }

  /** `ParseConfig2` without its effect on the output screen: the parameters
      it assigns. Each field is parsed on its own and keeps its initial value
      when its text does not parse. */
  function DecodeScreen(config: string, parse: string -> Option<real>): (r: ScreenParams)
    ensures !MarkersInOrder(config) ==> r == Initial
  {
    var z, s, d := IndexOf(config, 'Z'), IndexOf(config, 'S'), IndexOf(config, 'D');
    if 0 <= z < s < d < |config| - 1 then
      ScreenParams(parse(config[z + 1..s]).GetOr(PositionInitial),
                   parse(config[s + 1..d]).GetOr(ScaleInitial),
                   parse(config[d + 1..]).GetOr(DepthInitial))
    else Initial
  }

  // ---------------------------------------------------------------------------
  // Properties

  /** What the round trip needs of the number format: its output holds no
      marker letter, is not empty, and reads back (a trailing blank, which
      `float.TryParse` allows, included for the first two fields). */
  ghost predicate FormatReadsBack(p: ScreenParams, fmt: real -> string, parse: string -> Option<real>)
  {
    && (forall x :: 'Z' !in fmt(x) && 'S' !in fmt(x) && 'D' !in fmt(x))
    && |fmt(p.depth)| > 0
    && parse(fmt(p.position) + " ") == Some(p.position)
    && parse(fmt(p.scale) + " ") == Some(p.scale)
    && parse(fmt(p.depth)) == Some(p.depth)
  }

  /** Where the markers of an encoded string are. */
  lemma EncodedMarkers(p: ScreenParams, fmt: real -> string)
    requires forall x :: 'Z' !in fmt(x) && 'S' !in fmt(x) && 'D' !in fmt(x)
    ensures var c, a, b := EncodeScreen(p, fmt), |fmt(p.position)|, |fmt(p.scale)|;
      && IndexOf(c, 'Z') == 0
      && IndexOf(c, 'S') == a + 2
      && IndexOf(c, 'D') == a + b + 4
  {
    var c := EncodeScreen(p, fmt);
    var x, y, w := fmt(p.position), fmt(p.scale), fmt(p.depth);
    var a, b := |x|, |y|;
    assert c == "Z" + x + " S" + y + " D" + w;
    IndexOfAt(c, 'Z', 0);
    forall k | 0 <= k < a + 2 ensures c[k] != 'S' {
      if 1 <= k <= a { assert c[k] == x[k - 1]; }
    }
    IndexOfAt(c, 'S', a + 2);
    forall k | 0 <= k < a + b + 4 ensures c[k] != 'D' {
      if 1 <= k <= a { assert c[k] == x[k - 1]; }
      else if a + 3 <= k < a + b + 3 { assert c[k] == y[k - a - 3]; }
    }
    IndexOfAt(c, 'D', a + b + 4);
  }

  /** The three field texts an encoded string yields to the parser. */
  lemma EncodedFields(p: ScreenParams, fmt: real -> string)
    requires forall x :: 'Z' !in fmt(x) && 'S' !in fmt(x) && 'D' !in fmt(x)
    ensures var c, a, b := EncodeScreen(p, fmt), |fmt(p.position)|, |fmt(p.scale)|;
      && c[1..a + 2] == fmt(p.position) + " "
      && c[a + 3..a + b + 4] == fmt(p.scale) + " "
      && c[a + b + 5..] == fmt(p.depth)
  {
    var c := EncodeScreen(p, fmt);
    var x, y, w := fmt(p.position), fmt(p.scale), fmt(p.depth);
    var a, b := |x|, |y|;
    assert c == "Z" + x + " S" + y + " D" + w;
    assert c[1..a + 2] == x + " ";
    assert c[a + 3..a + b + 4] == y + " ";
    assert c[a + b + 5..] == w;
  }

  /** Decoding what `UpdateConfig2` wrote gives back the three parameters. */
  lemma {:induction false} ScreenRoundTrip(p: ScreenParams, fmt: real -> string, parse: string -> Option<real>)
    requires FormatReadsBack(p, fmt, parse)
    ensures MarkersInOrder(EncodeScreen(p, fmt))
    ensures DecodeScreen(EncodeScreen(p, fmt), parse) == p
  {
    var c := EncodeScreen(p, fmt);
    EncodedMarkers(p, fmt);
    EncodedFields(p, fmt);
    var a, b := |fmt(p.position)|, |fmt(p.scale)|;
    assert |c| == a + b + 5 + |fmt(p.depth)|;
    ReadFields(c, 0, a + 2, a + b + 4, parse, p);
  }

  /** With the markers at `z < s < d`, the decoder reads the three texts between them. */
  lemma ReadFields(c: string, z: nat, s: nat, d: nat, parse: string -> Option<real>, p: ScreenParams)
    requires z < s < d < |c| - 1
    requires IndexOf(c, 'Z') == z && IndexOf(c, 'S') == s && IndexOf(c, 'D') == d
    requires parse(c[z + 1..s]) == Some(p.position)
    requires parse(c[s + 1..d]) == Some(p.scale)
    requires parse(c[d + 1..]) == Some(p.depth)
    ensures MarkersInOrder(c) && DecodeScreen(c, parse) == p
  {
  }

  /** Markers out of order: every field keeps its initial value. */
  lemma MarkersOutOfOrder(parse: string -> Option<real>)
    ensures DecodeScreen("S1 Z2 D3", parse) == Initial
  {
    var c := "S1 Z2 D3";
    IndexOfAt(c, 'Z', 3);
    IndexOfAt(c, 'S', 0);
  }

  /** The empty string (a freshly catalogued record) gives the initial values. */
  lemma EmptyScreenConfig(parse: string -> Option<real>)
    ensures DecodeScreen("", parse) == Initial
  {
  }

  /** A field whose text does not parse keeps its initial value, the others
      are still read. */
  lemma FieldsParsedIndependently(p: ScreenParams, fmt: real -> string, parse: string -> Option<real>)
    requires forall x :: 'Z' !in fmt(x) && 'S' !in fmt(x) && 'D' !in fmt(x)
    requires |fmt(p.depth)| > 0
    requires parse(fmt(p.position) + " ") == None
    requires parse(fmt(p.scale) + " ") == Some(p.scale)
    requires parse(fmt(p.depth)) == Some(p.depth)
    ensures DecodeScreen(EncodeScreen(p, fmt), parse) == ScreenParams(PositionInitial, p.scale, p.depth)
  {
    EncodedMarkers(p, fmt);
    EncodedFields(p, fmt);
  }
}
