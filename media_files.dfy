/** File-name helpers of MainController.cs: the parts of `System.IO.Path`
    it uses, the extension allow-lists of `IsImageFile`/`IsVideoFile`,
    `GetFileNameSuffix`, and the depth-companion search of `Present(string)`.
    `File.Exists` is an oracle `exists` supplied by the caller. */
module MediaFiles {
  import opened Text
  import opened Lists
  import opened Optional

  // ---------------------------------------------------------------------------
  // Path parts (directory separators `/` and `\`)

  const Backslash: char := 92 as char

  predicate IsSeparator(c: char)
  {
    c == '/' || c == Backslash
  }

  /** Index of the last directory separator, or -1. */
  function LastSeparator(path: string): (r: int)
    ensures -1 <= r < |path|
    ensures r >= 0 ==> IsSeparator(path[r])
    ensures forall k :: r < k < |path| ==> !IsSeparator(path[k])
  {
    var a, b := LastIndexOf(path, '/'), LastIndexOf(path, Backslash);
    if a >= b then a else b
  }

  /** `Path.GetFileName`. */
  function FileName(path: string): (r: string)
    ensures forall k :: 0 <= k < |r| ==> !IsSeparator(r[k])
  {
    path[LastSeparator(path) + 1..]
  }

  /** `Path.GetExtension`: from the last `.` of the file name on, or empty
      when there is no `.` or it is the last character. */
  function Extension(path: string): (r: string)
    ensures r == "" || (r[0] == '.' && |r| >= 2 && '.' !in r[1..])
  {
    var name := FileName(path);
    var dot := LastIndexOf(name, '.');
    if dot < 0 || dot == |name| - 1 then "" else name[dot..]
  }

  /** `Path.GetFileNameWithoutExtension`: the file name up to its last `.`. */
  function FileNameWithoutExtension(path: string): (r: string)
    ensures |r| <= |FileName(path)| && r == FileName(path)[..|r|]
    ensures Extension(path) != "" ==> FileName(path) == r + Extension(path)
  {
    var name := FileName(path);
    var dot := LastIndexOf(name, '.');
    if dot < 0 then name else name[..dot]
  }

  /** `Path.GetDirectoryName`: everything before the last separator, or empty. */
  function DirectoryName(path: string): (r: string)
    ensures |r| <= |path| && r == path[..|r|]
    ensures r != "" ==> |r| < |path| && IsSeparator(path[|r|]) && FileName(path) == path[|r| + 1..]
    ensures forall k :: |r| < k < |path| ==> !IsSeparator(path[k])
  {

    var sep := LastSeparator(path);
    if sep < 0 then "" else path[..sep]
  }

  /** Composing a path from its parts and taking it apart again gives the parts back. */
  lemma {:induction false} PathPartsRoundTrip(dir: string, stem: string, ext: string)
    requires forall k :: 0 <= k < |stem| ==> !IsSeparator(stem[k]) && stem[k] != '.'
    requires |ext| >= 2 && ext[0] == '.'
    requires forall k :: 1 <= k < |ext| ==> !IsSeparator(ext[k]) && ext[k] != '.'
    ensures DirectoryName(dir + "/" + stem + ext) == dir
    ensures FileNameWithoutExtension(dir + "/" + stem + ext) == stem
    ensures Extension(dir + "/" + stem + ext) == ext
  {
    var path := dir + "/" + stem + ext;
    var name := stem + ext;
    assert path[|dir|] == '/';
    forall k | |dir| < k < |path| ensures !IsSeparator(path[k]) {
      if k <= |dir| + |stem| { assert path[k] == stem[k - |dir| - 1]; }
      else { assert path[k] == ext[k - |dir| - 1 - |stem|]; }
    }
    assert LastSeparator(path) == |dir|;
    assert FileName(path) == name;
    assert name[|stem|] == '.';
    forall k | |stem| < k < |name| ensures name[k] != '.' {
      assert name[k] == ext[k - |stem|];
    }
    assert '.' !in name[|stem| + 1..];
    assert LastIndexOf(name, '.') == |stem|;
    assert path[..|dir|] == dir;
    assert name[..|stem|] == stem;
    assert name[|stem|..] == ext;
  }

  // ---------------------------------------------------------------------------
  // Media types

  const ImageExtensions: seq<string> := [".bmp", ".gif", ".iff", ".jpg", ".pict", ".png", ".psd", ".tga", ".tif", ".tiff"]
  const VideoExtensions: seq<string> := [".asf", ".avi", ".mov", ".mp4", ".mpeg", ".mpg"]

  /** The extension of `path` equals one of `extensions`, ignoring ASCII case. */
  ghost predicate ExtensionListed(path: string, extensions: seq<string>)
  {
    exists i :: 0 <= i < |extensions| && EqualsIgnoreCase(Extension(path), extensions[i])
  }

  ghost predicate IsImage(path: string)
  {
    ExtensionListed(path, ImageExtensions)
  }

  ghost predicate IsVideo(path: string)
  {
    ExtensionListed(path, VideoExtensions)
  }

  /** The `foreach` of `IsImageFile`/`IsVideoFile`: compare the extension
      with each listed one in turn, stopping at the first that matches. */
  method HasListedExtension(path: string, extensions: seq<string>) returns (b: bool)
    ensures b <==> ExtensionListed(path, extensions)
  {
    var extension := Extension(path);
    var i := 0;
    while i < |extensions|
      invariant 0 <= i <= |extensions|
      invariant forall j :: 0 <= j < i ==> !EqualsIgnoreCase(extension, extensions[j])
    {
      if EqualsIgnoreCase(extension, extensions[i]) {
        return true;
      }
      i := i + 1;
    }
    return false;
  }

  method IsImageFile(path: string) returns (b: bool)
    ensures b <==> IsImage(path)
  {
    b := HasListedExtension(path, ImageExtensions);
  }

  method IsVideoFile(path: string) returns (b: bool)
    ensures b <==> IsVideo(path)
  {
    b := HasListedExtension(path, VideoExtensions);
  }

  /** A path ending in a listed extension, ignoring ASCII case, is recognised. */
  lemma ListedExtensionRecognised(path: string, extensions: seq<string>, i: nat)
    requires i < |extensions| && EqualsIgnoreCase(Extension(path), extensions[i])
    ensures ExtensionListed(path, extensions)
  {
  }

  /** A path without an extension is neither an image nor a video. */
  lemma NoExtensionNoMedia(path: string)
    requires Extension(path) == ""
    ensures !IsImage(path) && !IsVideo(path)
  {
    forall i | 0 <= i < |ImageExtensions| ensures !EqualsIgnoreCase(Extension(path), ImageExtensions[i]) {
      assert |ImageExtensions[i]| >= 4;
    }
    forall i | 0 <= i < |VideoExtensions| ensures !EqualsIgnoreCase(Extension(path), VideoExtensions[i]) {
      assert |VideoExtensions[i]| >= 4;
    }
  }

  // ---------------------------------------------------------------------------
  // GetFileNameSuffix

  /** `GetFileNameSuffix`: the part of the file name (without extension)
      after its last `_`, or empty when there is none or nothing follows it. */
  function FileNameSuffix(path: string): (r: string)
    ensures '_' !in r
  {
    var name := FileNameWithoutExtension(path);
    var underbar := LastIndexOf(name, '_');
    if underbar >= 0 && underbar < |name| - 1 then name[underbar + 1..] else ""
  }

  /** The suffix is what follows the last `_` of the name: `Fuyu1_180LR.jpg` gives `180LR`. */
  lemma {:induction false} SuffixAfterLastUnderbar(path: string, head: string, tail: string)
    requires FileNameWithoutExtension(path) == head + "_" + tail
    requires '_' !in tail
    ensures FileNameSuffix(path) == tail
  {
    var name := head + "_" + tail;
    assert name[|head|] == '_';
    assert name[|head| + 1..] == tail;
    assert LastIndexOf(name, '_') == |head|;
  }

  /** A name without `_` has an empty suffix. */
  lemma NoUnderbarNoSuffix(path: string)
    requires '_' !in FileNameWithoutExtension(path)
    ensures FileNameSuffix(path) == ""
  {
  }

  // ---------------------------------------------------------------------------
  // The depth-companion search of Present(string)

  const DepthPrefix := "depth_"
  const DepthSuffix := "_depth"

  /** The names a companion may have: with the first `depth_` removed if the
      name has one; else with the first `_depth` removed if it has one;
      else `depth_` + name, then name + `_depth`. */
  function CompanionNames(name: string): (r: seq<string>)
    ensures 1 <= |r| <= 2
  {
    var i := IndexOfIgnoreCase(name, DepthPrefix);
    if i >= 0 then [RemoveRange(name, i, |DepthPrefix|)]
    else
      var j := IndexOfIgnoreCase(name, DepthSuffix);
      if j >= 0 then [RemoveRange(name, j, |DepthSuffix|)]
      else [DepthPrefix + name, name + DepthSuffix]
  }

  /** The paths `dir\<name><ext>` for one name, in extension-list order. */
  function NamePairs(dir: string, name: string, extensions: seq<string>): (r: seq<string>)
    ensures |r| == |extensions|
    ensures forall k :: 0 <= k < |r| ==> r[k] == dir + [Backslash] + name + extensions[k]
  {
    if |extensions| == 0 then []
    else NamePairs(dir, name, extensions[..|extensions| - 1]) + [dir + [Backslash] + name + extensions[|extensions| - 1]]
  }

  /** All candidate paths: every name in turn, each with every image extension. */
  function Candidates(dir: string, names: seq<string>): (r: seq<string>)
    ensures |r| == |names| * |ImageExtensions|
  {
    if |names| == 0 then []
    else Candidates(dir, names[..|names| - 1]) + NamePairs(dir, names[|names| - 1], ImageExtensions)
  }

  /** Candidate `k` is name `k / 10` with extension `k % 10`: names first, extensions second. */
  lemma {:induction false} CandidateOrder(dir: string, names: seq<string>, k: nat)
    requires k < |names| * |ImageExtensions|
    ensures Candidates(dir, names)[k] == dir + [Backslash] + names[k / |ImageExtensions|] + ImageExtensions[k % |ImageExtensions|]
    decreases |names|
  {
    var m := |names| - 1;
    var front := Candidates(dir, names[..m]);
    assert |front| == m * 10;
    if k < |front| {
      CandidateOrder(dir, names[..m], k);
      DivModTen(k);
    } else {
      DivModTenOf(m, k - |front|);
    }
  }

  /** Division by the number of image extensions. */
  lemma DivModTen(k: nat)
    ensures k == (k / 10) * 10 + k % 10 && 0 <= k % 10 < 10
  {
  }

  lemma DivModTenOf(q: nat, r: nat)
    requires r < 10
    ensures (q * 10 + r) / 10 == q && (q * 10 + r) % 10 == r
  {
  }

  /** The companion search candidates of an image path. */
  function CompanionCandidates(path: string): seq<string>
  {
    Candidates(DirectoryName(path), CompanionNames(FileNameWithoutExtension(path)))
  }

  /** Index of the first candidate the oracle accepts, or -1. */
  function FirstAccepted(cands: seq<string>, fileExists: string -> bool): (r: int)
    ensures -1 <= r < |cands|
    ensures r >= 0 ==> fileExists(cands[r])
    ensures forall k :: 0 <= k < |cands| && (r == -1 || k < r) ==> !fileExists(cands[k])
  {
    if |cands| == 0 then -1
    else
      var t := FirstAccepted(cands[..|cands| - 1], fileExists);
      if t >= 0 then t
      else if fileExists(cands[|cands| - 1]) then |cands| - 1
      else -1
  }

  /** The search result a path leads to, as an Option. */
  function Companion(path: string, fileExists: string -> bool): (r: Option<string>)
    ensures r.Some? ==> fileExists(r.value) && r.value in CompanionCandidates(path)
  {
    var cands := CompanionCandidates(path);
    var k := FirstAccepted(cands, fileExists);
    if k >= 0 then Some(cands[k]) else None
  }

  /** The nested `foreach` of `Present(string)`: names outer, extensions
      inner, stopping at the first path the oracle accepts. */
  method FindCompanion(path: string, fileExists: string -> bool) returns (r: Option<string>)
    ensures r == Companion(path, fileExists)
  {
    var dir := DirectoryName(path);
    var names := CompanionNames(FileNameWithoutExtension(path));
    var n := 0;
    while n < |names|
      invariant 0 <= n <= |names|
      invariant NoneAccepted(dir, names, n, 0, fileExists)
    {
      var e := 0;
      while e < |ImageExtensions|
        invariant 0 <= e <= |ImageExtensions|
        invariant NoneAccepted(dir, names, n, e, fileExists)
      {
        var pair := dir + [Backslash] + names[n] + ImageExtensions[e];
        if fileExists(pair) {
          FirstAcceptedPair(dir, names, n, e, fileExists);
          r := Some(pair);
          return;
        }
        e := e + 1;
      }
      n := n + 1;
    }
    NoneAcceptedAtAll(dir, names, fileExists);
    r := None;
  }

  /** The files `Present(string)` hands on for one dropped file: an image
      with its companion when one exists, otherwise the file alone. */
  ghost function DroppedFiles(path: string, fileExists: string -> bool): (r: seq<string>)
    ensures 1 <= |r| <= 2 && r[0] == path
    ensures |r| == 2 <==> IsImage(path) && Companion(path, fileExists).Some?
    ensures |r| == 2 ==> fileExists(r[1]) && r[1] in CompanionCandidates(path)
  {
    if IsImage(path) && Companion(path, fileExists).Some? then [path, Companion(path, fileExists).value] else [path]
  }

  /** No pair before name `n`, extension `e` (in search order) exists. */
  ghost predicate NoneAccepted(dir: string, names: seq<string>, n: nat, e: nat, fileExists: string -> bool)
    requires n <= |names| && e <= |ImageExtensions|
  {
    forall j, k :: 0 <= j < |names| && 0 <= k < |ImageExtensions| && (j < n || (j == n && k < e)) ==>
      !fileExists(dir + [Backslash] + names[j] + ImageExtensions[k])
  }

  lemma FirstAcceptedPair(dir: string, names: seq<string>, n: nat, e: nat, fileExists: string -> bool)
    requires n < |names| && e < |ImageExtensions|
    requires NoneAccepted(dir, names, n, e, fileExists)
    requires fileExists(dir + [Backslash] + names[n] + ImageExtensions[e])
    ensures FirstAccepted(Candidates(dir, names), fileExists) == n * |ImageExtensions| + e
    ensures Candidates(dir, names)[n * |ImageExtensions| + e] == dir + [Backslash] + names[n] + ImageExtensions[e]
  {
    var cands := Candidates(dir, names);
    var i := n * 10 + e;
    forall idx | 0 <= idx < i ensures !fileExists(cands[idx]) {
      CandidateOrder(dir, names, idx);
      DivModTen(idx);
    }
    CandidateOrder(dir, names, i);
    DivModTenOf(n, e);
    FirstAcceptedAt(cands, fileExists, i);
  }

  lemma NoneAcceptedAtAll(dir: string, names: seq<string>, fileExists: string -> bool)
    requires NoneAccepted(dir, names, |names|, 0, fileExists)
    ensures FirstAccepted(Candidates(dir, names), fileExists) == -1
  {
    var cands := Candidates(dir, names);
    forall idx | 0 <= idx < |cands| ensures !fileExists(cands[idx]) {
      CandidateOrder(dir, names, idx);
      DivModTen(idx);
    }
  }

  /** An accepted candidate with none accepted before it is the first accepted one. */
  lemma FirstAcceptedAt(cands: seq<string>, fileExists: string -> bool, i: nat)
    requires i < |cands| && fileExists(cands[i])
    requires forall k :: 0 <= k < i ==> !fileExists(cands[k])
    ensures FirstAccepted(cands, fileExists) == i
  {
  }

  /** A name holding `depth_` looks only for the name without it, under every image extension. */
  lemma DepthPrefixedName(name: string)
    requires ContainsIgnoreCase(name, DepthPrefix)
    ensures CompanionNames(name) == [RemoveRange(name, IndexOfIgnoreCase(name, DepthPrefix), |DepthPrefix|)]
  {
  }

  /** A plain name looks for `depth_<name>` first and `<name>_depth` second. */
  lemma PlainName(name: string)
    requires !ContainsIgnoreCase(name, DepthPrefix) && !ContainsIgnoreCase(name, DepthSuffix)
    ensures CompanionNames(name) == [DepthPrefix + name, name + DepthSuffix]
  {
  }
}
