/** The exhibit catalogue of MainController.cs (`defaults.Exhibits`) on
    values: a sequence of records `[path, depth?, layout, screen]`, with the
    surgery the controller applies to it — slot rewrites, lookup, insertion,
    moving a dropped record to the tail, cyclic navigation and removal.

    `List<List<string>>.IndexOf` and `Remove` compare records by reference;
    the controller never puts one record object in the catalogue twice, so a
    record is identified here by its index, and the presented record is
    either catalogued at an index, detached (removed from the catalogue while
    still presented), or absent (`presentingExhibit == null`). */
module Exhibits {
  import opened Lists

  type Record = seq<string>

  datatype Presenting = NoExhibit | Catalogued(index: nat) | Detached(record: Record)

  /** Every record has a first field, which `Find` reads. */
  ghost predicate WellFormed(exhibits: seq<Record>)
  {
    forall i :: 0 <= i < |exhibits| ==> |exhibits[i]| > 0
  }

  ghost predicate PresentingIn(exhibits: seq<Record>, p: Presenting)
  {
    p.Catalogued? ==> p.index < |exhibits|
  }

  /** `defaults.Exhibits.IndexOf(presentingExhibit)`. */
  function PresentingIndex(p: Presenting): int
  {
    if p.Catalogued? then p.index else -1
  }

  // ---------------------------------------------------------------------------
  // Slot rewrites (UpdateConfig1, UpdateConfig2)

  /** `UpdateConfig1`'s surgery: remove the first field equal to the layout
      slot's value, then insert the new layout string before the last field. */
  function RewriteLayoutSlot(rec: Record, config: string): (r: Record)
    requires |rec| >= 2
    ensures |r| == |rec|
    ensures r[|r| - 2] == config && r[|r| - 1] == rec[|rec| - 1]
  {
    var removed := RemoveFirst(rec, rec[|rec| - 2]);
    InsertAt(removed, |removed| - 1, config)
  }

  /** `UpdateConfig2`'s surgery: remove the first field equal to the screen
      slot's value, then append the new screen string. */
  function RewriteScreenSlot(rec: Record, config: string): (r: Record)
    requires |rec| >= 1
    ensures |r| == |rec| && r[|r| - 1] == config
  {
    RemoveFirst(rec, rec[|rec| - 1]) + [config]
  }

  /** When the layout slot's old value occurs nowhere before it, only that slot changes. */
  lemma LayoutSlotOnly(rec: Record, config: string)
    requires |rec| >= 2 && rec[|rec| - 2] !in rec[..|rec| - 2]
    ensures RewriteLayoutSlot(rec, config) == rec[..|rec| - 2] + [config, rec[|rec| - 1]]
  {
    var n := |rec|;
    IndexOfAt(rec, rec[n - 2], n - 2);
  }

  /** When the screen slot's old value occurs nowhere before it, only that slot changes. */
  lemma ScreenSlotOnly(rec: Record, config: string)
    requires |rec| >= 1 && rec[|rec| - 1] !in rec[..|rec| - 1]
    ensures RewriteScreenSlot(rec, config) == rec[..|rec| - 1] + [config]
  {
    var n := |rec|;
    IndexOfAt(rec, rec[n - 1], n - 1);
  }

  /** Because `Remove` takes the first equal field, an earlier field equal to
      the old layout value is the one that goes: `[a, "180LR", "180LR", s]`
      loses `a`'s neighbour instead of the slot. */
  lemma LayoutSlotRemovesEarlierDuplicate(a: string, l: string, s: string, config: string)
    ensures RewriteLayoutSlot([a, l, l, s], config) == (if a == l then [l, l, config, s] else [a, l, config, s])
  {
    var rec := [a, l, l, s];
    if a == l {
      IndexOfAt(rec, l, 0);
    } else {
      IndexOfAt(rec, l, 1);
    }
  }

  // ---------------------------------------------------------------------------
  // Swapping RGB and depth files (ChangeSourceImageArrangementOrder, Separate)

  /** The record surgery of F4 for a separate-file exhibit as written:
      remove the field equal to the RGB path, insert it at index 1. */
  function SwapCompanionAsWritten(rec: Record, rgb: string): (r: Record)
    requires |rec| >= 2
    ensures |r| == (if rgb in rec then |rec| else |rec| + 1)
    ensures r[1] == rgb
  {
    InsertAt(RemoveFirst(rec, rgb), 1, rgb)
  }

  /** F4 on a 4-field record whose first field is the RGB path swaps the
      two file fields, as intended. */
  lemma SwapCompanionAsWrittenOnPair(rgb: string, depth: string, l: string, s: string)
    ensures SwapCompanionAsWritten([rgb, depth, l, s], rgb) == [depth, rgb, l, s]
  {
    IndexOfAt([rgb, depth, l, s], rgb, 0);
  }

  /** F4 on a 3-field record (one catalogued for the RGB file alone and
      reused for a two-file presentation) moves the layout string into the
      path field; the next layout rewrite then removes the path altogether. */
  lemma SwapCompanionAsWrittenLosesPath()
    ensures SwapCompanionAsWritten(["a.jpg", "RECTANGLE", "Z"], "a.jpg") == ["RECTANGLE", "a.jpg", "Z"]
    ensures RewriteLayoutSlot(["RECTANGLE", "a.jpg", "Z"], "RECTANGLE") == ["RECTANGLE", "RECTANGLE", "Z"]
  {
    IndexOfAt(["a.jpg", "RECTANGLE", "Z"], "a.jpg", 0);
    IndexOfAt(["RECTANGLE", "a.jpg", "Z"], "a.jpg", 1);
  }

  /** F4's record surgery as intended: swap the two file fields of a record
      that has them (4 fields, RGB first), leave any other record alone. */
  function SwapCompanion(rec: Record, rgb: string): (r: Record)
    ensures |r| == |rec|
    ensures |rec| == 4 && rec[0] == rgb ==> r[0] == rec[1] && r[1] == rec[0] && r[2..] == rec[2..]
    ensures |rec| == 0 || rec[0] != rgb ==> r == rec
  {

    if |rec| == 4 && rec[0] == rgb then [rec[1], rec[0]] + rec[2..] else rec
  }

  /** The intended swap keeps every field and both configuration slots ... */
  lemma SwapCompanionKeepsFields(rec: Record, rgb: string)
    ensures |SwapCompanion(rec, rgb)| == |rec|
    ensures multiset(SwapCompanion(rec, rgb)) == multiset(rec)
    ensures |rec| >= 2 ==> SwapCompanion(rec, rgb)[|rec| - 2..] == rec[|rec| - 2..]
  {
    if |rec| == 4 && rec[0] == rgb {
      assert rec == [rec[0], rec[1]] + rec[2..];
    }
  }

  /** ... swapping back restores the record, and it agrees with the code
      wherever the code is right. */
  lemma SwapCompanionInvolution(rec: Record, rgb: string)
    requires |rec| == 4 && rec[0] == rgb
    ensures SwapCompanion(SwapCompanion(rec, rgb), rec[1]) == rec
    ensures SwapCompanion(rec, rgb) == SwapCompanionAsWritten(rec, rgb)
  {
    assert rec == [rgb, rec[1], rec[2], rec[3]];
    SwapCompanionAsWrittenOnPair(rgb, rec[1], rec[2], rec[3]);
  }

  // ---------------------------------------------------------------------------
  // Lookup and insertion (Present(List))

  /** `defaults.Exhibits.Find(exhibit => exhibit[0] == path)`, as an index. */
  function FindByPath(exhibits: seq<Record>, path: string): (r: int)
    requires WellFormed(exhibits)
    ensures -1 <= r < |exhibits|
    ensures r >= 0 ==> exhibits[r][0] == path
    ensures forall k :: 0 <= k < |exhibits| && (r == -1 || k < r) ==> exhibits[k][0] != path
  {
    FindByPathFrom(exhibits, path, 0)
  }

  function FindByPathFrom(exhibits: seq<Record>, path: string, from: nat): (r: int)
    requires WellFormed(exhibits) && from <= |exhibits|
    ensures r == -1 || from <= r < |exhibits|
    ensures r >= 0 ==> exhibits[r][0] == path
    ensures forall k :: from <= k < |exhibits| && (r == -1 || k < r) ==> exhibits[k][0] != path
    decreases |exhibits| - from
  {
    if from == |exhibits| then -1
    else if exhibits[from][0] == path then from
    else FindByPathFrom(exhibits, path, from + 1)
  }

  /** The catalogue and the presented record after `Present(List)` has
      looked up the exhibit, with the layout and screen strings to apply. */
  datatype Entry = Entry(exhibits: seq<Record>, presenting: Presenting, config1: string, config2: string)

  /** The catalogue step of `Present(List)`. The start image is never
      catalogued. A path with no record of at least 3 fields gets a new
      record `[path, "", ""]` (`[path, depth, "", ""]` for a separate depth
      file) at the tail, and keeps the layout string derived from the file
      name. A known record supplies its last two fields as the strings, and
      moves to the tail when the file was dropped. */
  function CatalogOnPresent(exhibits: seq<Record>, exhibitPath: string, depthPath: string,
                            dropped: bool, startImage: string, config1: string): (r: Entry)
    requires WellFormed(exhibits)
    ensures WellFormed(r.exhibits) && PresentingIn(r.exhibits, r.presenting)
    ensures !r.presenting.Detached?
    ensures r.presenting.Catalogued? ==>
      var rec := r.exhibits[r.presenting.index];
      rec[0] == exhibitPath && |rec| >= 3
  {
    if exhibitPath == startImage then Entry(exhibits, NoExhibit, config1, "")
    else
      var i := FindByPath(exhibits, exhibitPath);
      if i < 0 || |exhibits[i]| < 3 then
        var rec := if |depthPath| > 0 then [exhibitPath, depthPath, "", ""] else [exhibitPath, "", ""];
        AppendKeepsWellFormed(exhibits, rec);
        Entry(exhibits + [rec], Catalogued(|exhibits|), config1, "")
      else
        var rec := exhibits[i];
        if dropped then
          MoveToTailKeepsWellFormed(exhibits, i);
          Entry(MoveToTail(exhibits, i), Catalogued(|exhibits| - 1), rec[|rec| - 2], rec[|rec| - 1])
        else Entry(exhibits, Catalogued(i), rec[|rec| - 2], rec[|rec| - 1])
  }

  /** `Remove(record)` then `Add(record)`: the record at `i` moves to the tail. */
  function MoveToTail(exhibits: seq<Record>, i: nat): (r: seq<Record>)
    requires i < |exhibits|
    ensures |r| == |exhibits| && r[|r| - 1] == exhibits[i]
  {
    RemoveAt(exhibits, i) + [exhibits[i]]
  }

  lemma AppendKeepsWellFormed(exhibits: seq<Record>, rec: Record)
    requires WellFormed(exhibits) && |rec| > 0
    ensures WellFormed(exhibits + [rec])
  {
  }

  lemma MoveToTailKeepsWellFormed(exhibits: seq<Record>, i: nat)
    requires WellFormed(exhibits) && i < |exhibits|
    ensures WellFormed(MoveToTail(exhibits, i))
  {
    var r := MoveToTail(exhibits, i);
    forall k | 0 <= k < |r| ensures |r[k]| > 0 {
      if k < i { assert r[k] == exhibits[k]; }
      else if k < |r| - 1 { assert r[k] == exhibits[k + 1]; }
    }
  }

  /** The start image leaves the catalogue alone and presents no record. */
  lemma StartImageNotCatalogued(exhibits: seq<Record>, depthPath: string, dropped: bool, startImage: string, config1: string)
    requires WellFormed(exhibits)
    ensures CatalogOnPresent(exhibits, startImage, depthPath, dropped, startImage, config1)
         == Entry(exhibits, NoExhibit, config1, "")
  {
  }

  /** An unknown path is appended, as a 3- or 4-field record. */
  lemma UnknownPathAppended(exhibits: seq<Record>, path: string, depthPath: string, dropped: bool, startImage: string, config1: string)
    requires WellFormed(exhibits) && path != startImage
    requires forall k :: 0 <= k < |exhibits| ==> exhibits[k][0] != path
    ensures var r := CatalogOnPresent(exhibits, path, depthPath, dropped, startImage, config1);
      && r.exhibits == exhibits + [if depthPath == "" then [path, "", ""] else [path, depthPath, "", ""]]
      && r.presenting == Catalogued(|exhibits|)
      && r.config1 == config1 && r.config2 == ""
  {
  }

  /** A known record of at least 3 fields supplies its layout and screen
      strings; it stays where it is unless dropped, and then moves to the
      tail with everything else keeping its order. */
  lemma KnownRecordReused(exhibits: seq<Record>, path: string, depthPath: string, dropped: bool, startImage: string, config1: string)
    requires WellFormed(exhibits) && path != startImage
    requires FindByPath(exhibits, path) >= 0 && |exhibits[FindByPath(exhibits, path)]| >= 3
    ensures var i, r := FindByPath(exhibits, path), CatalogOnPresent(exhibits, path, depthPath, dropped, startImage, config1);
      var rec := exhibits[i];
      && r.config1 == rec[|rec| - 2] && r.config2 == rec[|rec| - 1]
      && (!dropped ==> r.exhibits == exhibits && r.presenting == Catalogued(i))
      && (dropped ==> r.exhibits == exhibits[..i] + exhibits[i + 1..] + [rec] && r.presenting == Catalogued(|exhibits| - 1))
  {
  }

  // ---------------------------------------------------------------------------
  // Present(int)

  /** The files `Present(int)` presents from a record: its path for a 3-field
      record, path and depth for a 4-field one; nothing for an index out of
      range or a record of another length. */
  function FilesOfRecord(exhibits: seq<Record>, index: int): (r: seq<string>)
    ensures |r| <= 2
    ensures r != [] ==> 0 <= index < |exhibits| && |r| <= |exhibits[index]| && r == exhibits[index][..|r|]
    ensures 0 <= index < |exhibits| && |exhibits[index]| in {3, 4} ==> |r| == |exhibits[index]| - 2
  {
    if index < 0 || index >= |exhibits| then []
    else
      var rec := exhibits[index];
      if |rec| == 3 then [rec[0]]
      else if |rec| == 4 then [rec[0], rec[1]]
      else []
  }

  // ---------------------------------------------------------------------------
  // Navigation (ToNextExhibit, ToPrevExhibit)

  /** The index `ToNextExhibit` presents, or -1 when the catalogue is empty. */
  function NextIndex(count: nat, p: Presenting): (r: int)
    ensures count == 0 ==> r == -1
    ensures count > 0 ==> 0 <= r < count
  {
    if count == 0 then -1
    else if p.NoExhibit? then 0
    else
      var index := PresentingIndex(p) + 1;
      if index < 0 || index >= count then 0 else index
  }

  /** The index `ToPrevExhibit` presents, or -1 when the catalogue is empty. */
  function PrevIndex(count: nat, p: Presenting): (r: int)
    ensures count == 0 ==> r == -1
    ensures count > 0 ==> 0 <= r < count
  {
    if count == 0 then -1
    else if p.NoExhibit? then count - 1
    else
      var index := PresentingIndex(p) - 1;
      if index < 0 || index >= count then count - 1 else index
  }

  /** Next and previous are the cyclic successor and predecessor of a
      catalogued record; from no record or a detached one they start at the
      first and the last record. */
  lemma NavigationIsCyclic(count: nat, p: Presenting)
    requires count > 0 && (p.Catalogued? ==> p.index < count)
    ensures p.Catalogued? ==> NextIndex(count, p) == (p.index + 1) % count
    ensures p.Catalogued? ==> PrevIndex(count, p) == (p.index + count - 1) % count
    ensures !p.Catalogued? ==> NextIndex(count, p) == 0 && PrevIndex(count, p) == count - 1
  {
    if p.Catalogued? {
      var i := p.index;
      if i + 1 < count {
        assert (i + 1) % count == i + 1;
      } else {
        assert (i + 1) % count == 0;
      }
      if i >= 1 {
        assert (i + count - 1) % count == i - 1;
      } else {
        assert (i + count - 1) % count == count - 1;
      }
    }
  }

  /** Previous undoes next, and next undoes previous. */
  lemma NavigationRoundTrip(count: nat, i: nat)
    requires i < count
    ensures PrevIndex(count, Catalogued(NextIndex(count, Catalogued(i)))) == i
    ensures NextIndex(count, Catalogued(PrevIndex(count, Catalogued(i)))) == i
  {
  }

  // ---------------------------------------------------------------------------
  // Removal (RemovePresentingExhibit)

  /** The catalogue after `defaults.Exhibits.Remove(presentingExhibit)`: the
      presented record goes if it is catalogued; a detached one is not found. */
  function AfterRemoval(exhibits: seq<Record>, p: Presenting): (r: seq<Record>)
    requires PresentingIn(exhibits, p)
    ensures p.Catalogued? ==> |r| == |exhibits| - 1
    ensures !p.Catalogued? ==> r == exhibits
  {
    if p.Catalogued? then RemoveAt(exhibits, p.index) else exhibits
  }

  lemma RemovalKeepsWellFormed(exhibits: seq<Record>, p: Presenting)
    requires WellFormed(exhibits) && PresentingIn(exhibits, p)
    ensures WellFormed(AfterRemoval(exhibits, p))
  {
    if p.Catalogued? {
      var r := AfterRemoval(exhibits, p);
      forall k | 0 <= k < |r| ensures |r[k]| > 0 {
        if k < p.index { assert r[k] == exhibits[k]; }
        else { assert r[k] == exhibits[k + 1]; }
      }
    }
  }

  /** Where, in the catalogue after removal, the record preceding the
      removed one now is (the one the code looks up again), or -1 when that
      record was the removed one itself. */
  function PredecessorAfterRemoval(count: nat, p: Presenting): (r: int)
    requires count > 0 && (p.Catalogued? ==> p.index < count)
    ensures !p.Catalogued? ==> r == count - 1
    ensures p.Catalogued? ==> (r == -1 <==> count == 1)
    ensures p.Catalogued? && p.index > 0 ==> r == p.index - 1
    ensures p.Catalogued? && p.index == 0 && count > 1 ==> r == count - 2
  {
    var before := PresentingIndex(p) - 1;
    var j := if before < 0 || before >= count then count - 1 else before;
    if !p.Catalogued? then j
    else if j == p.index then -1
    else if j < p.index then j
    else j - 1
  }

  /** Removing a catalogued record keeps the others in order and finds its
      cyclic predecessor again, unless it was the only record. A detached
      record removes nothing and leads to the last record. */
  lemma {:induction false} RemovalFindsPredecessor(exhibits: seq<Record>, p: Presenting)
    requires |exhibits| > 0 && PresentingIn(exhibits, p) && !p.NoExhibit?
    ensures var n, k, after := |exhibits|, PredecessorAfterRemoval(|exhibits|, p), AfterRemoval(exhibits, p);
      && (p.Catalogued? && n == 1 ==> k == -1)
      && (p.Catalogued? && n > 1 ==> 0 <= k < |after| && after[k] == exhibits[(p.index + n - 1) % n])
      && (p.Detached? ==> k == n - 1 && after[k] == exhibits[n - 1])
  {
    var n := |exhibits|;
    if p.Catalogued? && n > 1 {
      var i := p.index;
      var after := AfterRemoval(exhibits, p);
      CyclicPredecessor(i, n);
      if i >= 1 {
        assert after[i - 1] == exhibits[i - 1];
      } else {
        assert after[n - 2] == exhibits[n - 1];
      }
    }
  }

  /** The cyclic predecessor of index `i` among `n`. */
  lemma CyclicPredecessor(i: nat, n: nat)
    requires i < n
    ensures (i + n - 1) % n == if i == 0 then n - 1 else i - 1
  {
    if i > 0 {
      assert i + n - 1 == (i - 1) + n;
    }
  }
}
