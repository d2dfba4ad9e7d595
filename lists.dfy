/** The `List<T>` and single-element `IndexOf` operations the controller
    uses, on values: `IndexOf`, `LastIndexOf`, `Remove(item)`, `Insert`,
    `RemoveAt`. (`string.IndexOf(char)` is the same search on characters.) */
module Lists {

  /** First index of `x` in `s`, or -1. */
  function IndexOf<T(==)>(s: seq<T>, x: T): (r: int)
    ensures -1 <= r < |s|
    ensures r >= 0 ==> s[r] == x
    ensures forall k :: 0 <= k < |s| && (r == -1 || k < r) ==> s[k] != x
    ensures r == -1 <==> x !in s
  {
    IndexOfFrom(s, x, 0)
  }

  /** First index at or after `from` holding `x`, or -1. */
  function IndexOfFrom<T(==)>(s: seq<T>, x: T, from: nat): (r: int)
    requires from <= |s|
    ensures r == -1 || from <= r < |s|
    ensures r >= 0 ==> s[r] == x
    ensures forall k :: from <= k < |s| && (r == -1 || k < r) ==> s[k] != x
    decreases |s| - from
  {
    if from == |s| then -1
    else if s[from] == x then from
    else IndexOfFrom(s, x, from + 1)
  }

  /** An occurrence with none before it is the one `IndexOf` finds. */
  lemma IndexOfAt<T>(s: seq<T>, x: T, i: nat)
    requires i < |s| && s[i] == x
    requires forall k :: 0 <= k < i ==> s[k] != x
    ensures IndexOf(s, x) == i
  {
    assert s[i] in s;
  }

  /** Last index of `x` in `s`, or -1. */
  function LastIndexOf<T(==)>(s: seq<T>, x: T): (r: int)
    ensures -1 <= r < |s|
    ensures r >= 0 ==> s[r] == x
    ensures forall k :: r < k < |s| ==> s[k] != x
    ensures r == -1 <==> x !in s
  {
    LastIndexOfBefore(s, x, |s|)
  }

  /** Last index below `upto` holding `x`, or -1. */
  function LastIndexOfBefore<T(==)>(s: seq<T>, x: T, upto: nat): (r: int)
    requires upto <= |s|
    ensures -1 <= r < upto
    ensures r >= 0 ==> s[r] == x
    ensures forall k :: r < k < upto ==> s[k] != x
  {
    if upto == 0 then -1
    else if s[upto - 1] == x then upto - 1
    else LastIndexOfBefore(s, x, upto - 1)
  }

  /** `List.Remove(item)`: drops the first element equal to `x`, if any. */
  function RemoveFirst<T(==)>(s: seq<T>, x: T): (r: seq<T>)
    ensures x !in s ==> r == s
    ensures x in s ==> var i := IndexOf(s, x); r == s[..i] + s[i + 1..]
  {
    if |s| == 0 then []
    else if s[0] == x then s[1..]
    else
      var t := RemoveFirst(s[1..], x);
      IndexOfTail(s, x);
      [s[0]] + t
  }

  /** Past a non-matching head, the search goes on in the tail. */
  lemma IndexOfTail<T>(s: seq<T>, x: T)
    requires |s| > 0 && s[0] != x
    ensures x in s <==> x in s[1..]
    ensures x in s ==> IndexOf(s, x) == IndexOf(s[1..], x) + 1
  {
    assert s == [s[0]] + s[1..];
    if x in s {
      var i := IndexOf(s[1..], x);
      IndexOfAt(s, x, i + 1);
    }
  }

  /** `List.Insert(i, x)`. */
  function InsertAt<T>(s: seq<T>, i: nat, x: T): (r: seq<T>)
    requires i <= |s|
    ensures |r| == |s| + 1 && r[i] == x
    ensures r[..i] == s[..i] && r[i + 1..] == s[i..]
  {
    s[..i] + [x] + s[i..]
  }

  /** `List.RemoveAt(i)`: what removing the element at index `i` leaves. */
  function RemoveAt<T>(s: seq<T>, i: nat): (r: seq<T>)
    requires i < |s|
    ensures |r| == |s| - 1
    ensures forall k :: 0 <= k < i ==> r[k] == s[k]
    ensures forall k :: i <= k < |r| ==> r[k] == s[k + 1]
  {
    s[..i] + s[i + 1..]
  }
}
