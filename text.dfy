/** The string primitives the controller relies on: `IndexOf` with
    `StringComparison.OrdinalIgnoreCase` and `String.Remove(index, count)`.
    Case folding covers the ASCII letters only: the ordinal compare of .NET
    also folds other letters, of the searched string as of the keyword. */
module Text {

  /** Ordinal upper-casing of one character (ASCII letters only). */
  function Upper(c: char): char
  {
    if 'a' <= c <= 'z' then (c as int - 32) as char else c
  }

  predicate EqualsIgnoreCase(a: string, b: string)
  {
    |a| == |b| && forall i :: 0 <= i < |a| ==> Upper(a[i]) == Upper(b[i])
  }

  /** `k` occurs in `s` at position `i`, ignoring ASCII case. */
  predicate MatchAt(s: string, k: string, i: nat)
  {
    i + |k| <= |s| && forall t :: 0 <= t < |k| ==> Upper(s[i + t]) == Upper(k[t])
  }

  /** `s.IndexOf(k, StringComparison.OrdinalIgnoreCase)`: a position where
      `k` occurs, or -1; `IndexOfIgnoreCaseIsFirst` shows it is the first one
      and that -1 means there is none. */
  function IndexOfIgnoreCase(s: string, k: string): (r: int)
    ensures r == -1 || (0 <= r && MatchAt(s, k, r))
  {
    if |k| > |s| then -1
    else if MatchAt(s, k, 0) then 0
    else
      var t := IndexOfIgnoreCase(s[1..], k);
      if t == -1 then -1 else ShiftMatch(s, k, t); t + 1
  }

  /** A match in the tail is a match one position further in `s`. */
  lemma ShiftMatch(s: string, k: string, j: int)
    requires |s| > 0 && 0 <= j
    ensures MatchAt(s[1..], k, j) <==> MatchAt(s, k, j + 1)
  {
  }

  lemma {:induction false} IndexOfIgnoreCaseIsFirst(s: string, k: string)
    ensures IndexOfIgnoreCase(s, k) == -1 <==> forall j: nat :: !MatchAt(s, k, j)
    ensures forall j: nat :: j < IndexOfIgnoreCase(s, k) ==> !MatchAt(s, k, j)
    decreases |s|
  {
    if |k| <= |s| && !MatchAt(s, k, 0) {
      var t := IndexOfIgnoreCase(s[1..], k);
      IndexOfIgnoreCaseIsFirst(s[1..], k);
      forall j: nat | 0 < j ensures MatchAt(s, k, j) == MatchAt(s[1..], k, j - 1) {
        ShiftMatch(s, k, j - 1);
      }
    }
  }

  /** `s.IndexOf(k, StringComparison.OrdinalIgnoreCase) >= 0`. */
  predicate ContainsIgnoreCase(s: string, k: string)
  {
    IndexOfIgnoreCase(s, k) >= 0
  }

  /** An infix occurrence of `k` is found (hence `ContainsIgnoreCase`). */
  lemma InfixMatches(s: string, x: string, k: string, y: string)
    requires s == x + k + y
    ensures MatchAt(s, k, |x|) && ContainsIgnoreCase(s, k)
  {
    forall t | 0 <= t < |k| ensures s[|x| + t] == k[t] {
    }
    FoundAt(s, k, |x|);
  }

  /** A keyword that occurs somewhere is found. */
  lemma FoundAt(s: string, k: string, i: nat)
    requires MatchAt(s, k, i)
    ensures ContainsIgnoreCase(s, k)
  {
    IndexOfIgnoreCaseIsFirst(s, k);
  }

  /** A keyword one of whose characters never occurs in `s` (in either case) does not occur in `s`. */
  lemma AbsentByChar(s: string, k: string, m: nat)
    requires m < |k|
    requires forall i :: 0 <= i < |s| ==> Upper(s[i]) != Upper(k[m])
    ensures !ContainsIgnoreCase(s, k)
  {
    forall j: nat ensures !MatchAt(s, k, j) {
      if j + |k| <= |s| {
        assert Upper(s[j + m]) != Upper(k[m]);
      }
    }
  }

  /** A keyword whose first two characters never occur next to each other in `s` does not occur in `s`. */
  lemma AbsentByPair(s: string, k: string)
    requires 2 <= |k|
    requires forall i :: 0 <= i < |s| - 1 ==> !(Upper(s[i]) == Upper(k[0]) && Upper(s[i + 1]) == Upper(k[1]))
    ensures !ContainsIgnoreCase(s, k)
  {
    forall j: nat ensures !MatchAt(s, k, j) {
      if j + |k| <= |s| {
        assert Upper(s[j + 0]) != Upper(k[0]) || Upper(s[j + 1]) != Upper(k[1]);
      }
    }
  }

  /** `s.Remove(index, count)`. */
  function RemoveRange(s: string, index: nat, count: nat): (r: string)
    requires index + count <= |s|
    ensures |r| == |s| - count
    ensures r[..index] == s[..index] && r[index..] == s[index + count..]
  {
    s[..index] + s[index + count..]
  }
}
