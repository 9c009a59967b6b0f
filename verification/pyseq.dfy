/** The parts of Python's and pandas' sequence semantics the scanner relies
    on, written out because Dafny's own operators differ: `int()` on a float
    truncates toward zero, slice bounds may be negative or past the end, and
    `DataFrame.tail(n)` keeps the last n rows. */
module PySeq {

  /** Python's `int(x)` on a float: truncation toward zero. */
  function Trunc(x: real): (r: int)
    ensures 0.0 <= x ==> 0 <= r && r as real <= x < r as real + 1.0
    ensures x < 0.0 ==> r <= 0 && r as real - 1.0 < x <= r as real
  {
    if x >= 0.0 then x.Floor else -((-x).Floor)
  }

  /** Where a slice bound `i` lands in a sequence of length n: negative bounds
      count from the end, and every bound is clamped into [0, n]. */
  function SliceBound(i: int, n: nat): (r: nat)
    ensures r <= n
    ensures 0 <= i <= n ==> r == i
    ensures n < i ==> r == n
    ensures i < 0 ==> r + -i == n || (r == 0 && n < -i)
  {
    if i < 0 then (if n + i < 0 then 0 else n + i)
    else if i > n then n
    else i
  }

  /** Python's `s[a:b]`. */
  function Slice<T>(s: seq<T>, a: int, b: int): (r: seq<T>)
    ensures |r| <= |s|
    ensures 0 <= a <= b ==> r == s[SliceBound(a, |s|)..SliceBound(b, |s|)]
  {
    var lo := SliceBound(a, |s|);
    var hi := SliceBound(b, |s|);
    if lo < hi then s[lo..hi] else []
  }

  /** Python's `s[:b]`. */
  function Prefix<T>(s: seq<T>, b: int): (r: seq<T>)
    ensures |r| <= |s| && r == s[..|r|]
    ensures 0 <= b ==> r == s[..if b < |s| then b else |s|]
    ensures b < 0 ==> |r| == if |s| + b < 0 then 0 else |s| + b
  {
    Slice(s, 0, b)
  }

  /** Python's `s[a:]`. */
  function Suffix<T>(s: seq<T>, a: int): (r: seq<T>)
    ensures 0 <= a ==> r == s[if a < |s| then a else |s|..]
  {
    Slice(s, a, |s|)
  }

  /** pandas' `DataFrame.tail(n)` for a non-negative n: the last n rows, or
      all of them when there are fewer. */
  function Tail<T>(s: seq<T>, n: nat): (r: seq<T>)
    ensures |r| == if n < |s| then n else |s|
    ensures forall k :: 0 <= k < |r| ==> r[k] == s[|s| - |r| + k]
  {
    if n < |s| then s[|s| - n..] else s
  }

  /** Python's `s.endswith(suffix)`. */
  predicate EndsWith(s: string, suffix: string) {
    |suffix| <= |s| && s[|s| - |suffix|..] == suffix
  }

  /** `sub` occurs in s starting at position i. */
  predicate OccursAt(s: string, sub: string, i: int) {
    0 <= i && i + |sub| <= |s| && s[i..i + |sub|] == sub
  }

  /** Python's `sub in s` on strings. */
  predicate Contains(s: string, sub: string) {
    exists i | 0 <= i <= |s| - |sub| :: OccursAt(s, sub, i)
  }
}
