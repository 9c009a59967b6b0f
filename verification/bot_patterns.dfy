/** The candle-pattern predicates of the scanner's main loop (main.py):
    `fvg_count`, `trend_check` and `manip_check`. */
module BotPatterns {
  import opened Candles
  import opened PySeq
  import opened OrderedIndices
  import opened WickAnomaly

  // ---------------------------------------------------------------------
  // fvg_count
  // ---------------------------------------------------------------------

  /** Bar i opens a gap over bar i-2: its low is above that bar's high. */
  predicate UpGap(c: seq<Candle>, i: int) {
    2 <= i < |c| && c[i].low > c[i - 2].high
  }

  /** The list `fvgs` once the loop has visited bars [2, n). */
  function GapIndices(c: seq<Candle>, n: nat): (xs: seq<nat>)
    requires n <= |c|
    ensures Enumerates(xs, set i: nat | i < n && UpGap(c, i))
    decreases n
  {
    if n <= 2 then []
    else
      var i := n - 1;
      var earlier := GapIndices(c, i);
      var xs := earlier + if UpGap(c, i) then [i] else [];
      assert forall k :: 0 <= k < |earlier| ==> xs[k] == earlier[k];
      assert forall k :: 0 <= k < |earlier| ==> xs[k] < i;
      xs
  }

  /** `len([f for f in xs if f > bound])`. */
  function CountAbove(xs: seq<nat>, bound: int): (k: nat)
    ensures k <= |xs|
  {
    if xs == [] then 0
    else CountAbove(xs[..|xs| - 1], bound) + if xs[|xs| - 1] > bound then 1 else 0
  }

  /** `fvg_count`: gaps among the bars after `len - lookback`. */
  function FvgCount(c: seq<Candle>, lookback: int): nat {
    CountAbove(GapIndices(c, |c|), |c| - lookback)
  }

  /** The bars that open a gap and lie in the look-back window. */
  ghost function RecentGaps(c: seq<Candle>, lookback: int): set<nat> {
    set i: nat | i < |c| && UpGap(c, i) && i > |c| - lookback
  }

  /** Counting the entries above a bound of an enumeration counts the members
      of the set above that bound. */
  lemma {:induction false} CountAboveIsCardinality(xs: seq<nat>, S: set<nat>, bound: int)
    requires Enumerates(xs, S)
    ensures CountAbove(xs, bound) == |set i | i in S && i > bound|
    decreases |xs|
  {
    if xs == [] {
      assert (set i | i in S && i > bound) == {};
    } else {
      var x := xs[|xs| - 1];
      var front := xs[..|xs| - 1];
      EnumerationDropLast(xs, S);
      CountAboveIsCardinality(front, S - {x}, bound);
      var above := set i | i in S && i > bound;
      var aboveFront := set i | i in S - {x} && i > bound;
      if x > bound {
        assert above == aboveFront + {x};
      } else {
        assert above == aboveFront;
      }
    }
  }

  /** Strictly increasing entries below n leave room for at most n-1-bound of
      them above the bound. */
  lemma {:induction false} CountAboveBound(xs: seq<nat>, bound: int, n: int)
    requires StrictlyIncreasing(xs)
    requires forall k :: 0 <= k < |xs| ==> xs[k] < n
    ensures CountAbove(xs, bound) <= if n - 1 - bound > 0 then n - 1 - bound else 0
    decreases |xs|
  {
    if xs != [] {
      var x := xs[|xs| - 1];
      var front := xs[..|xs| - 1];
      CountAboveBound(front, bound, x);
    }
  }

  /** `fvg_count` counts exactly the gap bars in the look-back window, so it
      is never more than `lookback - 1`. */
  lemma FvgCountIsRecentGaps(c: seq<Candle>, lookback: int)
    ensures FvgCount(c, lookback) == |RecentGaps(c, lookback)|
    ensures FvgCount(c, lookback) <= if lookback > 1 then lookback - 1 else 0
  {
    var S := set i: nat | i < |c| && UpGap(c, i);
    var xs := GapIndices(c, |c|);
    CountAboveIsCardinality(xs, S, |c| - lookback);
    assert (set i | i in S && i > |c| - lookback) == RecentGaps(c, lookback);
    assert forall k :: 0 <= k < |xs| ==> xs[k] in S;
    CountAboveBound(xs, |c| - lookback, |c|);
  }

  // ---------------------------------------------------------------------
  // trend_check
  // ---------------------------------------------------------------------

  /** A local maximum of the scan at main.py: inside [3, len-3) and strictly
      above the two highs before it and the one after it. */
  predicate IsPeak(h: seq<real>, i: int) {
    3 <= i < |h| - 3 && h[i] > h[i - 1] && h[i] > h[i - 2] && h[i] > h[i + 1]
  }

  ghost function PeakSet(h: seq<real>): set<nat> {
    set i: nat | i < |h| && IsPeak(h, i)
  }

  /** `local_maxs` (as indices) once the loop has visited bars [3, n). */
  function PeaksBelow(h: seq<real>, n: nat): (xs: seq<nat>)
    requires n <= |h|
    ensures Enumerates(xs, set i: nat | i < n && IsPeak(h, i))
    decreases n
  {
    if n <= 3 then []
    else
      var i := n - 1;
      var earlier := PeaksBelow(h, i);
      var xs := earlier + if IsPeak(h, i) then [i] else [];
      assert forall k :: 0 <= k < |earlier| ==> xs[k] == earlier[k];
      assert forall k :: 0 <= k < |earlier| ==> xs[k] < i;
      xs
  }

  /** All local maxima of the window, in order. */
  function Peaks(h: seq<real>): (xs: seq<nat>)
    ensures Enumerates(xs, PeakSet(h))
  {
    var n := if |h| >= 3 then |h| - 3 else 0;
    assert (set i: nat | i < n && IsPeak(h, i)) == PeakSet(h);
    PeaksBelow(h, n)
  }

  /** `trend_check`: enough bars, at least two local maxima in the last
      `lookback` highs, and the newest above the one before it. */
  function TrendCheck(c: seq<Candle>, lookback: nat): (up: bool)
    ensures |c| < lookback ==> !up
  {
    if |c| < lookback then false
    else NewestPeakHigher(Highs(Tail(c, lookback)))
  }

  /** The comparison `trend_check` makes on the window's highs: at least two
      local maxima, and the newest above the one before it. */
  predicate NewestPeakHigher(h: seq<real>) {
    var m := Peaks(h);
    |m| >= 2 && h[m[|m| - 1]] > h[m[|m| - 2]]
  }

  /** The newest local maximum of h is strictly above the one before it. */
  ghost predicate RisingLastPeaks(h: seq<real>) {
    exists i: nat, j: nat :: LastTwo(PeakSet(h), i, j) && i < j < |h| && h[j] > h[i]
  }

  /** `trend_check` holds exactly when the window has two local maxima and the
      last of them is higher than the second to last. */
  lemma TrendCheckMeansRisingLastPeaks(c: seq<Candle>, lookback: nat)
    ensures TrendCheck(c, lookback) <==> |c| >= lookback && RisingLastPeaks(Highs(Tail(c, lookback)))
  {
    if |c| >= lookback {
      RisingPeaksTest(Highs(Tail(c, lookback)));
    }
  }

  /** The test on the enumerated maxima of one window decides RisingLastPeaks. */
  lemma RisingPeaksTest(h: seq<real>)
    ensures NewestPeakHigher(h) <==> RisingLastPeaks(h)
  {
    var m := Peaks(h);
    var S := PeakSet(h);
    LastTwoOfEnumeration(m, S);
    if |m| >= 2 && h[m[|m| - 1]] > h[m[|m| - 2]] {
      var i, j := m[|m| - 2], m[|m| - 1];
      assert j in S;
      assert LastTwo(S, i, j) && i < j < |h| && h[j] > h[i];
    }
    if RisingLastPeaks(h) {
      var i: nat, j: nat :| LastTwo(S, i, j) && i < j < |h| && h[j] > h[i];
      assert |m| >= 2 && m[|m| - 2] == i && m[|m| - 1] == j;
    }
  }

  // ---------------------------------------------------------------------
  // manip_check
  // ---------------------------------------------------------------------

  const ScanEpsilon: Epsilon := 0.0000000001

  /** Frames shorter than this are always clean. */
  const ManipMinRows: nat := 50

  /** At most this many of the newest candles are inspected. */
  const ManipWindow: nat := 288

  /** The candles `manip_check` inspects: the last min(288, len) of them. */
  function ManipFrame(c: seq<Candle>): (w: seq<Candle>)
    ensures |w| == if |c| < ManipWindow then |c| else ManipWindow
    ensures forall k :: 0 <= k < |w| ==> w[k] == c[|c| - |w| + k]
  {
    Tail(c, if |c| < ManipWindow then |c| else ManipWindow)
  }

  /** `manip_check`: short frames are clean; otherwise clean exactly when fewer
      than `maxAnomalies` of the inspected candles have a shadow-to-body ratio
      above `wickRatio`. */
  function ManipCheck(c: seq<Candle>, wickRatio: real, maxAnomalies: int): (clean: bool)
    ensures |c| < ManipMinRows ==> clean
    ensures |c| >= ManipMinRows ==>
              (clean <==> |AnomalousBars(ManipFrame(c), ScanEpsilon, wickRatio)| < maxAnomalies)
  {
    if |c| < ManipMinRows then true
    else
      var w := ManipFrame(c);
      AnomalyCountIsBarCount(w, ScanEpsilon, wickRatio);
      AnomalyCount(w, ScanEpsilon, wickRatio) < maxAnomalies
  }
}
