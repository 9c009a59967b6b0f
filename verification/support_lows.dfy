/** The support-low candidates both trendline builders start from
    (ta/trendlines.py and trend_analyzer.py share the rule): a bar in
    [10, len-10) whose low equals the 10-bar rolling minimum ending at it. */
module SupportLows {
  import opened Common
  import opened OrderedIndices

  /** The rolling window, and the margin kept clear at both ends of the frame. */
  const Window: nat := 10

  /** A candidate low: its bar index and its price. */
  datatype Point = Point(x: nat, y: real)

  /** `lows.rolling(window=10).min()` at row i (rows i-9 .. i). */
  function RollingMin(lows: seq<real>, i: int): real
    requires Window - 1 <= i < |lows|
  {
    SeqMin(lows[i - (Window - 1)..i + 1])
  }

  /** The scan's test at bar i. */
  predicate IsSupportLow(lows: seq<real>, i: int) {
    Window <= i < |lows| - Window && lows[i] == RollingMin(lows, i)
  }

  /** Equality with the rolling minimum means: no low in the trailing window
      is below this one. */
  lemma SupportLowIsWindowMinimum(lows: seq<real>, i: int)
    ensures IsSupportLow(lows, i) <==>
      Window <= i < |lows| - Window && forall j :: i - (Window - 1) <= j <= i ==> lows[i] <= lows[j]
  {
    if Window <= i < |lows| - Window {
      var w := lows[i - (Window - 1)..i + 1];
      assert lows[i] == w[Window - 1];
      assert forall j :: i - (Window - 1) <= j <= i ==> lows[j] == w[j - (i - (Window - 1))];
    }
  }

  /** Every bar that passes the scan's test. */
  ghost function SupportSet(lows: seq<real>): set<nat> {
    set i: nat | i < |lows| && IsSupportLow(lows, i)
  }

  /** The candidates the loop `for i in range(10, n)` has collected. */
  function CandidatesBelow(lows: seq<real>, n: nat): (xs: seq<nat>)
    requires n <= |lows|
    ensures Enumerates(xs, set i: nat | i < n && IsSupportLow(lows, i))
    decreases n
  {
    if n <= Window then []
    else
      var i := n - 1;
      var earlier := CandidatesBelow(lows, i);
      ScanStep(lows, i, earlier);
      earlier + if IsSupportLow(lows, i) then [i] else []
  }

  /** One iteration of the scan keeps the collected list an enumeration. */
  lemma ScanStep(lows: seq<real>, i: nat, earlier: seq<nat>)
    requires Enumerates(earlier, set k: nat | k < i && IsSupportLow(lows, k))
    ensures Enumerates(earlier + (if IsSupportLow(lows, i) then [i] else []),
                       set k: nat | k < i + 1 && IsSupportLow(lows, k))
  {
    var keep := IsSupportLow(lows, i);
    var S := set k: nat | k < i && IsSupportLow(lows, k);
    EnumerationExtends(earlier, S, i, keep);
    assert (set k: nat | k < i + 1 && IsSupportLow(lows, k)) == if keep then S + {i} else S;
  }

  /** `local_mins`, as bar indices: all support lows of the frame, in order. */
  function Candidates(lows: seq<real>): (xs: seq<nat>)
    ensures Enumerates(xs, SupportSet(lows))
  {
    var n := if |lows| >= Window then |lows| - Window else 0;
    assert (set i: nat | i < n && IsSupportLow(lows, i)) == SupportSet(lows);
    CandidatesBelow(lows, n)
  }

  /** A frame of twenty bars or fewer has no candidate at all. */
  lemma ShortFrameHasNoCandidates(lows: seq<real>)
    requires |lows| <= 2 * Window
    ensures SupportSet(lows) == {}
  {
  }
}
