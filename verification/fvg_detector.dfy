/** The three-candle fair-value-gap detector of ta/fvgdetector.py: bar i
    completes a bullish gap when its low sits above the high of bar i-2 by
    more than a hundredth of a percent of its own close. */
module FvgDetector {
  import opened Candles

  /** The detector only reports bullish gaps. */
  datatype GapKind = Bullish

  /** One detector record: `index`, `type`, `top`, `bottom`, `gap_size`. */
  datatype Fvg = Fvg(index: nat, kind: GapKind, top: real, bottom: real, gapSize: real)

  /** Minimum gap as a fraction of the completing bar's close. */
  const MinGapFraction: real := 0.0001

  /** The detector's test at bar i. */
  predicate GapAt(c: seq<Candle>, i: int) {
    2 <= i < |c| && c[i].low - c[i - 2].high > MinGapFraction * c[i].close
  }

  /** g is the record the detector writes for a gap at bar g.index: the gap
      runs from the high two bars back up to the low of the completing bar. */
  ghost predicate Describes(c: seq<Candle>, g: Fvg) {
    && GapAt(c, g.index)
    && g.kind == Bullish
    && g.top == c[g.index].low
    && g.bottom == c[g.index - 2].high
    && g.gapSize == g.top - g.bottom
  }

  /** What the loop guarantees after visiting bars [2, n): every record
      describes a gap below n, the records are in bar order, and every gap
      below n has one. */
  ghost predicate Scanned(c: seq<Candle>, gaps: seq<Fvg>, n: nat) {
    && (forall k :: 0 <= k < |gaps| ==> Describes(c, gaps[k]) && gaps[k].index < n)
    && (forall k, l :: 0 <= k < l < |gaps| ==> gaps[k].index < gaps[l].index)
    && (forall i :: 2 <= i < n && GapAt(c, i) ==> exists k :: 0 <= k < |gaps| && gaps[k].index == i)
  }

  /** The records the loop has produced once it has visited bars [2, n). */
  function DetectBelow(c: seq<Candle>, n: nat): seq<Fvg>
    requires n <= |c|
    decreases n
  {
    if n <= 2 then [] else DetectBelow(c, n - 1) + Found(c, n - 1)
  }

  /** The loop's guarantee holds after every iteration. */
  lemma {:induction false} DetectBelowScanned(c: seq<Candle>, n: nat)
    requires n <= |c|
    ensures Scanned(c, DetectBelow(c, n), n)
    decreases n
  {
    if n > 2 {
      DetectBelowScanned(c, n - 1);
      DetectStep(c, n - 1, DetectBelow(c, n - 1));
    }
  }

  /** The record bar i adds, if any. */
  function Found(c: seq<Candle>, i: nat): seq<Fvg>
    requires 2 <= i < |c|
  {
    if GapAt(c, i) then [Fvg(i, Bullish, c[i].low, c[i - 2].high, c[i].low - c[i - 2].high)] else []
  }

  /** One iteration keeps the records faithful, ordered and complete. */
  lemma DetectStep(c: seq<Candle>, i: nat, earlier: seq<Fvg>)
    requires 2 <= i < |c| && Scanned(c, earlier, i)
    ensures Scanned(c, earlier + Found(c, i), i + 1)
  {
    var gaps := earlier + Found(c, i);
    assert forall k :: 0 <= k < |earlier| ==> gaps[k] == earlier[k];
    assert GapAt(c, i) ==> gaps[|earlier|].index == i;
  }

  /** `FVGDetector.detect_fvgs`: every record describes a gap that passes the
      size test, every bar that passes it has a record, and the records are
      in bar order. */
  function DetectFvgs(c: seq<Candle>): (gaps: seq<Fvg>)
    ensures |c| < 3 ==> gaps == []
    ensures forall k :: 0 <= k < |gaps| ==> Describes(c, gaps[k])
    ensures forall k, l :: 0 <= k < l < |gaps| ==> gaps[k].index < gaps[l].index
    ensures forall i :: GapAt(c, i) <==> exists k :: 0 <= k < |gaps| && gaps[k].index == i
  {
    DetectBelowScanned(c, |c|);
    DetectBelow(c, |c|)
  }

  /** When the completing bars' closes are not negative, every reported gap is
      a real gap: its top lies strictly above its bottom. */
  lemma GapsArePositive(c: seq<Candle>)
    requires forall i :: 0 <= i < |c| ==> c[i].close >= 0.0
    ensures forall g :: g in DetectFvgs(c) ==> g.top > g.bottom && g.gapSize > 0.0
  {
    var gaps := DetectFvgs(c);
    forall g | g in gaps
      ensures g.top > g.bottom && g.gapSize > 0.0
    {
      var k :| 0 <= k < |gaps| && gaps[k] == g;
      assert Describes(c, g);
      assert c[g.index].close >= 0.0;
    }
  }
}
