/** `TrendlineAnalyzer.build_trendline` of ta/trendlines.py: the line through
    the two most recent support lows, or nothing. */
module TrendlineAnalyzer {
  import opened Candles
  import opened OrderedIndices
  import opened SupportLows

  datatype Trendline = Trendline(slope: real, points: seq<Point>)

  /** The line through two candidate lows. */
  function LineThrough(lows: seq<real>, x1: nat, x2: nat): (t: Trendline)
    requires x1 < x2 < |lows|
    ensures |t.points| == 2 && t.points[0].x < t.points[1].x
    ensures t.slope > 0.0 <==> t.points[1].y > t.points[0].y
    ensures t.slope == 0.0 <==> t.points[1].y == t.points[0].y
  {
    var y1, y2 := lows[x1], lows[x2];
    SlopeSign(x1, y1, x2, y2);
    Trendline((y2 - y1) / (x2 - x1) as real, [Point(x1, y1), Point(x2, y2)])
  }

  /** `build_trendline`: at most one line, through the last two candidates. */
  function BuildTrendline(c: seq<Candle>): (lines: seq<Trendline>)
    ensures |lines| <= 1
    ensures forall t :: t in lines ==>
              && |t.points| == 2 && t.points[0].x < t.points[1].x
              && (t.slope > 0.0 <==> t.points[1].y > t.points[0].y)
              && (t.slope == 0.0 <==> t.points[1].y == t.points[0].y)
  {
    var lows := Lows(c);
    var mins := Candidates(lows);
    if |mins| >= 2 then
      [LineThrough(lows, mins[|mins| - 2], mins[|mins| - 1])]
    else
      []
  }

  /** The trendline exists exactly when the frame has two support lows, and
      it then runs through the two most recent ones. */
  lemma TrendlineThroughLastTwoSupports(c: seq<Candle>)
    ensures BuildTrendline(c) == [] <==> AtMostOne(SupportSet(Lows(c)))
    ensures forall i: nat, j: nat :: LastTwo(SupportSet(Lows(c)), i, j) ==>
              BuildTrendline(c) == [Trendline((c[j].low - c[i].low) / (j - i) as real, [Point(i, c[i].low), Point(j, c[j].low)])]
  {
    var lows := Lows(c);
    var S := SupportSet(lows);
    var mins := Candidates(lows);
    LastTwoOfEnumeration(mins, S);
    forall i: nat, j: nat | LastTwo(S, i, j)
      ensures BuildTrendline(c) == [Trendline((c[j].low - c[i].low) / (j - i) as real, [Point(i, c[i].low), Point(j, c[j].low)])]
    {
      LineThroughPair(c, mins, i, j);
    }
  }

  /** The line built from the last two listed candidates i and j. */
  lemma LineThroughPair(c: seq<Candle>, mins: seq<nat>, i: nat, j: nat)
    requires mins == Candidates(Lows(c))
    requires |mins| >= 2 && mins[|mins| - 2] == i && mins[|mins| - 1] == j
    ensures BuildTrendline(c) == [Trendline((c[j].low - c[i].low) / (j - i) as real, [Point(i, c[i].low), Point(j, c[j].low)])]
  {
    var lows := Lows(c);
    assert mins[|mins| - 1] in SupportSet(lows);
    assert mins[|mins| - 2] < mins[|mins| - 1];
    assert lows[i] == c[i].low && lows[j] == c[j].low;
  }

  /** The slope through two points with x1 < x2 has the sign of y2 - y1. */
  lemma SlopeSign(x1: nat, y1: real, x2: nat, y2: real)
    requires x1 < x2
    ensures (y2 - y1) / (x2 - x1) as real > 0.0 <==> y2 > y1
    ensures (y2 - y1) / (x2 - x1) as real == 0.0 <==> y2 == y1
  {
    var d := (x2 - x1) as real;
    var s := (y2 - y1) / d;
    assert s * d == y2 - y1;
  }

  /** Twenty bars or fewer never give a trendline. */
  lemma ShortFrameHasNoTrendline(c: seq<Candle>)
    requires |c| <= 20
    ensures BuildTrendline(c) == []
  {
    ShortFrameHasNoCandidates(Lows(c));
    TrendlineThroughLastTwoSupports(c);
  }
}
