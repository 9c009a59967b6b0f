/** `TrendAnalyzer.build_trendlines` of trend_analyzer.py: the same line
    through the two most recent support lows, tagged with whether it rises. */
module TrendAnalyzer {
  import opened Candles
  import opened OrderedIndices
  import opened SupportLows
  import TA = TrendlineAnalyzer

  datatype RatedTrendline = RatedTrendline(slope: real, points: seq<Point>, isUptrend: bool)

  function BuildTrendlines(c: seq<Candle>): (lines: seq<RatedTrendline>)
    ensures |lines| <= 1
    ensures forall t :: t in lines ==> (t.isUptrend <==> t.slope > 0.0)
  {
    var lows := Lows(c);
    var mins := Candidates(lows);
    if |mins| >= 2 then
      var x1, x2 := mins[|mins| - 2], mins[|mins| - 1];
      var y1, y2 := lows[x1], lows[x2];
      var slope := (y2 - y1) / (x2 - x1) as real;
      [RatedTrendline(slope, [Point(x1, y1), Point(x2, y2)], slope > 0.0)]
    else
      []
  }

  /** On the same frame both builders return the same slope and points, and
      the extra flag says the more recent candidate low is the higher one. */
  lemma AgreesWithTrendlineAnalyzer(c: seq<Candle>)
    ensures |BuildTrendlines(c)| == |TA.BuildTrendline(c)|
    ensures forall k :: 0 <= k < |BuildTrendlines(c)| ==>
              var t, u := BuildTrendlines(c)[k], TA.BuildTrendline(c)[k];
              && t.slope == u.slope && t.points == u.points
              && (t.isUptrend <==> u.points[1].y > u.points[0].y)
  {
    var mins := Candidates(Lows(c));
    if |mins| >= 2 {
      var lines, ref := BuildTrendlines(c), TA.BuildTrendline(c);
      assert lines[0].slope == ref[0].slope && lines[0].points == ref[0].points;
      assert lines[0].isUptrend == (lines[0].slope > 0.0);
    }
  }

  /** The tagged line exists exactly when the frame has two support lows; it
      runs through the two most recent ones and is rising exactly when the
      later of them is the higher. */
  lemma RisingMeansHigherLastSupport(c: seq<Candle>)
    ensures BuildTrendlines(c) == [] <==> AtMostOne(SupportSet(Lows(c)))
    ensures forall i: nat, j: nat :: LastTwo(SupportSet(Lows(c)), i, j) ==>
              && |BuildTrendlines(c)| == 1
              && BuildTrendlines(c)[0].points == [Point(i, c[i].low), Point(j, c[j].low)]
              && (BuildTrendlines(c)[0].isUptrend <==> c[j].low > c[i].low)
  {
    AgreesWithTrendlineAnalyzer(c);
    TA.TrendlineThroughLastTwoSupports(c);
  }
}
