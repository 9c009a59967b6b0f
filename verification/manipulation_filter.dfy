/** `ManipulationFilter` of manipulation_filter.py: a frame is clean unless
    it holds at least `anomaly_threshold` candles whose shadows dwarf their
    bodies. */
module ManipulationFilter {
  import opened Candles
  import opened WickAnomaly

  /** The filter's state. `banned` is created empty and never written or read
      by the filter's operations; only its keys are kept here. */
  datatype Filter = Filter(wickThreshold: real, anomalyThreshold: int, banned: set<string>)

  const BodyEpsilon: Epsilon := 0.00000001

  /** Frames shorter than this are always clean. */
  const MinRows: nat := 50

  /** `ManipulationFilter.__init__`. */
  function NewFilter(wickThreshold: real, anomalyThreshold: int): (f: Filter)
    ensures f.wickThreshold == wickThreshold && f.anomalyThreshold == anomalyThreshold
    ensures f.banned == {}
  {
    Filter(wickThreshold, anomalyThreshold, {})
  }

  /** `ManipulationFilter()` with its default arguments. */
  function DefaultFilter(): (f: Filter)
    ensures f.wickThreshold == 3.0 && f.anomalyThreshold == 5 && f.banned == {}
  {
    NewFilter(3.0, 5)
  }

  /** `is_clean`: short frames pass; otherwise the frame is clean exactly when
      fewer than `anomaly_threshold` of ALL its candles are anomalous. */
  function IsClean(f: Filter, df: seq<Candle>): (clean: bool)
    ensures |df| < MinRows ==> clean
    ensures |df| >= MinRows ==> (clean <==> |AnomalousBars(df, BodyEpsilon, f.wickThreshold)| < f.anomalyThreshold)
  {
    if |df| < MinRows then true
    else
      AnomalyCountIsBarCount(df, BodyEpsilon, f.wickThreshold);
      AnomalyCount(df, BodyEpsilon, f.wickThreshold) < f.anomalyThreshold
  }
}
