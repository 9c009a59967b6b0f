/** `ManipulationFilter` of screening/manipulationfilter.py: an asset is
    flagged when more than five of its candles have shadows over three times
    their body. */
module ScreeningFilter {
  import opened Candles
  import opened WickAnomaly
  import BotConfig
  import MF = ManipulationFilter

  /** The filter keeps `lookback_days` from the `filters` section; nothing
      reads it afterwards. */
  datatype ScreeningFilter = ScreeningFilter(lookbackDays: int)

  const BodyEpsilon: Epsilon := 0.00000001
  const WickLimit: real := 3.0
  const MaxManipulationWicks: nat := 5
  const MinRows: nat := 50

  /** `__init__`: `lookbackdays` from the `filters` section, default 3. */
  function FromConfig(cfg: BotConfig.Config): (f: ScreeningFilter)
    ensures cfg.filters.None? ==> f.lookbackDays == 3
    ensures cfg.filters.Some? ==> f.lookbackDays == cfg.filters.value.lookbackDays.GetOr(3)
  {
    ScreeningFilter(BotConfig.LookbackDaysOr(cfg, 3))
  }

  /** `is_manipulation_asset`: short frames are never flagged; otherwise the
      asset is flagged exactly when more than five candles are anomalous. */
  function IsManipulationAsset(f: ScreeningFilter, symbol: string, df: seq<Candle>): (flagged: bool)
    ensures |df| < MinRows ==> !flagged
    ensures |df| >= MinRows ==> (flagged <==> |AnomalousBars(df, BodyEpsilon, WickLimit)| > MaxManipulationWicks)
  {
    if |df| < MinRows then false
    else
      AnomalyCountIsBarCount(df, BodyEpsilon, WickLimit);
      AnomalyCount(df, BodyEpsilon, WickLimit) > MaxManipulationWicks
  }

  /** Neither the symbol nor the configured look-back changes the verdict. */
  lemma VerdictIgnoresSymbolAndLookback(f: ScreeningFilter, g: ScreeningFilter, s: string, t: string, df: seq<Candle>)
    ensures IsManipulationAsset(f, s, df) == IsManipulationAsset(g, t, df)
  {
  }

  /** The two filters are complementary (clean exactly when not flagged, with
      default settings) except on long frames with exactly five anomalous
      candles, where the first calls the frame unclean and the second does
      not flag it. */
  lemma FiltersComplementaryExceptAtFive(f: ScreeningFilter, s: string, df: seq<Candle>)
    ensures (MF.IsClean(MF.DefaultFilter(), df) == !IsManipulationAsset(f, s, df))
        <==> !(|df| >= MinRows && |AnomalousBars(df, BodyEpsilon, WickLimit)| == 5)
  {
  }

  /** A concrete frame in the gap between the two filters: fifty candles of
      which five are flat-bodied spikes. */
  lemma FiveSpikesFoolBothFilters(f: ScreeningFilter, s: string)
    ensures exists df: seq<Candle> ::
              |df| == 50 && !MF.IsClean(MF.DefaultFilter(), df) && !IsManipulationAsset(f, s, df)
  {
    var spike := Candle(0, 10.0, 11.0, 9.0, 10.0, 0.0);
    var plain := Candle(0, 10.0, 11.0, 10.0, 11.0, 0.0);
    var df := Repeat(spike, 5) + Repeat(plain, 45);
    AnomalyCountRepeat(spike, 5, BodyEpsilon, WickLimit);
    AnomalyCountRepeat(plain, 45, BodyEpsilon, WickLimit);
    AnomalyCountAppend(Repeat(spike, 5), Repeat(plain, 45), BodyEpsilon, WickLimit);
    AnomalyCountIsBarCount(df, BodyEpsilon, WickLimit);
    assert |AnomalousBars(df, BodyEpsilon, WickLimit)| == 5;
    FiltersComplementaryExceptAtFive(f, s, df);
  }
}
