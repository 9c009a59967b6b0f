/** The per-strategy signal conjunctions of main.py `analyze`. Correlation to
    BTC, the 24h volume and the ATR mean come from collaborators outside this
    model and are inputs; the candle frame is what `get_data` fetched. */
module BotSignals {
  import opened Common
  import opened Candles
  import BP = BotPatterns
  import BR = BotRisk

  datatype Strategy = FvgStrategy | TrendStrategy | ComboStrategy

  /** The constants main.py imports from its `config` module. */
  datatype ScanSettings = ScanSettings(
    minFvg: int,
    minCorr: real,
    minRr: real,
    min24hVolUsd: real,
    fvgLookback: int,
    trendLookback: nat,
    manipWickRatio: real,
    manipMaxAnomalies: int,
    atrSlMult: real,
    atrTpMult: real)

  /** Everything `analyze` computes before deciding. */
  datatype Indicators = Indicators(
    fvg: nat,
    trend: bool,
    corr: real,
    clean: bool,
    vol24hOk: bool,
    vol24h: real,
    levels: BR.RiskLevels)

  /** The record appended to `self.signals` (its timestamp is left out). */
  datatype Signal = Signal(
    symbol: string,
    strategy: Strategy,
    entry: real,
    sl: real,
    tp: real,
    rr: real,
    fvg: Option<nat>,
    vol24h: real)

  /** `get_data` hands back no frame with fewer rows than this. */
  const MinFrameRows: nat := 50

  /** The indicator values `analyze` computes for one frame. */
  function Measure(s: ScanSettings, c: seq<Candle>, corr: real, vol24h: real, atrMean: real): Indicators
    requires |c| > 0
  {
    Indicators(
      BP.FvgCount(c, s.fvgLookback),
      BP.TrendCheck(c, s.trendLookback),
      corr,
      BP.ManipCheck(c, s.manipWickRatio, s.manipMaxAnomalies),
      vol24h >= s.min24hVolUsd,
      vol24h,
      BR.RiskCalc(c, atrMean, s.atrSlMult, s.atrTpMult))
  }

  /** The condition under which `analyze` emits a signal for a strategy. */
  predicate Fires(s: ScanSettings, strategy: Strategy, ind: Indicators) {
    var corrOk := ind.corr < s.minCorr;
    match strategy
    case FvgStrategy =>
      ind.fvg >= s.minFvg && corrOk && ind.vol24hOk && ind.levels.rr >= s.minRr
    case TrendStrategy =>
      ind.trend && corrOk && ind.clean && ind.vol24hOk && ind.levels.rr >= s.minRr
    case ComboStrategy =>
      ind.fvg >= s.minFvg && ind.trend && corrOk && ind.clean && ind.vol24hOk && ind.levels.rr >= s.minRr
  }

  /** `analyze` for one symbol: nothing when the fetch failed or the frame is
      short, otherwise a signal carrying the `risk_calc` levels exactly when
      the strategy's conjunction holds. */
  function Analyze(s: ScanSettings, symbol: string, strategy: Strategy, fetched: Option<seq<Candle>>,
                   corr: real, vol24h: real, atrMean: real): (sig: Option<Signal>)
    ensures sig.Some? <==>
              && fetched.Some? && |fetched.value| >= MinFrameRows
              && Fires(s, strategy, Measure(s, fetched.value, corr, vol24h, atrMean))
    ensures sig.Some? ==>
              && sig.value.symbol == symbol && sig.value.strategy == strategy
              && sig.value.entry == LastClose(fetched.value)
              && sig.value.vol24h == vol24h
              && (sig.value.fvg.Some? <==> strategy != TrendStrategy)
    ensures sig.Some? ==>
              var lv := BR.RiskCalc(fetched.value, atrMean, s.atrSlMult, s.atrTpMult);
              sig.value.sl == lv.sl && sig.value.tp == lv.tp && sig.value.rr == lv.rr
    ensures sig.Some? && strategy != TrendStrategy ==> sig.value.fvg == Some(BP.FvgCount(fetched.value, s.fvgLookback))
  {
    match fetched
    case None => None
    case Some(c) =>
      if |c| < MinFrameRows then None
      else
        var ind := Measure(s, c, corr, vol24h, atrMean);
        var lv := ind.levels;
        if Fires(s, strategy, ind) then
          var fvg := if strategy == TrendStrategy then None else Some(ind.fvg);
          Some(Signal(symbol, strategy, lv.entry, lv.sl, lv.tp, lv.rr, fvg, vol24h))
        else None
  }

  /** Every strategy requires low correlation, enough 24h volume and the
      minimum reward-to-risk; TREND and COMBO also require a rising trend and
      a clean frame. */
  lemma CommonGates(s: ScanSettings, strategy: Strategy, ind: Indicators)
    requires Fires(s, strategy, ind)
    ensures ind.corr < s.minCorr && ind.vol24hOk && ind.levels.rr >= s.minRr
    ensures strategy != FvgStrategy ==> ind.trend && ind.clean
    ensures strategy != TrendStrategy ==> ind.fvg >= s.minFvg
  {
  }

  /** The FVG strategy does not look at the trend or the manipulation check. */
  lemma FvgIgnoresTrendAndClean(s: ScanSettings, ind: Indicators, trend: bool, clean: bool)
    ensures Fires(s, FvgStrategy, ind) == Fires(s, FvgStrategy, ind.(trend := trend, clean := clean))
  {
  }

  /** COMBO fires exactly when both the FVG and the TREND conditions hold. */
  lemma ComboIsFvgAndTrend(s: ScanSettings, ind: Indicators)
    ensures Fires(s, ComboStrategy, ind) <==> Fires(s, FvgStrategy, ind) && Fires(s, TrendStrategy, ind)
  {
  }

  /** With a positive price, positive ATR multipliers and a positive minimum
      ratio, every emitted signal is a short: stop above entry, target below. */
  lemma SignalsAreShorts(s: ScanSettings, symbol: string, strategy: Strategy, fetched: Option<seq<Candle>>,
                         corr: real, vol24h: real, atrMean: real)
    requires s.minRr > 0.0 && s.atrSlMult > 0.0 && s.atrTpMult > 0.0
    requires Analyze(s, symbol, strategy, fetched, corr, vol24h, atrMean).Some?
    requires LastClose(fetched.value) > 0.0
    ensures var sig := Analyze(s, symbol, strategy, fetched, corr, vol24h, atrMean).value;
            sig.sl > sig.entry > sig.tp && sig.rr == s.atrTpMult / s.atrSlMult
  {
    var c := fetched.value;
    var ind := Measure(s, c, corr, vol24h, atrMean);
    CommonGates(s, strategy, ind);
    var lv := ind.levels;
    assert lv.rr > 0.0;
    assert s.atrSlMult * lv.atr > 0.0;
  }
}
