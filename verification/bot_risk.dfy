/** The scanner's volatility measures and ATR-based levels (main.py
    `atr_pct`, `daily_range`, `risk_calc`). The ATR mean itself (a pandas
    shift/concat/mean over true ranges) is an input. */
module BotRisk {
  import opened Common
  import opened Candles
  import RM = RiskManager

  /** `atr_pct` needs at least this many candles. */
  const AtrMinRows: nat := 14

  /** `daily_range` needs at least this many candles. */
  const DayBars: nat := 96

  /** `atr_pct`: the ATR as a percentage of the last close, and 0 for short
      frames or a non-positive price. */
  function AtrPct(c: seq<Candle>, atrMean: real): (pct: real)
    ensures |c| < AtrMinRows ==> pct == 0.0
    ensures |c| >= AtrMinRows && LastClose(c) <= 0.0 ==> pct == 0.0
    ensures |c| >= AtrMinRows && LastClose(c) > 0.0 ==> pct * LastClose(c) == atrMean * 100.0
  {
    if |c| < AtrMinRows then 0.0
    else
      var price := LastClose(c);
      if price > 0.0 then
        assert (atrMean / price) * price == atrMean;
        (atrMean / price) * 100.0
      else 0.0
  }

  /** `daily_range`: None for short frames, and 0 for a non-positive close. */
  function DailyRange(c: seq<Candle>): (r: Option<real>)
    ensures r.None? <==> |c| < DayBars
    ensures r.Some? && LastClose(c) <= 0.0 ==> r.value == 0.0
  {
    if |c| < DayBars then None
    else Some(RangePct(DaySpread(c[|c| - DayBars..]), LastClose(c)))
  }

  /** The spread of a window: its highest high minus its lowest low. */
  function DaySpread(w: seq<Candle>): real
    requires |w| > 0
  {
    SeqMax(Highs(w)) - SeqMin(Lows(w))
  }

  /** A spread as a percentage of the close, 0 for a non-positive close. */
  function RangePct(spread: real, close: real): real {
    if close > 0.0 then spread / close * 100.0 else 0.0
  }

  /** Otherwise the daily range is the spread between the highest high and the
      lowest low of the last 96 candles, as a percentage of the last close: at
      least every high-minus-low pair of the window, and equal to one of them. */
  lemma DailyRangeSpansLastDay(c: seq<Candle>)
    requires |c| >= DayBars && LastClose(c) > 0.0
    ensures var scaled := DailyRange(c).value * LastClose(c);
            && (forall i, j :: |c| - DayBars <= i < |c| && |c| - DayBars <= j < |c| ==>
                  scaled >= (c[i].high - c[j].low) * 100.0)
            && (exists i, j :: |c| - DayBars <= i < |c| && |c| - DayBars <= j < |c| &&
                  scaled == (c[i].high - c[j].low) * 100.0)
  {
    var w := c[|c| - DayBars..];
    var pct := RangePct(DaySpread(w), LastClose(c));
    assert DailyRange(c).value == pct;
    RangePctScaled(DaySpread(w), LastClose(c));
    var scaled := DailyRange(c).value * LastClose(c);
    assert scaled == DaySpread(w) * 100.0;
    LastDaySpreadBounds(c, scaled);
    LastDaySpreadAttained(c, scaled);
  }

  /** 100 times the spread of the last 96 candles bounds every scaled
      high-minus-low pair of them. */
  lemma LastDaySpreadBounds(c: seq<Candle>, scaled: real)
    requires |c| >= DayBars && scaled == DaySpread(c[|c| - DayBars..]) * 100.0
    ensures forall i, j :: |c| - DayBars <= i < |c| && |c| - DayBars <= j < |c| ==>
              scaled >= (c[i].high - c[j].low) * 100.0
  {
    var off := |c| - DayBars;
    var w := c[off..];
    SpreadBounds(w);
    forall i, j | off <= i < |c| && off <= j < |c|
      ensures scaled >= (c[i].high - c[j].low) * 100.0
    {
      assert w[i - off] == c[i] && w[j - off] == c[j];
      assert DaySpread(w) >= w[i - off].high - w[j - off].low;
    }
  }

  /** ... and equals one of them. */
  lemma LastDaySpreadAttained(c: seq<Candle>, scaled: real)
    requires |c| >= DayBars && scaled == DaySpread(c[|c| - DayBars..]) * 100.0
    ensures exists i, j :: |c| - DayBars <= i < |c| && |c| - DayBars <= j < |c| &&
              scaled == (c[i].high - c[j].low) * 100.0
  {
    var off := |c| - DayBars;
    var w := c[off..];
    var a, b := SpreadAttained(w);
    var i, j := off + a, off + b;
    assert c[i] == w[a] && c[j] == w[b];
    assert scaled == (c[i].high - c[j].low) * 100.0;
  }

  /** Scaling by a positive close undoes the percentage. */
  lemma RangePctScaled(spread: real, close: real)
    requires close > 0.0
    ensures RangePct(spread, close) * close == spread * 100.0
  {
    assert (spread / close) * close == spread;
  }

  /** A window's spread bounds every high-minus-low pair of it... */
  lemma SpreadBounds(w: seq<Candle>)
    requires |w| > 0
    ensures forall i, j :: 0 <= i < |w| && 0 <= j < |w| ==> DaySpread(w) >= w[i].high - w[j].low
  {
    var hs, ls := Highs(w), Lows(w);
    forall i, j | 0 <= i < |w| && 0 <= j < |w|
      ensures DaySpread(w) >= w[i].high - w[j].low
    {
      assert hs[i] <= SeqMax(hs) && ls[j] >= SeqMin(ls);
    }
  }

  /** ... and equals the pair of its highest high and its lowest low. */
  lemma SpreadAttained(w: seq<Candle>) returns (a: nat, b: nat)
    requires |w| > 0
    ensures a < |w| && b < |w| && DaySpread(w) == w[a].high - w[b].low
  {
    var hs, ls := Highs(w), Lows(w);
    a :| a < |hs| && hs[a] == SeqMax(hs);
    b :| b < |ls| && ls[b] == SeqMin(ls);
  }

  /** The levels `risk_calc` returns. */
  datatype RiskLevels = RiskLevels(entry: real, sl: real, tp: real, rr: real, atr: real)

  /** `risk_calc`: entry at the last close, stop above and target below it by
      multiples of the ATR percentage. Called only on fetched frames, which
      are never empty. */
  function RiskCalc(c: seq<Candle>, atrMean: real, slMult: real, tpMult: real): (r: RiskLevels)
    requires |c| > 0
    ensures r.entry == LastClose(c) && r.atr == AtrPct(c, atrMean)
    ensures (r.sl - r.entry) * 100.0 == r.entry * slMult * r.atr
    ensures (r.entry - r.tp) * 100.0 == r.entry * tpMult * r.atr
    ensures slMult * r.atr > 0.0 ==> r.rr * (r.sl - r.entry) == r.entry - r.tp
    ensures slMult * r.atr <= 0.0 ==> r.rr == 0.0
    ensures r.entry > 0.0 && r.atr > 0.0 && slMult > 0.0 && tpMult > 0.0 ==>
              r.sl > r.entry > r.tp && r.rr == tpMult / slMult
  {
    var entry := LastClose(c);
    var atr := AtrPct(c, atrMean);
    var slPct := slMult * atr;
    var tpPct := tpMult * atr;
    var sl := entry + (entry * slPct / 100.0);
    var tp := entry - (entry * tpPct / 100.0);
    var rr := if slPct > 0.0 then tpPct / slPct else 0.0;
    assert (sl - entry) * 100.0 == entry * slPct;
    assert (entry - tp) * 100.0 == entry * tpPct;
    if slPct > 0.0 then
      assert rr * slPct == tpPct;
      assert rr * (sl - entry) == (rr * slPct) * entry / 100.0;
      if atr > 0.0 && slMult > 0.0 then
        assert (tpMult / slMult) * slPct == tpPct;
        RiskLevels(entry, sl, tp, rr, atr)
      else
        RiskLevels(entry, sl, tp, rr, atr)
    else
      RiskLevels(entry, sl, tp, rr, atr)
  }

  /** With a positive entry and a positive ATR distance, the ratio `risk_calc`
      reports is the reward-to-risk of its own stop and target. */
  lemma RiskCalcRatioIsRewardToRisk(c: seq<Candle>, atrMean: real, slMult: real, tpMult: real)
    requires |c| > 0 && LastClose(c) > 0.0
    requires slMult * AtrPct(c, atrMean) > 0.0 && tpMult * AtrPct(c, atrMean) >= 0.0
    ensures var r := RiskCalc(c, atrMean, slMult, tpMult);
            r.rr == RM.RewardToRisk(r.entry, r.sl, r.tp)
  {
    var r := RiskCalc(c, atrMean, slMult, tpMult);
    var e := r.entry;
    var slPct, tpPct := slMult * r.atr, tpMult * r.atr;
    assert r.sl - e == e * slPct / 100.0 > 0.0;
    assert e - r.tp == e * tpPct / 100.0 >= 0.0;
    assert Abs(r.tp - e) == e - r.tp && Abs(e - r.sl) == r.sl - e;
    assert r.rr * (r.sl - e) == e - r.tp;
  }
}
