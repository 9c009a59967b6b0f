/** `RiskManager` of risk_manager.py: the reward-to-risk and risk-size gate,
    and position sizing. */
module RiskManager {
  import opened Common
  import BotConfig

  /** `max_risk_pct` is held as a fraction (the configured percentage / 100). */
  datatype RiskManager = RiskManager(maxRiskPct: real, minRr: real, leverage: int)

  /** `__init__`: `maxriskpct` (default 5.0 percent) stored divided by 100,
      `minrr` default 4.0, `leverage` default 10. */
  function FromConfig(cfg: BotConfig.Config): (rm: RiskManager)
    ensures rm.maxRiskPct * 100.0 == BotConfig.MaxRiskPctOr(cfg, 5.0)
    ensures rm.minRr == BotConfig.MinRrOr(cfg, 4.0)
    ensures cfg.risk.None? ==> rm.maxRiskPct == 0.05 && rm.minRr == 4.0 && rm.leverage == 10
    ensures cfg.risk.Some? ==> rm.leverage == (if cfg.risk.value.leverage.Some? then cfg.risk.value.leverage.value else 10)
  {
    RiskManager(BotConfig.MaxRiskPctOr(cfg, 5.0) / 100.0, BotConfig.MinRrOr(cfg, 4.0), BotConfig.LeverageOr(cfg, 10))
  }

  /** Reward-to-risk: the distance to the target over the distance to the
      stop, zero when the stop sits at entry. */
  function RewardToRisk(entry: real, sl: real, tp: real): real {
    if entry == sl then 0.0 else Abs(tp - entry) / Abs(entry - sl)
  }

  /** `validate_trade`. The source divides by `entry`, so entry must not be 0. */
  function ValidateTrade(rm: RiskManager, entry: real, sl: real, tp: real): bool
    requires entry != 0.0
  {
    var risk := Abs(entry - sl) / entry;
    var reward := Abs(tp - entry) / entry;
    var rr := if risk > 0.0 then reward / risk else 0.0;
    rr >= rm.minRr && risk <= rm.maxRiskPct
  }

  /** Dividing both distances by the same positive entry leaves their ratio
      unchanged, and a bound on a fraction of entry is a bound on the distance. */
  lemma ScaledRatio(a: real, b: real, e: real)
    requires a > 0.0 && e > 0.0
    ensures (b / e) / (a / e) == b / a
  {
    var x, y := a / e, b / e;
    assert x * e == a && y * e == b;
    assert (y / x) * a == (y / x) * (x * e) == y * e;
  }

  /** Bounding a fraction of a positive entry bounds the distance itself. */
  lemma FractionBound(a: real, e: real, m: real)
    requires e > 0.0
    ensures a / e <= m <==> a <= m * e
  {
    var f := a / e;
    assert f * e == a;
    if f <= m {
      assert f * e <= m * e;
    } else {
      assert f * e > m * e;
    }
  }

  /** Dividing by a negative entry reverses the bound. */
  lemma NegativeFractionBound(a: real, e: real, m: real)
    requires e < 0.0
    ensures a / e <= m <==> a >= m * e
  {
    var f := a / e;
    assert f * e == a;
    if f <= m {
      assert f * e >= m * e;
    } else {
      assert f * e < m * e;
    }
  }

  /** The ratio `validate_trade` computes is the reward-to-risk for a
      positive entry, and 0 for a negative one. */
  lemma ComputedRatio(entry: real, sl: real, tp: real)
    requires entry != 0.0
    ensures var risk := Abs(entry - sl) / entry;
            var rr := if risk > 0.0 then (Abs(tp - entry) / entry) / risk else 0.0;
            rr == if entry > 0.0 then RewardToRisk(entry, sl, tp) else 0.0
  {
    var a := Abs(entry - sl);
    if entry > 0.0 {
      if a > 0.0 {
        ScaledRatio(a, Abs(tp - entry), entry);
      } else {
        assert a / entry == 0.0;
      }
    } else {
      NegativeFractionBound(a, entry, 0.0);
    }
  }

  /** For a positive entry the gate accepts exactly the trades whose
      reward-to-risk reaches `min_rr` and whose stop lies within
      `max_risk_pct` of entry. For a negative entry the computed risk is
      negative, the ratio falls back to 0, and only `min_rr <= 0` can pass. */
  lemma ValidateTradeMeaning(rm: RiskManager, entry: real, sl: real, tp: real)
    requires entry != 0.0
    ensures entry > 0.0 ==>
              (ValidateTrade(rm, entry, sl, tp) <==>
                 RewardToRisk(entry, sl, tp) >= rm.minRr && Abs(entry - sl) <= rm.maxRiskPct * entry)
    ensures entry < 0.0 ==>
              (ValidateTrade(rm, entry, sl, tp) <==>
                 0.0 >= rm.minRr && Abs(entry - sl) >= rm.maxRiskPct * entry)
  {
    ComputedRatio(entry, sl, tp);
    if entry > 0.0 {
      FractionBound(Abs(entry - sl), entry, rm.maxRiskPct);
    } else {
      NegativeFractionBound(Abs(entry - sl), entry, rm.maxRiskPct);
    }
  }

  /** A stop at entry gives ratio 0 and is rejected whenever `min_rr` is positive. */
  lemma StopAtEntryRejected(rm: RiskManager, entry: real, tp: real)
    requires entry != 0.0 && rm.minRr > 0.0
    ensures !ValidateTrade(rm, entry, entry, tp)
  {
  }

  /** Entry 100, stop 98, target 110: ratio 5.0, accepted with the defaults. */
  lemma DefaultsAcceptFiveToOne()
    ensures RewardToRisk(100.0, 98.0, 110.0) == 5.0
    ensures ValidateTrade(FromConfig(BotConfig.Empty), 100.0, 98.0, 110.0)
  {
    ValidateTradeMeaning(FromConfig(BotConfig.Empty), 100.0, 98.0, 110.0);
  }

  /** `calculate_position_size`: the notional whose loss at the stop is
      `balance * max_risk_pct`; zero when the stop sits at entry. */
  function PositionSize(rm: RiskManager, balance: real, entry: real, sl: real): (size: real)
    requires entry != 0.0
    ensures entry == sl ==> size == 0.0
    ensures entry > 0.0 && entry != sl ==> size * (Abs(entry - sl) / entry) == balance * rm.maxRiskPct
  {
    var riskAmount := balance * rm.maxRiskPct;
    var riskPerUnit := Abs(entry - sl) / entry;
    if riskPerUnit > 0.0 then riskAmount / riskPerUnit else 0.0
  }

  /** Balance 1000, entry 100, stop 95 with the defaults: size 1000. */
  lemma DefaultSizeExample()
    ensures PositionSize(FromConfig(BotConfig.Empty), 1000.0, 100.0, 95.0) == 1000.0
  {
  }

  /** `leverage` is stored but neither result reads it. */
  lemma LeverageIgnored(rm: RiskManager, leverage: int, balance: real, entry: real, sl: real, tp: real)
    requires entry != 0.0
    ensures ValidateTrade(rm.(leverage := leverage), entry, sl, tp) == ValidateTrade(rm, entry, sl, tp)
    ensures PositionSize(rm.(leverage := leverage), balance, entry, sl) == PositionSize(rm, balance, entry, sl)
  {
  }
}
