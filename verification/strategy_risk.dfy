/** `RiskManager` of strategy/riskmanager.py: the same gate as risk_manager.py
    with the risk cap kept in percent and no guard against a zero risk. */
module StrategyRisk {
  import opened Common
  import BotConfig
  import RM = RiskManager

  /** `max_risk_pct` is held in percent. */
  datatype StrategyRiskManager = StrategyRiskManager(maxRiskPct: real, minRr: real, leverage: int)

  /** `__init__`: defaults 5.0 percent, 4.0 and 10, nothing rescaled. */
  function FromConfig(cfg: BotConfig.Config): (rm: StrategyRiskManager)
    ensures rm.maxRiskPct == BotConfig.MaxRiskPctOr(cfg, 5.0)
    ensures cfg.risk.None? ==> rm.maxRiskPct == 5.0 && rm.minRr == 4.0 && rm.leverage == 10
    ensures cfg.risk.Some? ==>
              && rm.maxRiskPct == (if cfg.risk.value.maxRiskPct.Some? then cfg.risk.value.maxRiskPct.value else 5.0)
              && rm.minRr == (if cfg.risk.value.minRr.Some? then cfg.risk.value.minRr.value else 4.0)
              && rm.leverage == (if cfg.risk.value.leverage.Some? then cfg.risk.value.leverage.value else 10)
  {
    StrategyRiskManager(BotConfig.MaxRiskPctOr(cfg, 5.0), BotConfig.MinRrOr(cfg, 4.0), BotConfig.LeverageOr(cfg, 10))
  }

  /** `validate_signal`. The source divides by `entry` and by the risk with no
      guard, so a zero entry or a stop at entry is a division fault there. */
  function ValidateSignal(rm: StrategyRiskManager, symbol: string, entry: real, sl: real, tp: real): (ok: bool)
    requires entry != 0.0 && entry != sl
    ensures entry > 0.0 ==>
              (ok <==> RM.RewardToRisk(entry, sl, tp) >= rm.minRr && Abs(entry - sl) * 100.0 <= rm.maxRiskPct * entry)
  {
    var risk := Abs(entry - sl) / entry;
    var reward := Abs(tp - entry) / entry;
    var rr := reward / risk;
    if entry > 0.0 then
      RM.ScaledRatio(Abs(entry - sl), Abs(tp - entry), entry);
      assert risk * entry == Abs(entry - sl);
      assert risk <= rm.maxRiskPct / 100.0 <==> Abs(entry - sl) * 100.0 <= rm.maxRiskPct * entry;
      rr >= rm.minRr && risk <= rm.maxRiskPct / 100.0
    else
      rr >= rm.minRr && risk <= rm.maxRiskPct / 100.0
  }

  /** Read from the same configuration, the two risk managers give the same
      verdict on every trade with a positive entry and a stop away from it. */
  lemma AgreesWithValidateTrade(cfg: BotConfig.Config, symbol: string, entry: real, sl: real, tp: real)
    requires entry > 0.0 && entry != sl
    ensures ValidateSignal(FromConfig(cfg), symbol, entry, sl, tp) == RM.ValidateTrade(RM.FromConfig(cfg), entry, sl, tp)
  {
    var rm := RM.FromConfig(cfg);
    RM.ValidateTradeMeaning(rm, entry, sl, tp);
    var a := Abs(entry - sl);
    assert a <= rm.maxRiskPct * entry <==> a * 100.0 <= (rm.maxRiskPct * 100.0) * entry;
  }

  /** Neither the symbol nor the leverage changes the verdict. */
  lemma SymbolAndLeverageIgnored(rm: StrategyRiskManager, leverage: int, s: string, t: string, entry: real, sl: real, tp: real)
    requires entry != 0.0 && entry != sl
    ensures ValidateSignal(rm.(leverage := leverage), s, entry, sl, tp) == ValidateSignal(rm, t, entry, sl, tp)
  {
  }
}
