/** The configuration mapping the components read with
    `config.get(section, {}).get(key, default)`, as a typed record: a missing
    section or key is `None`, and each reader supplies its own default. */
module BotConfig {
  import opened Common

  datatype RiskSection = RiskSection(
    maxRiskPct: Option<real>,
    minRr: Option<real>,
    leverage: Option<int>,
    maxPositions: Option<int>,
    positionTimeout: Option<real>)

  datatype FiltersSection = FiltersSection(lookbackDays: Option<int>)

  datatype Config = Config(risk: Option<RiskSection>, filters: Option<FiltersSection>)

  /** A configuration with neither section: every reader falls back to its default. */
  const Empty: Config := Config(None, None)

  function MaxRiskPctOr(cfg: Config, default: real): real {
    match cfg.risk
    case Some(r) => r.maxRiskPct.GetOr(default)
    case None => default
  }

  function MinRrOr(cfg: Config, default: real): real {
    match cfg.risk
    case Some(r) => r.minRr.GetOr(default)
    case None => default
  }

  function LeverageOr(cfg: Config, default: int): int {
    match cfg.risk
    case Some(r) => r.leverage.GetOr(default)
    case None => default
  }

  function MaxPositionsOr(cfg: Config, default: int): int {
    match cfg.risk
    case Some(r) => r.maxPositions.GetOr(default)
    case None => default
  }

  function PositionTimeoutOr(cfg: Config, default: real): real {
    match cfg.risk
    case Some(r) => r.positionTimeout.GetOr(default)
    case None => default
  }

  function LookbackDaysOr(cfg: Config, default: int): int {
    match cfg.filters
    case Some(f) => f.lookbackDays.GetOr(default)
    case None => default
  }
}
