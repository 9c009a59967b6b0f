/** The range checks of validators.py. */
module Validators {
  import RM = RiskManager

  const MaxSize: real := 1000.0
  const DefaultMinSize: real := 0.001
  const DefaultMinRr: real := 4.0
  const MinLeverage: int := 1
  const MaxLeverage: int := 125

  predicate ValidatePrice(price: real) {
    price > 0.0
  }

  predicate ValidateSize(size: real, minSize: real) {
    size >= minSize && size <= MaxSize
  }

  predicate ValidateRr(rr: real, minRr: real) {
    rr >= minRr
  }

  predicate ValidateLeverage(leverage: int) {
    MinLeverage <= leverage <= MaxLeverage
  }

  /** The ranges are closed at both ends: zero is not a price, 1000 is the
      largest size accepted, and leverage runs from 1 to 125 inclusive. */
  lemma RangeBoundaries()
    ensures !ValidatePrice(0.0) && ValidatePrice(0.00000001)
    ensures ValidateSize(DefaultMinSize, DefaultMinSize) && ValidateSize(1000.0, DefaultMinSize)
    ensures !ValidateSize(1000.001, DefaultMinSize) && !ValidateSize(0.0009, DefaultMinSize)
    ensures ValidateRr(4.0, DefaultMinRr) && !ValidateRr(3.99, DefaultMinRr)
    ensures ValidateLeverage(1) && ValidateLeverage(125) && !ValidateLeverage(0) && !ValidateLeverage(126)
  {
  }

  /** A trade the risk manager accepts has a valid price and passes the
      reward-to-risk check at the manager's `min_rr`; the manager's default
      leverage of 10 is within the exchange range. */
  lemma AcceptedTradePassesValidators(rm: RM.RiskManager, entry: real, sl: real, tp: real)
    requires entry > 0.0 && RM.ValidateTrade(rm, entry, sl, tp)
    ensures ValidatePrice(entry)
    ensures ValidateRr(RM.RewardToRisk(entry, sl, tp), rm.minRr)
    ensures ValidateLeverage(RM.FromConfig(RM.BotConfig.Empty).leverage)
  {
    RM.ValidateTradeMeaning(rm, entry, sl, tp);
  }
}
