/** The instrument test both universe builders apply (main.py
    `get_dynamic_symbols` and universe_filter.py): enough 24h volume, a
    USDT-margined perpetual swap, and not a BTC pair. */
module Symbols {
  import opened PySeq

  const SwapSuffix: string := "-USDT-SWAP"
  const Excluded: string := "BTC"

  predicate Eligible(symbol: string, volume: real, minVolume: real) {
    volume > minVolume && EndsWith(symbol, SwapSuffix) && !Contains(symbol, Excluded)
  }
}
