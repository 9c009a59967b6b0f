# okx-bot_reserve short-signal scanner — a Dafny model

This project models the decision logic of the `okx-bot_reserve` scanner. The
scanner looks for short entries on OKX USDT perpetual swaps. It covers:

- **Candle patterns.** Three-candle fair-value gaps (`fvg_count`, `FVGDetector`).
  A rising-peaks trend check (`trend_check`). The support trendline through the
  last two rolling-minimum lows (`TrendlineAnalyzer`, `TrendAnalyzer`). The
  wick/body manipulation filters (`ManipulationFilter`, the screening filter,
  `manip_check`).
- **Risk gates.** The two risk managers. The ATR-based stop/target in
  `risk_calc` and the guards of `atr_pct` and `daily_range`. The validators.
  The per-strategy signal conjunctions in `analyze`.
- **Bookkeeping.** `PositionManager`, a capped map of open shorts with timeout
  eviction. `PaperTradingSimulator`, an equity/trade-ledger simulator.
- **Selection and policy.** The volume-ranked symbol universe and the
  FVG/TREND/COMBO split. `UniverseFilter.get_symbols`. The exponential back-off
  of the `retry` decorator and the `logcall` pass-through.

Prices, volumes and configuration numbers are Dafny `real`. Candles are
`seq<Candle>`. Python's `int()` truncation, slicing with out-of-range or
negative bounds and pandas `tail` are written out in module `PySeq`. The
constants `main.py` imports from its unseen `config` module (`MIN_FVG`,
`MIN_CORR`, `MIN_RR`, `FVG_LOOKBACK_CANDLES`, `ATR_SL_MULT`, …) are
parameters, collected in `BotSignals.ScanSettings`. Collaborators outside the
model become inputs: the HTTP responses, the correlation to BTC, the 24h
volume and the ATR mean. The wall clock is also an input.

Where the code divides by zero without a guard, the model states the divisor
as a precondition. This applies to `validate_trade` and
`calculate_position_size` with entry 0, and to `validate_signal` with entry 0
or entry equal to the stop. In each case the code raises `ZeroDivisionError`
and nothing catches it.

`calculate_position_size` never reads leverage (`RiskManager.LeverageIgnored`).

Modules, one per file: `Common`, `PySeq`, `Candles`, `OrderedIndices`,
`BotConfig`, `Symbols` (shared vocabulary); `FvgDetector`, `WickAnomaly`,
`ManipulationFilter`, `ScreeningFilter`, `SupportLows`, `TrendlineAnalyzer`,
`TrendAnalyzer` (the analysis classes); `BotPatterns`, `BotRisk`,
`BotSignals`, `BotUniverse` (main.py); `RiskManager`, `StrategyRisk`,
`Validators`, `PositionManager`, `PaperTrader`, `UniverseFilter`, `Retry`.

## Model

| member | source | states |
|---|---|---|
| FvgDetector.DetectFvgs | okx-bot_reserve/src/ta/fvgdetector.py:5-19 | Empty below 3 candles. Each record sits at 2 <= i < len, is bullish, has top = low[i], bottom = high[i-2] and gap = top - bottom. A record exists at i iff the gap exceeds 0.0001 × close[i]. Indices strictly increase. |
| FvgDetector.DetectBelowScanned | okx-bot_reserve/src/ta/fvgdetector.py:7-18 | After scanning indices below n, the list describes exactly the gaps found so far, in increasing index order. |
| FvgDetector.GapsArePositive | okx-bot_reserve/src/ta/fvgdetector.py:10-11 | With non-negative closes, every reported gap has top > bottom and a positive size. |
| BotPatterns.GapIndices | okx-bot_reserve/src/main.py:124-127 | The loop collects, in order, exactly the i in [2, n) with low[i] > high[i-2]. |
| BotPatterns.CountAbove | okx-bot_reserve/src/main.py:128 | The lookback filter keeps at most as many indices as it was given. |
| BotPatterns.CountAboveIsCardinality | okx-bot_reserve/src/main.py:128 | Counting the listed indices above the bound equals the size of the set of such indices. |
| BotPatterns.CountAboveBound | okx-bot_reserve/src/main.py:128 | Increasing indices below n that exceed a bound number at most n - 1 - bound. |
| BotPatterns.FvgCountIsRecentGaps | okx-bot_reserve/src/main.py:123-128 | `fvg_count` (`BotPatterns.FvgCount`) is the number of i in [2, len) with low[i] > high[i-2] and i > len - lookback. So it is at most lookback - 1, or 0. |
| BotPatterns.PeaksBelow | okx-bot_reserve/src/main.py:135-138 | The scan below n lists exactly the local maxima found so far, in order. |
| BotPatterns.Peaks | okx-bot_reserve/src/main.py:135-138 | Lists exactly the i in [3, len-3) whose high is strictly above high[i-1], high[i-2] and high[i+1], in increasing order. |
| BotPatterns.TrendCheck | okx-bot_reserve/src/main.py:131-132 | False when the frame has fewer than `TREND_LOOKBACK_CANDLES` rows. |
| BotPatterns.TrendCheckMeansRisingLastPeaks | okx-bot_reserve/src/main.py:131-139 | True iff the frame is long enough, its last-lookback window has at least two local maxima, and the last is strictly above the one before. |
| BotPatterns.RisingPeaksTest | okx-bot_reserve/src/main.py:134-139 | On a window of highs, comparing the last two enumerated local maxima decides whether the newest maximum is strictly above the one before it. |
| BotPatterns.ManipFrame | okx-bot_reserve/src/main.py:159 | The window is the newest min(288, len) candles: its length is min(288, len) and its k-th candle is the frame's candle at len - window length + k. |
| BotPatterns.ManipCheck | okx-bot_reserve/src/main.py:157-163 | Clean below 50 candles. Otherwise clean iff fewer than `MANIP_MAX_ANOMALIES` window candles have wick/(body + 1e-10) above `MANIP_WICK_RATIO`. |
| BotRisk.AtrPct | okx-bot_reserve/src/main.py:166-174 | 0 below 14 candles or for a non-positive last close. Otherwise pct × close = 100 × ATR mean. |
| BotRisk.DailyRange | okx-bot_reserve/src/main.py:177-183 | None iff fewer than 96 candles; 0 for a non-positive last close. |
| BotRisk.DailyRangeSpansLastDay | okx-bot_reserve/src/main.py:179-183 | For a positive close, range × close bounds 100 × (high[i] - low[j]) over every pair in the last 96 candles and equals it for one pair. |
| BotRisk.RiskCalc | okx-bot_reserve/src/main.py:186-194 | Entry is the last close. The stop sits above the entry by entry × `ATR_SL_MULT` × atr% / 100, and the target below it by entry × `ATR_TP_MULT` × atr% / 100. rr × (sl - entry) = entry - tp when the stop distance is positive, else rr = 0. With positive entry, ATR and multipliers: sl > entry > tp and rr = `ATR_TP_MULT` / `ATR_SL_MULT`. |
| BotRisk.RiskCalcRatioIsRewardToRisk | okx-bot_reserve/src/main.py:186-194 | For a positive entry and a positive stop distance, the reported rr is the reward-to-risk of its own stop and target. |
| BotSignals.Analyze | okx-bot_reserve/src/main.py:197-243 | A signal exists iff a frame of at least 50 rows was fetched and the strategy's conjunction (`Fires` over the indicators `Measure` computes) holds. It carries the symbol, the strategy, entry = last close, the `risk_calc` stop, target and ratio, and the 24h volume. Its FVG count is present exactly for FVG and COMBO, and then equals `fvg_count`. |
| BotSignals.CommonGates | okx-bot_reserve/src/main.py:215-236 | Whenever `Fires` holds, every strategy has corr < `MIN_CORR`, the 24h volume check and rr >= `MIN_RR`. TREND and COMBO also have trend and clean. FVG and COMBO also have fvg >= `MIN_FVG`. |
| BotSignals.FvgIgnoresTrendAndClean | okx-bot_reserve/src/main.py:215 | The FVG conjunction does not depend on the trend or the manipulation check. |
| BotSignals.ComboIsFvgAndTrend | okx-bot_reserve/src/main.py:215-236 | COMBO fires iff both the FVG and the TREND conjunctions hold. |
| BotSignals.SignalsAreShorts | okx-bot_reserve/src/main.py:186-236 | With a positive price, positive multipliers and a positive `MIN_RR`, every signal has sl > entry > tp and rr = `ATR_TP_MULT` / `ATR_SL_MULT`. |
| WickAnomaly.WickRatio | okx-bot_reserve/src/manipulation_filter.py:14-19 | On a candle whose high and low enclose its open and close, the wick ratio is never negative. |
| WickAnomaly.AnomalousMeansShadowsOutweighBody | okx-bot_reserve/src/manipulation_filter.py:14-20 | A candle counts as anomalous iff its two shadows exceed the threshold times (body + eps). |
| WickAnomaly.AnomalyCount | okx-bot_reserve/src/manipulation_filter.py:14-20 | The anomaly count never exceeds the number of candles. |
| WickAnomaly.AnomalyCountIsBarCount | okx-bot_reserve/src/manipulation_filter.py:19-20 | The count equals the size of the set of candle positions whose wick ratio exceeds the threshold. |
| WickAnomaly.AnomalyCountAppend | okx-bot_reserve/src/manipulation_filter.py:20 | The count of a concatenation is the sum of the counts. |
| WickAnomaly.AnomalyCountRepeat | okx-bot_reserve/src/manipulation_filter.py:20 | n copies of a candle count n if it is anomalous, else 0. |
| ManipulationFilter.NewFilter | okx-bot_reserve/src/manipulation_filter.py:5-8 | Stores both thresholds and starts with an empty banned set. |
| ManipulationFilter.DefaultFilter | okx-bot_reserve/src/manipulation_filter.py:5-8 | Defaults: wick threshold 3.0, anomaly threshold 5, nothing banned. |
| ManipulationFilter.IsClean | okx-bot_reserve/src/manipulation_filter.py:10-22 | Clean below 50 rows. Otherwise clean iff fewer than `anomaly_threshold` candles of the whole frame have wick/(body + 1e-8) above `wick_threshold`. The filter is not changed. |
| ScreeningFilter.FromConfig | okx-bot_reserve/src/screening/manipulationfilter.py:5-6 | `lookback_days` is the filters section's value, and 3 when the section or its key is missing. |
| ScreeningFilter.IsManipulationAsset | okx-bot_reserve/src/screening/manipulationfilter.py:8-20 | False below 50 rows. Otherwise flagged iff more than 5 candles have wick/(body + 1e-8) above 3. |
| ScreeningFilter.VerdictIgnoresSymbolAndLookback | okx-bot_reserve/src/screening/manipulationfilter.py:6-20 | The verdict is the same for any symbol and any `lookback_days`. |
| ScreeningFilter.FiltersComplementaryExceptAtFive | okx-bot_reserve/src/screening/manipulationfilter.py:17-20 | The default `is_clean` is the negation of `is_manipulation_asset` except when exactly 5 candles are anomalous. |
| ScreeningFilter.FiveSpikesFoolBothFilters | okx-bot_reserve/src/screening/manipulationfilter.py:17-20 | Some 50-candle frame is neither clean for the default filter nor flagged by the screening filter. |
| SupportLows.SupportLowIsWindowMinimum | okx-bot_reserve/src/ta/trendlines.py:7-12 | A candidate is an i in [10, len-10) whose low is at most every low in [i-9, i]. |
| SupportLows.CandidatesBelow | okx-bot_reserve/src/ta/trendlines.py:10-12 | The scan below n lists exactly the candidates found so far, in order. |
| SupportLows.Candidates | okx-bot_reserve/src/ta/trendlines.py:10-12 | Lists exactly the candidate lows, in increasing index order. |
| SupportLows.ShortFrameHasNoCandidates | okx-bot_reserve/src/ta/trendlines.py:10 | With 20 or fewer rows there are no candidates. |
| OrderedIndices.LastTwoOfEnumeration | okx-bot_reserve/src/ta/trendlines.py:15-17 | `local_mins[-2]` and `local_mins[-1]` are the two largest candidate indices. The list has fewer than 2 entries iff there is at most one candidate. |
| TrendlineAnalyzer.LineThrough | okx-bot_reserve/src/ta/trendlines.py:16-19 | Two points with x1 < x2. The slope is positive, or zero, exactly when y2 is above, or equal to, y1. |
| TrendlineAnalyzer.BuildTrendline | okx-bot_reserve/src/ta/trendlines.py:6-21 | At most one line, whose two points increase in x and whose slope sign is the sign of y2 - y1. |
| TrendlineAnalyzer.TrendlineThroughLastTwoSupports | okx-bot_reserve/src/ta/trendlines.py:14-21 | Empty iff there is at most one candidate. Otherwise exactly the line through the last two candidates, with slope (y2 - y1)/(x2 - x1). |
| TrendlineAnalyzer.SlopeSign | okx-bot_reserve/src/ta/trendlines.py:18 | With x1 < x2 the slope's sign is the sign of y2 - y1. |
| TrendlineAnalyzer.ShortFrameHasNoTrendline | okx-bot_reserve/src/ta/trendlines.py:10-21 | No trendline for 20 or fewer rows. |
| TrendAnalyzer.BuildTrendlines | okx-bot_reserve/src/trend_analyzer.py:6-25 | At most one line, and `is_uptrend` iff slope > 0. |
| TrendAnalyzer.AgreesWithTrendlineAnalyzer | okx-bot_reserve/src/trend_analyzer.py:6-25 | Same slope and points as `TrendlineAnalyzer.build_trendline` on the same lows; `is_uptrend` iff the second point is higher. |
| TrendAnalyzer.RisingMeansHigherLastSupport | okx-bot_reserve/src/trend_analyzer.py:15-24 | Empty iff at most one candidate. Otherwise one line through the last two candidates, an uptrend iff the later low is higher. |
| RiskManager.FromConfig | okx-bot_reserve/src/risk_manager.py:2-5 | `max_risk_pct` is the configured percent / 100 (default 0.05). `min_rr` is the configured value or 4.0. Leverage is the configured value or 10. |
| RiskManager.ValidateTradeMeaning | okx-bot_reserve/src/risk_manager.py:7-11 | `validate_trade` (`RiskManager.ValidateTrade`), for entry > 0: accepted iff reward-to-risk >= `min_rr` and abs(entry - sl) <= `max_risk_pct` × entry. For entry < 0 the ratio is 0 and the risk comparison flips. |
| RiskManager.ComputedRatio | okx-bot_reserve/src/risk_manager.py:8-10 | The computed rr is abs(tp - entry)/abs(entry - sl) for a positive entry, and 0 when risk is not positive. |
| RiskManager.StopAtEntryRejected | okx-bot_reserve/src/risk_manager.py:10-11 | With sl = entry the ratio is 0, so the trade is rejected whenever `min_rr` > 0. |
| RiskManager.DefaultsAcceptFiveToOne | okx-bot_reserve/src/risk_manager.py:3-11 | Entry 100, sl 98, tp 110 has rr 5.0 and passes the defaults. |
| RiskManager.PositionSize | okx-bot_reserve/src/risk_manager.py:13-16 | 0 when entry = sl. For entry > 0, size × abs(entry - sl)/entry = balance × `max_risk_pct`. |
| RiskManager.DefaultSizeExample | okx-bot_reserve/src/risk_manager.py:13-16 | Balance 1000, entry 100, sl 95 gives size 1000 under the defaults. |
| RiskManager.LeverageIgnored | okx-bot_reserve/src/risk_manager.py:5-16 | Neither validation nor sizing depends on leverage. |
| StrategyRisk.FromConfig | okx-bot_reserve/src/strategy/riskmanager.py:2-5 | `max_risk_pct` stays in percent. Each of `maxriskpct`, `minrr` and `leverage` is taken from the risk section when present there, and is otherwise 5.0, 4.0 and 10. |
| StrategyRisk.ValidateSignal | okx-bot_reserve/src/strategy/riskmanager.py:7-12 | For entry > 0: accepted iff reward-to-risk >= `min_rr` and 100 × abs(entry - sl) <= `max_risk_pct` × entry. |
| StrategyRisk.AgreesWithValidateTrade | okx-bot_reserve/src/strategy/riskmanager.py:7-12 | For the same configuration, entry > 0 and entry != sl, gives the same verdict as `risk_manager.validate_trade`. |
| StrategyRisk.SymbolAndLeverageIgnored | okx-bot_reserve/src/strategy/riskmanager.py:5-12 | The verdict depends on neither the symbol nor leverage. |
| Validators.RangeBoundaries | okx-bot_reserve/src/validators.py:5-18 | At the boundaries of `ValidatePrice`, `ValidateSize`, `ValidateRr` and `ValidateLeverage`: price must be > 0. Size lies in [min_size, 1000] with default min 0.001. rr >= min_rr with default 4.0. Leverage lies in [1, 125]. All ranges are closed. |
| Validators.AcceptedTradePassesValidators | okx-bot_reserve/src/validators.py:5-18 | A trade the risk manager accepts at a positive entry passes `validate_price` and `validate_rr`. The default leverage passes `validate_leverage`. |
| BotUniverse.Qualifying | okx-bot_reserve/src/main.py:65 | An entry is kept exactly when it has volume > `min_vol`, ends in `-USDT-SWAP` and does not contain `BTC`. No entry is kept more often than the cache holds it. |
| BotUniverse.QualifyingSingle | okx-bot_reserve/src/main.py:65 | A one-entry cache keeps its entry exactly when it is eligible. |
| BotUniverse.QualifyingAppend | okx-bot_reserve/src/main.py:65 | The comprehension filters a concatenation piecewise. With the one-entry case, this pins the result as the eligible entries in cache order, each once. |
| BotUniverse.InsertAddsEntry | okx-bot_reserve/src/main.py:67 | Inserting an entry adds exactly that entry: the result is the old list's multiset plus one. |
| BotUniverse.InsertKeepsRanking | okx-bot_reserve/src/main.py:67 | Inserting into a non-increasing list keeps it non-increasing. |
| BotUniverse.SortByVolumeDesc | okx-bot_reserve/src/main.py:67 | The result is a permutation of the input in non-increasing volume order. |
| BotUniverse.DynamicSymbols | okx-bot_reserve/src/main.py:63-67 | Each returned symbol is that of an eligible cache entry (`ListedEligible`). The entries behind the symbols occur no more often than the comprehension keeps them, so no symbol is repeated beyond the cache. With `MAX_SYMBOLS` >= 0 there are min(`MAX_SYMBOLS`, number eligible) of them. Position by position they are the symbols of the ranked entries that `DynamicSymbolsAreTopEligible` describes. |
| BotUniverse.DynamicSymbolsAreTopEligible | okx-bot_reserve/src/main.py:63-67 | The ranked entries (`RankedTickers`) are eligible cache entries, a sub-multiset of the eligible entries. With `MAX_SYMBOLS` >= 0 there are exactly min(`MAX_SYMBOLS`, number eligible) of them, in non-increasing volume. An eligible entry left out has no more volume than any kept. |
| BotUniverse.Share | okx-bot_reserve/src/main.py:75-76 | For a non-negative share the bucket size is int(n × pct): a whole number k >= 0 with k <= n × pct < k + 1. |
| BotUniverse.PartitionSplitsInOrder | okx-bot_reserve/src/main.py:74-81 | The three buckets of `Partition` concatenate back to the list. When the shares sum to at most 1, FVG and TREND have int(n × pct) symbols and COMBO has the remainder. |
| BotUniverse.BucketsDisjoint | okx-bot_reserve/src/main.py:79-81 | Without repeated symbols, no symbol is in two buckets. |
| UniverseFilter.Matching | okx-bot_reserve/src/universe_filter.py:17-27 | Keeps exactly the rows with volume > min, ending in `-USDT-SWAP` and without `BTC`. A missing volume counts as 0. |
| UniverseFilter.MatchingAppend | okx-bot_reserve/src/universe_filter.py:18-27 | Filtering keeps the API order and judges each row alone. |
| UniverseFilter.GetSymbols | okx-bot_reserve/src/universe_filter.py:7-35 | An exception gives the ETH/SOL/BNB/XRP list and a non-'0' code the BTC/ETH/SOL/BNB list. Otherwise the result is the first min(200, matches) eligible symbols in API order. Each is eligible, and every match is kept when there are at most 200. |
| UniverseFilter.GetSymbolsDefault | okx-bot_reserve/src/universe_filter.py:7-27 | With the default floor, every symbol of a successful answer comes from a row with more than 5,000,000 of 24h volume. |
| UniverseFilter.LaterRowsNeverDisplace | okx-bot_reserve/src/universe_filter.py:17-29 | Once 200 matches are found, later rows cannot change the result. The cap keeps the first 200 in API order, not the largest. |
| UniverseFilter.FallbacksDisagreeOnBtc | okx-bot_reserve/src/universe_filter.py:13-35 | The API-error list contains `BTC-USDT-SWAP`, a successful answer never does, and no exception-list symbol contains `BTC`. |
| PositionManager.Init | okx-bot_reserve/src/position_manager.py:5-8 | No positions. The cap and the timeout are the risk section's `maxpositions` and `positiontimeout` when given, and otherwise 5 and 24 hours, whether the section or only the key is missing. |
| PositionManager.OpenPosition | okx-bot_reserve/src/position_manager.py:11-24 | Accepted iff fewer than `max_positions` are open. If refused, nothing changes. If accepted, the symbol is written or overwritten with entry/sl/tp, the open time and status open. |
| PositionManager.OpenKeepsCap | okx-bot_reserve/src/position_manager.py:12-22 | Opening preserves len(positions) <= `max_positions`. |
| PositionManager.ClosePosition | okx-bot_reserve/src/position_manager.py:26-31 | A held symbol is removed, nothing else changes, and PnL is entry - exit. An unknown symbol is a no-op. |
| PositionManager.OpenThenCloseRestores | okx-bot_reserve/src/position_manager.py:11-31 | Opening a new symbol and closing it restores the book. PnL is positive iff the exit is below the entry. |
| PositionManager.Survivors | okx-bot_reserve/src/position_manager.py:33-39 | A position survives iff its elapsed hours do not exceed the timeout, and a surviving position is kept unchanged. |
| PositionManager.CheckTimeouts | okx-bot_reserve/src/position_manager.py:33-39 | Removes exactly the positions whose elapsed hours are strictly above the timeout. Others are untouched. Each closed symbol is reported once. |
| PositionManager.SweepKeepsCapAndSettles | okx-bot_reserve/src/position_manager.py:33-39 | A sweep keeps the cap, and a second sweep at the same instant removes nothing. |
| PaperTrader.New | okx-bot_reserve/src/paper_trader.py:4-8 | Balance = equity = initial, with no positions and no trades; the ledger invariant holds. |
| PaperTrader.NewDefault | okx-bot_reserve/src/paper_trader.py:4-8 | Without an argument the simulator starts at balance = equity = 1000, with no positions and no trades. |
| PaperTrader.Open | okx-bot_reserve/src/paper_trader.py:11-12 | Overwrites the symbol's holding unconditionally. Balance, equity and trades are unchanged. |
| PaperTrader.Close | okx-bot_reserve/src/paper_trader.py:15-21 | A held symbol is removed and one trade with pnl = (entry - exit) × size is appended. The ledger invariant is kept. An unknown symbol changes nothing. |
| PaperTrader.ShortGainsWhenPriceFalls | okx-bot_reserve/src/paper_trader.py:18 | With a positive size the trade gains iff the exit is below the entry. |
| PaperTrader.DefaultSizeRoundTrip | okx-bot_reserve/src/paper_trader.py:11-21 | Opening at the default size 1 and closing records exactly one trade with PnL entry - exit, moves equity by that PnL and removes the symbol. |
| PaperTrader.RunKeepsLedger | okx-bot_reserve/src/paper_trader.py:4-21 | After any sequence of opens and closes, equity = balance + sum of trade PnLs. Balance never changes, and earlier trades are kept. |
| Retry.RunRetry | okx-bot_reserve/src/decorators.py:5-19 | At most `max_attempts` calls, and none (result None) when it is <= 0. All calls but the last failed. The first success is returned. A last-attempt failure is re-raised without a wait. After an earlier failure the wrapper sleeps delay × 2^k (k the failed attempt); every sleep performed is non-negative. With a negative delay the first such sleep raises `ValueError` (`SleepRaised`), so at most one call is made. With a non-negative delay a failure ends the loop only on the last attempt. |
| Retry.BackoffNegative | okx-bot_reserve/src/decorators.py:16-18 | The back-off delay × 2^k is negative, making `time.sleep` raise, exactly when the delay is. |
| Retry.NegativeDelaySleepRaises | okx-bot_reserve/src/decorators.py:10-18 | With 3 attempts, delay -1 and a call that fails once and then succeeds, the sleep raises after the first call and no second call is made. |
| Retry.BackoffTotal | okx-bot_reserve/src/decorators.py:16-18 | n back-off waits sum to delay × (2^n - 1). |
| Retry.RunRetryDefault | okx-bot_reserve/src/decorators.py:5-18 | With the defaults (3 attempts, delay 1): 1 to 3 calls, waits of 1 then 2 seconds, at most 3 seconds of sleep in total. A success is returned, and a failure is re-raised only on the third call. |
| Retry.LogCall | okx-bot_reserve/src/decorators.py:22-36 | The wrapped call's result or exception is passed through unchanged. |

## Left out

- Network and exchange I/O: the HTTP requests of `get_data`, `get_btc_data`, `get_all_tickers_once` and `universe_filter.py`, and the 5-minute volume cache. Their results are inputs (`fetched`, `vol24h`, the volume cache entries, `TickerResponse`).
- Correlation to BTC (`corr_check`): floating-point Pearson statistics with NaN handling. The value is an input to `BotSignals.Analyze`.
- The ATR mean (pandas shift/concat/mean over true ranges). It is an input to `BotRisk.AtrPct` and `BotRisk.RiskCalc`.
- Logging, the signal JSON files, timestamps on signal records, `gen_report` and the `run` loop: output and scheduling only.
- Configuration loading and the `config` module: their values are parameters (`BotConfig.Config`, `BotSignals.ScanSettings`).
- Wall-clock reads and `time.sleep`: `now` and `start`/`finish` are parameters, and the retry waits are returned instead of slept.
- Floating-point rounding: all arithmetic is exact `real` arithmetic.
- `BotUniverse.Share`: the bucket size is int(n × pct) over exact reals. Python computes n × pct in IEEE doubles first, which can fall just below an integer: 100 × 0.29 is 28.999999999999996, so the source's bucket holds 28 symbols where the model's holds 29.
- `Retry.RunRetry`: the wrapped function's arguments are left out. Each attempt's outcome is given by attempt number. Every `Exception` subclass is treated alike, as the source's `except Exception` does. The `ValueError` that `time.sleep` raises for a negative length is the result `SleepRaised`, without its message.
- Failures that are not `Exception` subclasses (`KeyboardInterrupt`, `SystemExit` and other `BaseException`-only failures) escape `retry` and `logcall` on the attempt that raises them, with no further retry, wait or log line. `Outcome` has no case for them.
- `Retry.LogCall`: the logged duration is finish - start; the log text is left out.
- `BotUniverse.SortByVolumeDesc`: it places equal volumes in cache order, as Python's stable sort does, but the contract states only order and permutation, not stability.
- `PositionManager.CheckTimeouts`: the order of the reported symbols is unspecified, where the source walks the dict in insertion order. The resulting book does not depend on it.
- `PositionManager.ClosePosition`: the source only logs the PnL; the model returns it.
- `RiskManager.PositionSize`: the size is characterised for entry > 0 only. For a negative entry the body follows the source, but no contract states it.
- `StrategyRisk.ValidateSignal`: the verdict is characterised for entry > 0 only, for the same reason.
- `RiskManager.ValidateTrade`, `RiskManager.PositionSize`, `StrategyRisk.ValidateSignal`: entry = 0 (and, for `validate_signal`, entry = sl) are preconditions, because the source raises `ZeroDivisionError` there.
- `BotRisk.DailyRange`: only the guards and the range's relation to the last day's highs and lows are stated; the returned dict is reduced to the percentage.
- `TrendAnalyzer` reads column `l` and `TrendlineAnalyzer` reads column `low`. Both are `Candle.low` here.
- The screening `universefilter.py` (a constant list), `backtester.py` (a stub), the reporting, chart and trade-logger modules, and the order and execution clients are not part of this model.
