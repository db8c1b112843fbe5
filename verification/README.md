# DailyBuyStrategy decision logic in Dafny

A functional model of the decision logic of `DailyBuyStrategy`, a strategy
plug-in for a trading-bot host. The host calls the strategy once per candle
and pair. The strategy then:

- derives indicator columns from the candle series;
- marks entry and exit rows, where a queue of manual BUY/SELL commands takes
  priority over the technical rules;
- approves or vetoes exits;
- raises a custom stop-loss exit;
- decides on dollar-cost-averaging (DCA) additions to losing trades. These
  decisions read and write a small per-trade key/value store.

How the host's values are modelled:

- Prices and ratios are `real`.
- A pandas NaN is `Values.Option.None`, and a comparison with NaN is false.
- The TTF column is computed by a division, so it is a `Values.Float`, which
  can also be an IEEE infinity.
- Data frames have the default index 0..n-1, so a column is a sequence.
- The per-trade store is a `map<(int, string), Value>`.
- The command queue is a `seq<Command>` that goes in and comes back out of the
  populate functions.
- Host data enters as arguments:
  - the candles;
  - the TA-Lib outputs;
  - the coarser-timeframe closes, through a `fetch(pair, timeframe)` function;
  - the analysed frame for DCA;
  - the trade's profit ratio;
  - the formatting of a float into text.

Modules, one per file:

- `Values` (values.dfy): the NaN option, the IEEE `Float`, and a `KeyError` outcome.
- `Text` (text.dfy): Python's `sub in s`.
- `Settings` (settings.dfy): hyperparameters with their declared bounds and
  defaults, and the timeframe hierarchy.
- `Indicators` (indicators.dfy): pivots, rolling max/min, swing high, TTF,
  the resistance signal, and the populated rows.
- `Signals` (signals.dfy): the command queue and the entry/exit masks.
- `CustomData` (customdata.dfy): the store and its DCA and stop-loss accessors.
- `Exits` (exits.dfy): `confirm_trade_exit` and `custom_exit`.
- `Dca` (dca.dfy): `adjust_trade_position`.

Behaviour of the code that is easy to overlook:

- TTF is not confined to [-200, 200]:
  - `Indicators.TtfBoundedIff` shows the bound holds exactly when both powers
    are non-negative.
  - `Indicators.TtfCanLeaveRange` exhibits -3400.
  - When the powers sum to zero, TTF is ±infinity rather than NaN whenever
    buyPower ≠ sellPower, because pandas divides by zero without raising. An
    infinite TTF passes the `ttf > upper` or `ttf < lower` test.
  - With a lookback of 1, TTF is never finite.
- The technical entry and exit masks can mark the same row
  (`Signals.EntryAndExitCanCoincide`).
- The `close > swing_high` exit disjunct never fires on consistent candles. The
  rolling window that yields the swing high includes the row's own high
  (`Indicators.CloseNeverAboveSwingHigh`).
- A `custom_stop_loss_<number>` exit reason contains none of the words the exit
  gate looks for, so the gate always rejects it
  (`Exits.CustomStopLossNeverConfirmed`).

## Model

| member | source | states |
|---|---|---|
| `Settings.Coarser` | DailyBuyStrategy.py:34-42 | every listed timeframe maps to the next rung of 1m, 5m, 15m, 1h, 4h, 1d, 1w, 1M; any other timeframe, including 1M, is a KeyError for that key |
| `Settings.HierarchyReachesMonthly` | DailyBuyStrategy.py:34-42 | following the hierarchy from any rung reaches 1M in exactly the remaining number of steps, and 1M has no coarser timeframe |
| `Indicators.CalculatePivots` | DailyBuyStrategy.py:116-123 | the first row's levels are NaN; on every later row pp is the previous bar's (h+l+c)/3, r1 = 2·pp − previous low, and r1 − s1 equals the previous bar's range; s1 ≤ pp ≤ r1 when the previous close lies in its bar |
| `Indicators.Max` | DailyBuyStrategy.py:111 | the result is an element of the window and no element exceeds it |
| `Indicators.Min` | DailyBuyStrategy.py:165 | the result is an element of the window and no element is below it |
| `Indicators.RollingMax` | DailyBuyStrategy.py:110-113 | NaN until the window holds min_periods rows; afterwards an element of the window that bounds every element of it from above |
| `Indicators.RollingMin` | DailyBuyStrategy.py:165 | NaN until the window is full; afterwards an element of the window that bounds every element of it from below |
| `Indicators.SwingHigh` | DailyBuyStrategy.py:110-113 | NaN until the window holds swing_min_periods rows; then the high of some candle in the window ending at the row, and no high in that window exceeds it (the rolling maximum) |
| `Indicators.PowersDefinedAndSumNonNegative` | DailyBuyStrategy.py:164-169 | buyPower and sellPower exist exactly from row 2n−1 on, and their sum is never negative |
| `Indicators.TtfOf` | DailyBuyStrategy.py:171-172 | a number exactly when both powers are defined and their sum is not zero; a zero sum gives an infinity, negative when sell power is the larger, or NaN when the powers are equal |
| `Indicators.Ttf` | DailyBuyStrategy.py:164-172 | NaN on the first 2n − 1 rows, while a shifted rolling window is not yet full |
| `Indicators.TtfBoundedIff` | DailyBuyStrategy.py:172-173 | for a positive sum of powers, TTF is finite and lies in [−200, 200] if and only if both powers are non-negative |
| `Indicators.TtfZeroSum` | DailyBuyStrategy.py:172-173 | for a zero sum of powers, TTF is +inf or −inf by the sign of buyPower − sellPower, and NaN when they are equal |
| `Indicators.TtfNeverFiniteForLookbackOne` | DailyBuyStrategy.py:164-173 | with lookback_length 1, no row has a finite TTF |
| `Indicators.TtfCanLeaveRange` | DailyBuyStrategy.py:164-173 | closes 10, 10, 1, 2 with lookback 2 give TTF = −3400 on the last row |
| `Indicators.PopulateIndicators` | DailyBuyStrategy.py:131-175 | one row per candle carrying its close, volume and oscillators, the TTF and swing high of that row, the previous bar's r1 and the previous close (NaN on row 0); the resistance signal holds exactly when the close exceeds the previous bar's r1 and the previous close, so never on row 0 |
| `Indicators.ResistanceSignal` | DailyBuyStrategy.py:152-154 | holds only when both r1 and previous_close are defined and the close is above each of them |
| `Indicators.SignalAt` | DailyBuyStrategy.py:138-154 | on a row past the first, the resistance signal holds iff the close exceeds 2·(h+l+c)/3 − l of the previous bar and the previous close |
| `Indicators.CloseNeverAboveSwingHigh` | DailyBuyStrategy.py:148-150 | on a candle whose close lies within its range, close > swing_high is false |
| `Signals.DropPair` | DailyBuyStrategy.py:183 | the result holds exactly the queued commands of other pairs and is no longer than the queue |
| `Signals.DropPairAppend` | DailyBuyStrategy.py:183 | the removal distributes over concatenation, so it is the order-preserving filter |
| `Signals.DropPairKeepsOthers` | DailyBuyStrategy.py:222 | the commands of every other pair are kept in their original order |
| `Signals.DropPairCount` | DailyBuyStrategy.py:183 | exactly the pair's commands are removed: kept plus removed equals the queue length |
| `Signals.DropPairIdempotent` | DailyBuyStrategy.py:222 | removing a pair's commands twice is removing them once |
| `Signals.ManualTrigger` | DailyBuyStrategy.py:179-185 | fires exactly when the last queued command is this action for this pair; the remaining queue is strictly shorter, holds no command of the pair, and keeps every command of other pairs |
| `Signals.TechnicalEntry` | DailyBuyStrategy.py:188-193 | a breakout with volume always qualifies; apart from it only rows whose MACD/EMA cells are all defined or whose TTF is not NaN can qualify |
| `Signals.EntryMask` | DailyBuyStrategy.py:188-206 | one mark per row, each one multi_timeframe_cross on a row meeting the technical condition; with a non-empty coarser series the first row is never marked |
| `Signals.TechnicalExit` | DailyBuyStrategy.py:227-237 | a row without volume never qualifies, nor does one whose swing-high, MACD and TTF cells are all NaN |
| `Signals.PopulateEntryTrend` | DailyBuyStrategy.py:177-214 | a last queued BUY for the pair clears the pair's commands and tags every row with volume trigger_buy; otherwise the queue is unchanged, an unlisted timeframe is a KeyError, and a row is tagged multi_timeframe_cross iff (macd>signal ∧ emaS>emaL) ∨ (breakout ∧ volume>0) ∨ ttf>upper holds and, when the coarser series is non-empty, the row is not the first and its close is below the coarser series' previous close |
| `Signals.PopulateExitTrend` | DailyBuyStrategy.py:216-240 | a last queued SELL for the pair clears the pair's commands and tags every row with volume trigger_sell; otherwise the queue is unchanged and a row is tagged macd_ema_exit iff (close>swing_high ∨ (macd<signal ∧ emaS<emaL) ∨ ttf<lower) ∧ volume>0; no row without volume is ever tagged |
| `Signals.ManualCommandNotRepeated` | DailyBuyStrategy.py:178-185 | after a manual BUY fires, no command of the pair remains, so neither manual path fires for it on the next evaluation |
| `Signals.AtMostOneManualPathPerCycle` | DailyBuyStrategy.py:217-224 | in one entry-then-exit cycle, the manual BUY and the manual SELL paths never both fire for a pair |
| `Signals.NoTechnicalEntryOnFirstRow` | DailyBuyStrategy.py:199-203 | with a non-empty coarser series, the technical path never tags row 0 |
| `Signals.EntryWithoutVolume` | DailyBuyStrategy.py:188-193 | the technical entry mask, unlike the exit mask, can tag a row with zero volume |
| `Signals.EntryAndExitCanCoincide` | DailyBuyStrategy.py:188-239 | a row with a breakout, volume and bearish MACD/EMA is tagged by both technical masks |
| `CustomData.ConfirmDca` | DailyBuyStrategy.py:329-333 | reading back gives the old DCA list with exactly the rate appended and the stop-loss rate·new_sl_coef; every other entry is unchanged |
| `CustomData.GetDcaList` | DailyBuyStrategy.py:309-315 | a stored list is returned as stored; with nothing stored the list is empty; a non-empty answer is exactly the list stored under the trade's DCA key |
| `CustomData.GetMkSl` | DailyBuyStrategy.py:317-323 | a stored price is returned; otherwise, with nothing stored, the trade's own stop-loss; the answer is always one of the two |
| `CustomData.SetMkSl` | DailyBuyStrategy.py:325-327 | reading back yields rate·new_sl_coef; the trade's DCA list and every other entry are unchanged, and only the trade's SL key can be new |
| `CustomData.StopLossBelowRate` | DailyBuyStrategy.py:325-327 | for a positive rate, the stored stop-loss lies in [0.3·rate, rate) |
| `CustomData.Defaults` | DailyBuyStrategy.py:309-323 | with nothing stored for the trade, the DCA list is empty and the stop-loss is the trade's own |
| `CustomData.ConfirmDcaWellTyped` | DailyBuyStrategy.py:329-333 | confirming a DCA keeps lists under DCA keys and prices under SL keys |
| `Text.MissingLetter` | DailyBuyStrategy.py:248 | a reason lacking one of the letters of a word does not contain that word, so the gate does not match it |
| `Exits.ConfirmTradeExit` | DailyBuyStrategy.py:242-257 | approved iff the reason mentions force or trigger, or the profit ratio is at least 0.005 and the reason mentions macd_ema_exit, trailing or roi |
| `Exits.ApprovalMonotone` | DailyBuyStrategy.py:248-257 | an exit approved at some profit is approved at every higher profit |
| `Exits.ConfirmExamples` | DailyBuyStrategy.py:246-257 | roi at 0.01 is approved, roi at 0.001 is rejected, force_exit is approved at any profit |
| `Exits.OwnExitTags` | DailyBuyStrategy.py:248-255 | trigger_sell is always approved; macd_ema_exit is approved iff the profit ratio is at least 0.005 |
| `Exits.CustomExit` | DailyBuyStrategy.py:259-264 | fires iff the rate is at or below the stored stop-loss, or the trade's own stop-loss when none is stored; the reason is custom_stop_loss_ followed by the rendered stop-loss |
| `Exits.CustomExitAfterDca` | DailyBuyStrategy.py:325-333 | after a DCA at rate x, the custom exit fires iff the price is at or below x·new_sl_coef |
| `Exits.CustomExitDefault` | DailyBuyStrategy.py:317-323 | with no stored stop-loss, the trade's stop_loss decides |
| `Exits.LetterBeyondPrefix` | DailyBuyStrategy.py:263 | a letter absent from the stop-loss prefix and from every number rendering is absent from the whole exit tag |
| `Exits.CustomStopLossNeverConfirmed` | DailyBuyStrategy.py:259-264 | when the stop-loss renders as a plain number, the gate rejects the custom stop-loss exit at every profit |
| `Dca.AdjustTradePosition` | DailyBuyStrategy.py:271-307 | approval iff every one of the six checks passes; a refusal leaves the store unchanged; an approval returns stake_amount, appends exactly the rate to the DCA list, stores the stop-loss rate·new_sl_coef, adds no key other than the trade's DCA and SL keys, and leaves every other entry alone |
| `Dca.Decide` | DailyBuyStrategy.py:278-307 | approves exactly when all six checks pass; the 99.5% check refuses exactly when there is a DCA price and the rate is at least 99.5% of it; a refusal for want of candles means an empty frame after the profit check passed |
| `Dca.AboveLastDcaNeverRefuses` | DailyBuyStrategy.py:278-296 | for a positive rate, the "price above last DCA" refusal never fires once the 99.5% check has passed |
| `Dca.ThresholdExamples` | DailyBuyStrategy.py:278-283 | with no DCA yet and a threshold of 0.01, profit −0.02 passes the first two checks and profit −0.005 is refused at the profit check |
| `Dca.OffCadenceNeverAdjusts` | DailyBuyStrategy.py:298-299 | when the last index is not a multiple of the modulo, nothing is returned and nothing is written |
| `Dca.NoRepeatAtSameRate` | DailyBuyStrategy.py:278-280 | right after a DCA at a positive rate, a second attempt at the same rate is refused at the 99.5% check |
| `Dca.AdjustKeepsInvariants` | DailyBuyStrategy.py:278-305 | at a positive rate, the trade's DCA prices stay strictly decreasing and the store stays well typed |
| `Dca.ApprovalLowersStopLoss` | DailyBuyStrategy.py:301-305 | an approval at a positive rate stores a stop-loss strictly below that rate |

## Left out

- TA-Lib and qtpylib indicators are not computed. These are RSI, MACD, EMA,
  ATR, Bollinger bands and typical price. They are foreign floating-point
  code; MACD and the EMAs enter as given `Oscillators`, and the columns no
  decision reads are dropped.
- `max_since_buy` (`cummax`) and `swing_low` are not modelled. They are
  computed but no decision reads them.
- Float arithmetic is not modelled: prices are exact reals, so rounding is
  not modelled.
- Data frame indexes: the model assumes the default index 0..n-1. That
  assumption fixes the nearest-index alignment of the coarser series. The DCA
  frame carries its index labels explicitly, because the modulo test reads
  the last label.
- Host calls become inputs. `get_pair_dataframe` is the `fetch` argument,
  `get_analyzed_dataframe` is the `Frame` argument, and
  `trade.calc_profit_ratio` is the profit argument. `current_whitelist` and
  `informative_pairs` are not modelled because they only declare data to the
  host.
- `CustomDataWrapper` persistence is not modelled beyond the map. A stored
  value of the wrong type (the strategy never writes one) is read as missing.
- Logging is not modelled.
- The `isinstance` check in `populate_entry_trend` is not modelled. Its
  conditions are always Series, so its error branch is unreachable.
- `custom_stake_amount` is not modelled. It divides the proposed stake by
  four and decides nothing.
- These class attributes are not modelled, because they are inert
  declarations or host settings the host applies:
  - the `Thread` import;
  - the unused class-level dicts;
  - `minimal_roi`, `order_types`, `stoploss` and the trailing-stop settings;
  - `use_exit_signal`, `exit_profit_only` and `position_adjustment_enable`,
    which the host reads; the model assumes their values in the strategy:
    exit signals are used, exits are not limited to profit, and position
    adjustment is on;
  - the hyperparameter machinery.
  The parameters the core reads are a `Settings.Params` record with their
  declared bounds (`Settings.Valid`) and defaults (`Settings.Default`).
- The command queue's Python sharing is not modelled. The queue is the
  class attribute `commands`. The manual paths rebind `self.commands` on the
  instance instead of mutating that list, so afterwards the class-level list
  still holds the consumed commands, and commands appended to it are no longer
  seen. The model threads one `seq<Command>` through the populate functions.
- Exits.CustomExit: Python's formatting of the stop-loss into the reason text
  is the `render` argument, not modelled.
