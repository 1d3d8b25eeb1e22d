# Strategy-pool decision model

A Dafny model of the trading-strategy plugins in `pyalgostrategypool`. Each plugin answers four host callbacks on every candle: select instruments for entry, enter a position, select instruments for exit, and exit a position. With the broker and the indicator libraries taken away, each plugin is a small sequential decision machine over numbers the host supplies. The model covers three kinds of code:

- **Per-instrument ledgers with a signal-to-action map.** These are the EMA, MACD, RSI, stochastic, Aroon, VWAP, OBV, Bollinger and ATR strategies.
  - The state is a map from instrument to its open main order and that order's side.
  - Entry selection reads the ledger and maps a signal to BUY or SELL.
  - Exit selection matches the signal against the held side.
  - Exit forgets the order.
- **Pure decision predicates.** These are:
  - Bollinger band touch-and-reversal;
  - price/OBV breakout;
  - PSAR sign;
  - multi-candle trend;
  - ATR trend;
  - put/call-ratio sentiment and option-suffix classification;
  - the opening-range column scan;
  - nearest-strike selection.
- **Multi-leg option state machines.** These are:
  - spread trailing-stop ratchets;
  - net-premium target and stoploss bands;
  - price-breach exits with re-entry;
  - re-entry counters;
  - leg lists;
  - the rule that a failed leg unwinds the others;
  - cover, bracket and exit order prices.

Indicator values arrive as inputs. Crossover codes are the subset type `Crossover` of integers in [-1, 1]. Prices, percentages and band values are exact `real`s. Broker orders are records with a child instrument, a placed flag, a status and an entry price. Functions that can raise return a `Result`. Its `Fault` names the Python exception: `SystemExit` (`SystemExit` or `ABSystemExit`), `NotImplemented` (NotImplementedError), `MissingKey` (KeyError, or AttributeError from an attribute read on None or one the object never defines), `DivisionByZero`, `EmptySequence`, `OutOfRange` (IndexError), `TypeMismatch` (TypeError) and `InvalidArgument` (a failed constructor `assert` or parameter check, or a broker call whose arguments sit in the wrong slots).

## Modules

| file | module | what it holds |
|---|---|---|
| common.dfy | `Common` | `Option`, `Result`, `Fault`, sides, order status, trading mode, option suffix classification |
| signals.dfy | `Signals` | crossover-to-side maps, RSI threshold readings |
| ledger.dfy | `Ledger` | the generic per-instrument ledger: entry and exit selection, enter, exit, the candle step |
| crossover_strategies.dfy | `CrossoverStrategies` | the crossover strategies as families of ledger behaviour (entry gate, signal map, SELL filter, exit rule, meta spelling) |
| bands.dfy | `Bands` | the Bollinger decisions and every Bollinger / mean-reversion file's ledger |
| atr.dfy | `AtrTrend` | the ATR trend direction, its per-instrument cache and the v2 shared trend |
| breakout.dfy | `ObvBreakout` | the root `obv_breakout` package: breakout/breakdown signal, positions ledger, LONG/SHORT exits |
| opening_range.dfy | `OpeningRange` | the opening-range crossover and cover-order strategies |
| order_prices.dfy | `OrderPrices` | cover and bracket order prices and their parameter checks |
| option_legs.dfy | `OptionLegs` | option leg descriptions, leg books keyed by base, placement and exit of all legs of a base |
| options_buying.dfy | `OptionsBuying` | the four options-buying strategies |
| multi_leg.dfy | `MultiLeg` | the bull call ladder (both files) and box spread |
| spread_levels.dfy | `SpreadLevels` | the spread exit checks: trailing stop, target/stop/trailing, diagonal |
| spreads.dfy | `Spreads` | spread entry gates, re-entry counts, leg lists, exit selection |
| straddles.dfy | `Straddles` | the short straddle and short strangle with target and risk control |
| otm_straddle.dfy | `OtmStraddle` | the OTM short straddle with regular orders |
| breach.dfy | `Breach` | the long iron condor and short iron butterfly with price-breach re-entry |
| call_butterfly.dfy | `CallButterfly` | the short call butterfly with price exits and re-entry |
| greeks.dfy | `Greeks` | the Greek-delta strategy with target and stoploss |
| pcr.dfy | `Pcr` | the put/call-ratio strategy |
| parameters.dfy | `Parameters` | the constructors' parameter reads and checks, for the single-file strategies and most options strategies |

## Strategy files

Many files in the pool repeat the same logic, so one member models all of them. The crossover ledger strategies are constants of `CrossoverStrategies`. The table below names each constant's files; each constant's doc comment in `crossover_strategies.dfy` lists them too.

| files | modelled by |
|---|---|
| `strategy_ema_regular_order_delivery`, `strategy_ema_regular_order_intraday`, `ema_crossover_v2.py` | `CrossoverStrategies.EmaRegular` |
| `ema_crossover_compact.py` | `CrossoverStrategies.EmaCompact`, as corrected: the file's own broker call at line 43 passes its arguments in the wrong slots (see "## Findings") |
| `strategy_inverse_ema_scalping_regular_order_delivery`, `..._intraday`, `inverse_ema_scalping.py`, `inverse_ema_scalping_v2.py` | `CrossoverStrategies.InverseEma` |
| `strategy_inverse_ema_scalping_regular_order.py` | `CrossoverStrategies.InverseEmaRegularOrder` |
| `strategy_macd_regular_order.py` | `CrossoverStrategies.MacdRegularOrder` |
| `strategy_sma_bracket_order.py` | `CrossoverStrategies.SmaBracketOrder`, `OrderPrices.Bracket` |
| `strategy_macd_crossover_delivery`, `strategy_macd_crossover_intraday`, `macd_crossover.py`, `macd_crossover_v2.py` | `CrossoverStrategies.MacdCrossover` |
| `strategy_vwap_crossover_delivery`, `vwap_crossover_delivery`, `strategy_vwap_crossover_intraday`, `vwap_crossover`, `strategy_aroon_crossover_intraday`, `pyalgostrategypool/obv_breakout`, `on_balance_volume.py`, `strategy_stochastic_crossover_delivery`, `strategy_stochastic_crossover_intraday` | `CrossoverStrategies.CompleteCrossover` |
| `stochastic_crossover_v2.py` | `CrossoverStrategies.StochasticV2` |
| `stochastic_crossover.py` | `CrossoverStrategies.StochasticCrossover` |
| `aaroon_crossover_v2.py` | `CrossoverStrategies.AroonV2AsWritten`, `CrossoverStrategies.AroonV2` |
| `sma_heikin_ashi_crossover.py` | `CrossoverStrategies.SmaHeikinAshi` |
| `strategy_aroon_crossover_cover_order.py` | `CrossoverStrategies.AroonCoverOrder`, `OrderPrices.CoverTrigger` |
| `strategy_reverse_rsi_cover_order.py` | `CrossoverStrategies.ReverseRsiCoverOrder`, `OrderPrices.CoverTrigger` |
| `strategy_rsi_macd_crossover_delivery`, `strategy_rsi_macd_crossover_intraday` | `CrossoverStrategies.RsiMacd` |
| `strategy_reverse_rsi_crossover_delivery`, `reverse_rsi_crossover_delivery`, `strategy_reverse_rsi_crossover_intraday` | `CrossoverStrategies.ReverseRsi` |
| `reverse_rsi_crossover_v2.py` | `CrossoverStrategies.ReverseRsiV2` |
| `strategy_williams_percentage_custom_bracket_order.py` | `CrossoverStrategies.WilliamsBracketOrder`, `OrderPrices.BracketParams` |
| `bollinger_bands.py`, `bollinger_bands_v2.py`, `strategy_bollinger_bands_bracket_order.py`, `strategy_bollinger_bands_cover_order.py`, `strategy_bollinger_bands_delivery`, `strategy_bollinger_bands_intraday`, `strategy_mean_reversion_bollinger_bands_delivery`, `strategy_mean_reversion_bollinger_bands_intraday`, `mean_reversion_bollinger_bands_v2.py` | the `BandStrategy` constants of `Bands` |
| `strategy_volatility_trend_atr_delivery`, `strategy_volatility_trend_atr_intraday`, `volatility_trend_atr.py`, `volatility_trend_atr_v2.py` | `AtrTrend` |
| `obv_breakout/_strategy.py` (repository root) | `ObvBreakout` |
| `open_range_breakout_crossover.py`, `strategy_open_range_breakout_cover_order.py` | `OpeningRange` |
| the four `strategy_options_buying_*_intraday` packages | `OptionsBuying` |
| `options_bull_call_ladder`, `options_bull_call_ladder_v2.py`, `options_box_spread` | `MultiLeg` |
| `strategy_options_bull_call_spread_with_stoploss`, `..._with_target_stops_reentry`, `..._with_trailing_stoploss_reentry`, `strategy_options_long_call_diagonal_spread_with_trailing_stoploss` | `SpreadLevels`, `Spreads` (the trailing-stoploss re-entry file shares `SpreadLevels.CheckTrailing` and the local-only count of `Spreads.LocalOnlyNeverExhausts`) |
| `strategy_options_short_straddle_with_target_risk_control`, `strategy_options_short_strangle_with_target_risk_control` | `Straddles` |
| `strategy_short_straddle_otm_regular_order.py` | `OtmStraddle` |
| `strategy_options_long_iron_condor_with_reentry`, `strategy_options_short_iron_butterfly_with_reentry` | `Breach` |
| `strategy_options_short_call_butterfly_with_price_exits_and_reentry` | `CallButterfly` |
| `strategy_options_greek_delta_target_stoploss_intraday` | `Greeks` |
| `strategy_options_put_call_ratio_intraday` | `Pcr` |

The constructors' parameter reads and checks are in `Parameters`, except for three files whose checks live beside their strategy: `Greeks.Validate`, `Pcr.ValidatePcr` and `Straddles.ValidateStraddle` (the straddle and the strangle).

Where a file's behaviour is evidently a defect, the model holds it both as written and as corrected. The corrected form is chosen by a `fixed` flag or by a separate member, and "## Findings" lists each pair.

## Model

| member | source | states |
|---|---|---|
| Common.SymbolSuffixRoundTrip | pyalgostrategypool/strategy_options_buying_rsi_macd_crossover_intraday/_strategy.py:61-68 | a symbol built from any root and an option suffix, with or without the " [LOCAL]" tag, is classified as that suffix |
| Signals.DirectSide | pyalgostrategypool/macd_crossover.py:33-38 | a side is chosen exactly for a nonzero crossover, and the side's code equals the crossover (1 BUY, -1 SELL) |
| Signals.InverseSide | pyalgostrategypool/inverse_ema_scalping.py:35-40 | a side is chosen exactly for a nonzero crossover, and the side's code is the negated crossover |
| Signals.InverseIsFlippedDirect | pyalgostrategypool/inverse_ema_scalping.py:36 | the inverse map chooses a side exactly when the direct map does, and always the opposite one |
| Signals.SellOnlyIntraday | pyalgostrategypool/strategy_macd_regular_order.py:49-55 | a BUY survives in every mode; a SELL survives exactly in INTRADAY mode |
| Signals.ThresholdSide | pyalgostrategypool/strategy_rsi_macd_crossover_intraday/_strategy.py:52-59 | BUY exactly on an upward cross of the oversold line; SELL exactly on a downward cross of the overbought line without that upward cross |
| Signals.OpposesIsOppositeEntry | pyalgostrategypool/stochastic_crossover_v2.py:57 | the opposing-crossover exit fires exactly when the direct entry map would open the other side, and only on a crossover |
| Signals.EitherLineExitWeakensReverseRsi | pyalgostrategypool/reverse_rsi_crossover_v2.py:64-70 | every reverse-RSI exit is a v2 exit, and (1, 0, SELL) is a v2 exit the reverse-RSI rule does not take |
| Signals.RsiMacdMirrorsReverseRsi | pyalgostrategypool/strategy_rsi_macd_crossover_intraday/_strategy.py:73-74 | the RSI-MACD exit for a side is the reverse-RSI exit for the opposite side |
| Signals.FallbackParameter | pyalgostrategypool/stochastic_crossover_v2.py:14-16 | the primary parameter is used whenever it is given (present and nonzero), otherwise the alternative; the result is given exactly when one of the two is |
| Ledger.SelectEntry | pyalgostrategypool/macd_crossover.py:28-40 | the lists are aligned; an instrument is selected exactly when its gate is open and it has a side, with that side as meta |
| Ledger.SelectExit | pyalgostrategypool/macd_crossover.py:46-56 | the lists are aligned; an instrument is selected exactly when it is held (COMPLETE where required) and the exit rule fires on its side, with the matching exit meta |
| Ledger.Enter | pyalgostrategypool/strategy_macd_regular_order.py:59-77 | a checked strategy fails with SystemExit exactly on a non-entry meta; an entry records an order on the meta's side; no other instrument changes |
| Ledger.ExitPosition | pyalgostrategypool/macd_crossover.py:58-64 | an unaccepted meta changes nothing and answers False; an accepted one clears the held entry and answers True, fails on a missing entry, and leaves other instruments alone |
| Ledger.EnterExitRoundTrip | pyalgostrategypool/macd_crossover.py:42-64 | entering a flat instrument and then exiting it restores the ledger exactly |
| Ledger.Adopt | pyalgostrategypool/strategy_stochastic_crossover_delivery/_strategy.py:33-39 | with existing orders the first becomes the main order; with none the ledger is unchanged; other instruments are untouched |
| Ledger.SelectionKeepsDistinct | pyalgostrategypool/macd_crossover.py:28-40 | a bucket without repeats yields an entry selection without repeats |
| Ledger.TickReverses | pyalgostrategypool/strategy_ema_regular_order_intraday/_strategy.py:40-75 | when the exit rule fires on every entry signal, each signalled instrument ends the candle holding one fresh order on its side, and no entry lands on a still-held order |
| Ledger.TickKeepsUnfired | pyalgostrategypool/macd_crossover.py:28-56 | under the `is None` gate an order on which the exit rule does not fire survives the candle unchanged |
| Ledger.TickFlat | pyalgostrategypool/macd_crossover.py:28-64 | for one instrument: flat or exited gives a fresh order on the decided side or nothing; otherwise the order is kept |
| CrossoverStrategies.Decision | pyalgostrategypool/strategy_reverse_rsi_cover_order.py:41-58 | the direct and inverse maps decide exactly on a nonzero crossover, on the side whose code is the crossover or its negation; the threshold map decides BUY exactly on an upward oversold cross and SELL exactly on a downward overbought cross without one; the Williams map never decides |
| CrossoverStrategies.InverseDecisionIsFlipped | pyalgostrategypool/inverse_ema_scalping.py:35-40 | the inverse entry map decides exactly when the direct one does, and always on the opposite side |
| CrossoverStrategies.EntrySide | pyalgostrategypool/stochastic_crossover.py:82-95 | an emitted side is the decision's side; a decision is dropped only when it is a SELL outside INTRADAY for a sell-only-intraday family |
| CrossoverStrategies.SelectForEntry | pyalgostrategypool/stochastic_crossover.py:55-99 | every selected instrument passes the family's gate with its decided side, SELLs only intraday where required; every gated instrument with a side is selected |
| CrossoverStrategies.SelectForExit | pyalgostrategypool/stochastic_crossover.py:124-163 | an instrument is selected exactly when held, COMPLETE where required, and the family's exit rule fires; the meta is EXIT or the side-tagged exit |
| CrossoverStrategies.SelectedExitsClear | pyalgostrategypool/stochastic_crossover.py:165-182 | in a family whose exit meta is the one its exit_position accepts, every selected exit clears the entry and answers True |
| CrossoverStrategies.IncoherentExitsIgnored | pyalgostrategypool/aaroon_crossover_v2.py:126-145 | when the written meta is not the accepted one, every selected exit leaves the ledger unchanged and answers False |
| CrossoverStrategies.AnyCrossExitsOnEverySignal | pyalgostrategypool/ema_crossover_v2.py:31-71 | a family that enters only on a crossover and exits on any crossover fires its exit on every entry signal |
| CrossoverStrategies.StopAndReverse | pyalgostrategypool/ema_crossover_v2.py:31-79 | such a family ends each candle with a fresh order on the signalled side for every signalled instrument, even without a ledger test on entry |
| CrossoverStrategies.HeldOrderKept | pyalgostrategypool/stochastic_crossover_v2.py:30-61 | under the `is None` gate an order the exit rule leaves alone (or that is not yet COMPLETE where required) is kept unchanged |
| CrossoverStrategies.DecisionOpposesIsOpposing | pyalgostrategypool/strategy_aroon_crossover_cover_order.py:89-101 | with the direct map, "the decision names the other side" is the same exit as "the crossover opposes the held side" |
| CrossoverStrategies.ThresholdDecisionExit | pyalgostrategypool/strategy_reverse_rsi_cover_order.py:102-115 | a BUY is closed exactly on an overbought downward cross without an oversold upward cross; a SELL exactly on an oversold upward cross |
| CrossoverStrategies.ProfitOrder | pyalgostrategypool/sma_heikin_ashi_crossover.py:123-148 | the profit order is on the other side, above the entry price by the BUY points for a BUY and below it by the SELL points for a SELL (its prices only; the dictionary it is filed in is not modelled) |
| CrossoverStrategies.EnterByCall | pyalgostrategypool/strategy_ema_regular_order_intraday/_strategy.py:53-55 | the reply filed under the instrument is an order of that instrument exactly when the broker call names the instrument and a side; it is then the ledger's own entry on that side, and any other call is a refused placement |
| CrossoverStrategies.CompactAsWrittenNeverEnters | pyalgostrategypool/ema_crossover_compact.py:42-44 | as written, the call names an instrument called after the action (the signalled instrument only if it is itself called "BUY" or "SELL") and a transaction type, INTRADAY, that names no side, so no order of the signalled instrument is ever filed |
| CrossoverStrategies.RegularCallEnters | pyalgostrategypool/strategy_ema_regular_order_intraday/_strategy.py:53-55 | with the instrument first and the action second, as every other crossover file calls the broker, the entry files an order of the instrument on the signalled side and changes nothing else |
| CrossoverStrategies.FamiliesCoherent | pyalgostrategypool/sma_heikin_ashi_crossover.py:150-208 | every modelled family writes an exit meta its own exit_position accepts, except Aroon v2 as written |
| CrossoverStrategies.AroonV2NeverExits | pyalgostrategypool/aaroon_crossover_v2.py:126-145 | as written, every exit the Aroon v2 strategy selects leaves the ledger unchanged and answers False |
| CrossoverStrategies.AroonV2Exits | pyalgostrategypool/aaroon_crossover_v2.py:100-145 | with the accepted meta, every selected exit clears its entry |
| CrossoverStrategies.UngatedFamiliesReverse | pyalgostrategypool/strategy_inverse_ema_scalping_regular_order.py:38-92 | every family that enters without a ledger test exits on every entry signal, so it never stacks a second order |
| CrossoverStrategies.WilliamsNeverTrades | pyalgostrategypool/strategy_williams_percentage_custom_bracket_order.py:43-63 | under its `is None` gate and a decision map that never decides, the Williams %R strategy selects nothing for entry and nothing for exit |
| Bands.FullSide | pyalgostrategypool/bollinger_bands.py:53-94 | a BUY needs a rising close, a SELL a falling one; for a real candle BUY is exactly "previous low at or below the lower band and close rose", SELL exactly "previous high at or above the upper band and close fell" |
| Bands.ReversionSide | pyalgostrategypool/bollinger_bands_v2.py:37-60 | a BUY needs a lower-band touch and a rising close; a SELL an upper-band touch and a falling close |
| Bands.ReversionRefinesFull | pyalgostrategypool/strategy_mean_reversion_bollinger_bands_intraday/_strategy.py:38-43 | every mean-reversion signal is the four-price signal, and some four-price SELL is not a mean-reversion signal |
| Bands.ReversionBuyIsLowTouch | pyalgostrategypool/strategy_mean_reversion_bollinger_bands_intraday/_strategy.py:38-39 | for a real candle the mean-reversion BUY is exactly "previous low at or below the lower band and close rose" |
| Bands.EntrySide | pyalgostrategypool/bollinger_bands.py:96-129 | an emitted side is the decision; a SELL only in INTRADAY where required; a decision is dropped only for that reason |
| Bands.BandTickOutcome | pyalgostrategypool/bollinger_bands_v2.py:62-163 | per instrument per candle: an unfired held order is kept, otherwise the instrument holds a fresh order on the signalled side or nothing |
| Bands.OppositeSignalReverses | pyalgostrategypool/bollinger_bands.py:155-213 | under the opposite-signal exit a held order either stays or is replaced by one on the other side |
| Bands.BracketAsWrittenNeverEnters | pyalgostrategypool/strategy_bollinger_bands_bracket_order.py:63-79 | as written (entry only when an order is already held), a strategy starting with an empty ledger stays empty on every candle |
| Bands.BracketEnters | pyalgostrategypool/strategy_bollinger_bands_cover_order.py:58-74 | with the `is None` entry test a flat instrument with a signal ends the candle holding an order on that side |
| Bands.ReversionDeliveryAsWrittenHolds | pyalgostrategypool/strategy_mean_reversion_bollinger_bands_delivery/_strategy.py:72-83 | as written (decision overwritten with None), no candle changes a held order |
| Bands.ReversionDeliveryTurnsOver | pyalgostrategypool/strategy_mean_reversion_bollinger_bands_intraday/_strategy.py:63-73 | with the intraday exit restored, a held order is closed on every signal and re-opened on the signalled side in the same candle |
| Bands.EnterAsWritten | pyalgostrategypool/bollinger_bands.py:131-153 | as written, enter succeeds exactly for EXIT_BUY / EXIT_SELL metas and records that side |
| Bands.BollingerEntriesRaise | pyalgostrategypool/bollinger_bands.py:96-153 | every entry the selector emits carries ENTRY_BUY / ENTRY_SELL, so the as-written enter raises SystemExit on each |
| Bands.BollingerEntriesRecorded | pyalgostrategypool/bollinger_bands.py:96-153 | with ENTRY_BUY / ENTRY_SELL accepted, every selected entry is recorded on its side |
| AtrTrend.TrendOf | pyalgostrategypool/volatility_trend_atr.py:28 | the trend is 1 exactly when the latest ATR is above the earlier one, -1 exactly when below |
| AtrTrend.TrendFromSeries | pyalgostrategypool/volatility_trend_atr.py:23-28 | the lookup succeeds exactly on a non-empty series with the offset in range; it compares the last value with the one k from the end (the first one for k = 0); k = 1 always gives 0 |
| AtrTrend.EntryPhase | pyalgostrategypool/volatility_trend_atr.py:30-45 | exactly the flat instruments with a nonzero effective trend are selected, on that trend's side; the current cache is refreshed for flat instruments and the previous cache records each entry's trend; nothing else changes |
| AtrTrend.ExitPhase | pyalgostrategypool/volatility_trend_atr.py:51-63 | exactly the held instruments whose fresh trend is nonzero and differs from the remembered one are selected with EXIT; held instruments' current trend is refreshed; the previous cache is untouched |
| AtrTrend.ExitFiresIffOpposes | pyalgostrategypool/volatility_trend_atr.py:40-43 | while every held order is remembered with its entry trend, the exit fires exactly when the latest trend opposes the held side |
| AtrTrend.TickRemembers | pyalgostrategypool/volatility_trend_atr.py:30-71 | a candle keeps every held order remembered with the trend it was entered on |
| AtrTrend.EntryKeepsDistinct | pyalgostrategypool/volatility_trend_atr.py:33-44 | a bucket without repeats yields an entry selection without repeats |
| AtrTrend.TrendTurnReverses | pyalgostrategypool/volatility_trend_atr.py:51-63 | a held instrument whose trend turns against it is exited and re-entered on the other side in the same candle |
| AtrTrend.TrendHoldKeeps | pyalgostrategypool/volatility_trend_atr.py:58-61 | a held instrument whose trend is flat or agrees with it keeps its order |
| AtrTrend.EntryPhaseV2 | pyalgostrategypool/volatility_trend_atr_v2.py:41-58 | only flat bucket instruments are selected, all on the side of the final shared trend; a nonzero incoming trend is never recomputed; the previous trend becomes the shared trend once anything is entered |
| AtrTrend.EntryV2OneSide | pyalgostrategypool/volatility_trend_atr_v2.py:46-56 | all entries of one v2 entry call are on the same side |
| AtrTrend.ExitPhaseV2 | pyalgostrategypool/volatility_trend_atr_v2.py:64-75 | exactly the held instruments with a nonzero trend different from the shared previous one are selected; the shared trend ends as the last instrument's trend |
| AtrTrend.V2EntriesFollowLastInstrument | pyalgostrategypool/volatility_trend_atr_v2.py:41-75 | on a candle, every v2 entry is on the side of the last bucket instrument's trend whenever that trend is nonzero |
| ObvBreakout.Highs | obv_breakout/_strategy.py:55 | the highs column has one entry per candle, each candle's high |
| ObvBreakout.Lows | obv_breakout/_strategy.py:67 | the lows column has one entry per candle, each candle's low |
| ObvBreakout.LastInWindow | obv_breakout/_strategy.py:61 | the latest value of a series always lies in its trailing window `[-N:]`, for every N |
| ObvBreakout.SignalAsWritten | obv_breakout/_strategy.py:51-92 | the signal is computable exactly when the candle, OBV and smoothed-OBV series are non-empty |
| ObvBreakout.AsWrittenNeverSignals | obv_breakout/_strategy.py:57-73 | as written the signal is never BUY or SELL, since the smoothed OBV is compared with a window that holds it |
| ObvBreakout.Signal | obv_breakout/_strategy.py:75-92 | BUY exactly when the close beats every one of the previous N highs and the smoothed OBV beats its previous N values; SELL exactly when the BUY test fails and both are below the previous N lows and values; the series must be non-empty |
| ObvBreakout.SignalCanSell | obv_breakout/_strategy.py:87-89 | the corrected signal gives SELL on two falling candles with falling OBV |
| ObvBreakout.SignalCanBuy | obv_breakout/_strategy.py:83-85 | the corrected signal gives BUY on two rising candles with rising OBV |
| ObvBreakout.ExitFires | obv_breakout/_strategy.py:147-216 | the exit test is computable exactly on non-empty series; it fires for a LONG exactly on the OBV or stop conditions below, and for a SHORT on their mirror |
| ObvBreakout.NotBelowWindowMin | obv_breakout/_strategy.py:162-163 | a value not below the latest element is never below the trailing window's minimum |
| ObvBreakout.NotAboveWindowMax | obv_breakout/_strategy.py:162-164 | a value not above the latest element is never above the trailing window's maximum |
| ObvBreakout.LongExitReduces | obv_breakout/_strategy.py:189-201 | for a well-formed latest candle, the LONG exit fires exactly when OBV falls below its average or the close falls below the ATR stop; the window tests can never fire |
| ObvBreakout.ShortExitReduces | obv_breakout/_strategy.py:204-216 | the SHORT counterpart: exit exactly when OBV rises above its average or the close rises above the ATR stop |
| ObvBreakout.AsBook | obv_breakout/_strategy.py:105 | the ledger view holds exactly the instruments with a stored position |
| ObvBreakout.SelectForEntry | obv_breakout/_strategy.py:94-113 | the scan fails exactly when some flat bucket instrument's signal fails, with the first such fault; otherwise the lists are aligned and a bucket instrument is selected exactly when it has no position and a BUY or SELL signal, with that signal as its meta |
| ObvBreakout.FirstSignalFault | obv_breakout/_strategy.py:94-113 | no fault exactly when every flat bucket instrument's signal succeeds; otherwise the fault of the first flat instrument whose signal fails, all earlier ones being held or succeeding |
| ObvBreakout.Enter | obv_breakout/_strategy.py:115-135 | the position is recorded with its side and the latest close as entry price; other positions are unchanged |
| ObvBreakout.Exit | obv_breakout/_strategy.py:220-229 | EXIT removes the instrument's position and nothing else; any other action changes nothing |
| ObvBreakout.EnterExitRoundTrip | obv_breakout/_strategy.py:115-229 | entering a flat instrument and then exiting it restores the positions |
| CallButterfly.CbLegs | pyalgostrategypool/strategy_options_short_call_butterfly_with_price_exits_and_reentry/_strategy.py:84-91 | three call legs in the order OTM, ATM, ITM; only the ATM leg sells, at zero strikes from the money |
| CallButterfly.QuantitiesBalance | pyalgostrategypool/strategy_options_short_call_butterfly_with_price_exits_and_reentry/_strategy.py:116 | the two bought wings trade exactly as many units as the doubled sold body, so the signed quantity is zero |
| CallButterfly.Initialize | pyalgostrategypool/strategy_options_short_call_butterfly_with_price_exits_and_reentry/_strategy.py:59-71 | every bucket instrument, and only those, gets an empty leg dictionary; the other dictionaries start empty |
| CallButterfly.LeftAfter | pyalgostrategypool/strategy_options_short_call_butterfly_with_price_exits_and_reentry/_strategy.py:93-98 | the re-entry counter exists exactly once the base has been scanned at least once |
| CallButterfly.CountsDown | pyalgostrategypool/strategy_options_short_call_butterfly_with_price_exits_and_reentry/_strategy.py:95-98 | after a scan that set the counter to the limit it drops by one per scan for the next limit scans, under both rules |
| CallButterfly.AsWrittenRefills | pyalgostrategypool/strategy_options_short_call_butterfly_with_price_exits_and_reentry/_strategy.py:95-96 | as written, the scan after the counter reaches zero sets it back to the limit |
| CallButterfly.AsWrittenNeverExhausted | pyalgostrategypool/strategy_options_short_call_butterfly_with_price_exits_and_reentry/_strategy.py:93-101 | as written, the counter is back at the limit, and the entry gate open, at scan m(limit+1)+1 for every m |
| CallButterfly.FixedCounterRunsOut | pyalgostrategypool/strategy_options_short_call_butterfly_with_price_exits_and_reentry/_strategy.py:95-101 | with the counter set only when missing, scan k sees limit-(k-1), so the gate is open exactly for the first limit scans |
| CallButterfly.SelectCbEntry | pyalgostrategypool/strategy_options_short_call_butterfly_with_price_exits_and_reentry/_strategy.py:73-109 | an error exactly when a bucket base has no leg dictionary; otherwise only the counters change, a base enters only if its dictionary is empty and, for a bucket without repeats, exactly when that holds and its new counter is positive |
| CallButterfly.EnterCbLeg | pyalgostrategypool/strategy_options_short_call_butterfly_with_price_exits_and_reentry/_strategy.py:111-127 | a placed and complete leg records the base's price as reference and files the order under its key, leaving the other keys alone; any other outcome exits every leg of the base |
| CallButterfly.ExitCbBase | pyalgostrategypool/strategy_options_short_call_butterfly_with_price_exits_and_reentry/_strategy.py:191-207 | every filed child is exited; the base is left with an empty dictionary and no premiums, references and counters untouched, other bases unchanged |
| CallButterfly.SignedSum | pyalgostrategypool/strategy_options_short_call_butterfly_with_price_exits_and_reentry/_strategy.py:131-145 | the signed premium is defined exactly when every slot holds an order |
| CallButterfly.NetPremiumOfThreeLegs | pyalgostrategypool/strategy_options_short_call_butterfly_with_price_exits_and_reentry/_strategy.py:145-148 | the net premium of the three filed legs is OTM minus ATM plus ITM |
| CallButterfly.Bands | pyalgostrategypool/strategy_options_short_call_butterfly_with_price_exits_and_reentry/_strategy.py:149-150 | the stoploss premium is at or above and the target at or below the entry premium, strictly so for positive percentages |
| CallButterfly.BandsAround | pyalgostrategypool/strategy_options_short_call_butterfly_with_price_exits_and_reentry/_strategy.py:149-150 | scaling an entry premium up by a stoploss percentage never lowers it and down by a target percentage never raises it |
| CallButterfly.ReadBase | pyalgostrategypool/strategy_options_short_call_butterfly_with_price_exits_and_reentry/_strategy.py:135-145 | reading the base fails exactly when the breach test fails, the base has no leg dictionary, or a slot is empty; the reading's breach is the breach test's answer |
| CallButterfly.BreachOf | pyalgostrategypool/strategy_options_short_call_butterfly_with_price_exits_and_reentry/_strategy.py:135-137 | the breach test fails exactly when an offset is enabled and the base has no reference price; with both offsets disabled it never breaches |
| CallButterfly.CheckCbExit | pyalgostrategypool/strategy_options_short_call_butterfly_with_price_exits_and_reentry/_strategy.py:129-169 | the exit fires exactly on a breach, a net premium under the target or over the stoploss; a base without a truthy entry premium gets its own premium and bands; the reference moves to the current price only on an exit; as written a breach fails on the undefined flag attribute and a base without premium fails whenever another holds one; corrected, a breach always exits |
| CallButterfly.BreachRaisesAsWritten | pyalgostrategypool/strategy_options_short_call_butterfly_with_price_exits_and_reentry/_strategy.py:139-140 | with reference 100, upper offset 50 and price 160, the check as written fails with an attribute error, while the corrected check exits and moves the reference to 160 |
| CallButterfly.PremiumDictionaryStored | pyalgostrategypool/strategy_options_short_call_butterfly_with_price_exits_and_reentry/_strategy.py:146-150 | with one base holding a premium, the first check of another base fails as written and succeeds with the corrected rule |
| CallButterfly.FixedBandHolds | pyalgostrategypool/strategy_options_short_call_butterfly_with_price_exits_and_reentry/_strategy.py:155-163 | with a recorded band, no breach and a net premium inside the band, the corrected check does not exit and changes nothing |
| CallButterfly.NoPremiumExitAtEntry | pyalgostrategypool/strategy_options_short_call_butterfly_with_price_exits_and_reentry/_strategy.py:146-163 | the first check of a base whose legs are still at their entry prices never exits on premium alone |
| CallButterfly.SelectCbExit | pyalgostrategypool/strategy_options_short_call_butterfly_with_price_exits_and_reentry/_strategy.py:171-189 | the scan fails exactly when a check fails or a mapped base has no leg dictionary; otherwise the state is the one the checks left, the leg dictionaries are untouched, the lists are aligned, a base is exited exactly when its check fired and it has legs, and a child exactly when it is a leg of such a base |
| CallButterfly.CbCheckOrder | pyalgostrategypool/strategy_options_short_call_butterfly_with_price_exits_and_reentry/_strategy.py:174-185 | the bases checked are distinct, each a mapped bucket child's base whose legs are all complete; the KeyError flag is raised exactly when some mapped base has no leg dictionary, and otherwise every complete mapped base is checked |
| CallButterfly.EnterThreeThenExit | pyalgostrategypool/strategy_options_short_call_butterfly_with_price_exits_and_reentry/_strategy.py:111-207 | entering the three legs of a flat base files all three in order; exiting the base then exits exactly their three children and restores the leg dictionaries |
| Greeks.Validate | pyalgostrategypool/strategy_options_greek_delta_target_stoploss_intraday/_strategy.py:43-67 | the parameters are accepted exactly when there is one expiry date, the deltas are non-negative, the percentages, rate and volatility positive, and the codes and strike count in range; a wrong expiry count stops the strategy; accepted codes decode through the side, suffix and direction maps |
| Greeks.SelectionIgnoresSign | pyalgostrategypool/strategy_options_greek_delta_target_stoploss_intraday/_strategy.py:75-83 | the delta band test gives the same answer for a delta and its negation, and an inverted band selects nothing |
| Greeks.ExitOrderFor | pyalgostrategypool/strategy_options_greek_delta_target_stoploss_intraday/_strategy.py:97-111 | an exit order is on the opposite side of the main order, a stoploss-limit exactly for the stoploss, priced pct percent from entry; with positive entry and percentage it lies below the entry exactly for a BUY's stoploss or a SELL's target |
| Greeks.ExitPricesMirror | pyalgostrategypool/strategy_options_greek_delta_target_stoploss_intraday/_strategy.py:102-107 | a SELL leg's stoploss is priced where a BUY leg's target is, and the other way round |
| Greeks.ExitsBracketEntry | pyalgostrategypool/strategy_options_greek_delta_target_stoploss_intraday/_strategy.py:102-107 | a positive entry price lies strictly between its stoploss and target exits, on the sides its transaction type calls for |
| Greeks.SelectGreekEntry | pyalgostrategypool/strategy_options_greek_delta_target_stoploss_intraday/_strategy.py:114-126 | a base is selected, paired with its child, exactly when it holds no main order and its child's delta is inside the band |
| Greeks.EnterGreek | pyalgostrategypool/strategy_options_greek_delta_target_stoploss_intraday/_strategy.py:128-131 | the order becomes the base's main order; exit orders and mapper are untouched |
| Greeks.Eligible | pyalgostrategypool/strategy_options_greek_delta_target_stoploss_intraday/_strategy.py:136-140 | only bases holding a complete main order are looked at in the exit scan |
| Greeks.PlaceExits | pyalgostrategypool/strategy_options_greek_delta_target_stoploss_intraday/_strategy.py:97-144 | every eligible base ends with both a stoploss and a target order; an existing one is never replaced, a missing one is priced from the main order's entry |
| Greeks.GreekExits | pyalgostrategypool/strategy_options_greek_delta_target_stoploss_intraday/_strategy.py:146-156 | a child of an eligible base exits exactly when one of its base's exit orders completed; the target is cancelled when the stoploss completed, else the stoploss is |
| Greeks.SelectGreekExit | pyalgostrategypool/strategy_options_greek_delta_target_stoploss_intraday/_strategy.py:133-158 | the main and mapper dictionaries are unchanged; every eligible base ends with both exit orders, earlier ones kept and new ones priced from its entry price; a bucket child is exited exactly when its base is eligible and one exit order has filled, the other one being cancelled |
| Greeks.ExitGreek | pyalgostrategypool/strategy_options_greek_delta_target_stoploss_intraday/_strategy.py:160-168 | EXIT forgets the base's main, stoploss and target orders and reports success; any other action changes nothing and reports failure |
| Greeks.EnterThenExitForgets | pyalgostrategypool/strategy_options_greek_delta_target_stoploss_intraday/_strategy.py:128-168 | entering a flat base, scanning it and exiting it restores the strategy's dictionaries |
| OptionLegs.CompleteStatus | pyalgostrategypool/strategy_options_bull_call_spread_with_stoploss/_strategy.py:198-208 | an order counts as complete exactly when it exists, has a broker id and is COMPLETE; every complete order was placed successfully |
| OptionLegs.Lookup | pyalgostrategypool/strategy_options_bull_call_spread_with_stoploss/_strategy.py:128 | a key is found exactly when the leg dictionary holds it, together with the order stored under it |
| OptionLegs.Put | pyalgostrategypool/strategy_options_bull_call_spread_with_stoploss/_strategy.py:103-106 | storing a leg makes it found with the new order, leaves every other key's lookup unchanged, and grows the dictionary only for a new key |
| OptionLegs.Placed | pyalgostrategypool/strategy_options_bull_call_spread_with_stoploss/_strategy.py:137 | the truthy orders are exactly the orders stored in some slot, never more of them than slots |
| OptionLegs.Children | pyalgostrategypool/strategy_options_bull_call_spread_with_stoploss/_strategy.py:137-138 | one child instrument per truthy order, in the same order |
| OptionLegs.ExitBase | pyalgostrategypool/strategy_options_bull_call_spread_with_stoploss/_strategy.py:135-141 | the children of every truthy leg of the base are exited and the base is dropped; every other base keeps its legs |
| OptionLegs.EnterOrUnwind | pyalgostrategypool/strategy_options_bull_call_spread_with_stoploss/_strategy.py:93-113 | the strategy stops exactly when the leg was not placed successfully; a placed leg is filed under its key with nothing unwound; a failed one unwinds the base's legs and drops it; other bases are untouched |
| OptionLegs.EnterThenExitBase | pyalgostrategypool/strategy_options_bull_call_spread_with_stoploss/_strategy.py:93-141 | after a successful placement, exiting the base drops it again and exits the new leg's child among the others |
| OptionLegs.AddMappings | pyalgostrategypool/strategy_options_long_iron_condor_with_reentry/_strategy.py:101 | the mapper gains exactly the selected children; each child maps to the last base it was selected for; other children keep their base |
| OptionLegs.AllCompletePlacesEvery | pyalgostrategypool/strategy_options_bull_call_spread_with_stoploss/_strategy.py:137 | when every leg is complete, every leg holds a placed order |
| OptionLegs.PairedAppend | pyalgostrategypool/strategy_options_bull_call_spread_with_target_stops_reentry/_strategy.py:235-236 | appending some of one base's legs with as many copies of its meta keeps the two lists aligned leg by leg |
| OptionLegs.EmitFired | pyalgostrategypool/strategy_options_short_call_butterfly_with_price_exits_and_reentry/_strategy.py:183-186 | for bases whose legs are all complete, a base is named in the metas exactly when it fired and has legs; a child is selected exactly when it is a leg of a fired base; the lists align leg by leg (the iron condor, lines 161-164, emits the same way) |
| OptionLegs.RunChecks | pyalgostrategypool/strategy_options_bull_call_spread_with_target_stops_reentry/_strategy.py:222-234 | the checks of an exit scan run in bucket order over one shared state; on success there is one answer per base |
| OptionLegs.RunChecksAppend | pyalgostrategypool/strategy_options_bull_call_spread_with_target_stops_reentry/_strategy.py:222-234 | running the checks over two runs of bases is running them over the first and then over the second from the state the first left; a failure in the first stops the whole |
| OptionLegs.StatelessChecks | pyalgostrategypool/strategy_options_short_straddle_with_target_risk_control/_strategy.py:120-138 | checks that neither read nor write the shared state always succeed, leave it unchanged and answer each base's own test |
| OptionLegs.PerBaseIndependent | pyalgostrategypool/strategy_options_bull_call_spread_with_stoploss/_strategy.py:157-162 | with the levels kept per base, each base's answer is its check on its own levels (fresh for a base seen first), whatever other bases were checked; the scan fails exactly when some base's check fails |
| OptionLegs.RunChecksKeep | pyalgostrategypool/strategy_options_short_call_butterfly_with_price_exits_and_reentry/_strategy.py:171-189 | an invariant every successful check preserves holds of the state a successful scan leaves |
| OptionLegs.NeverFires | pyalgostrategypool/strategy_options_long_iron_condor_with_reentry/_strategy.py:133-146 | when every check succeeds without firing, the scan succeeds and fires for no base |
| MultiLeg.DecodeLeg | pyalgostrategypool/options_bull_call_ladder/_strategy.py:33-35 | a leg's codes decode exactly when each is a key of its map (otherwise a KeyError); 1 is CE and BUY, 0 ITM and 1 ATM, the strike count is kept |
| MultiLeg.DecodeLegs | pyalgostrategypool/options_bull_call_ladder/_strategy.py:68-76 | the leg list decodes exactly when every leg's codes do, leg by leg in order |
| MultiLeg.DefaultLegLists | pyalgostrategypool/options_bull_call_ladder/_strategy.py:17-30 | the ladder's defaults decode to buy ATM call, buy call two strikes OTM, sell call four strikes OTM; the box spread's to a bull call spread and a bear put spread |
| MultiLeg.FreshBases | pyalgostrategypool/options_bull_call_ladder/_strategy.py:58-60 | the fresh bases are the bucket bases not done yet, each once, in bucket order; afterwards every bucket base is done, and with none fresh nothing changes |
| MultiLeg.EmitGrid | pyalgostrategypool/options_bull_call_ladder/_strategy.py:72-76 | the emitted legs are the full grid of fresh bases by leg list, base-major: the k-th leg of the i-th base sits at position i times the leg count plus k |
| MultiLeg.SelectLegs | pyalgostrategypool/options_bull_call_ladder/_strategy.py:55-78 | selection fails exactly when some base is fresh and a leg code is unknown; otherwise every fresh base is marked done and emits its whole leg list, and no fresh base means no legs |
| MultiLeg.FreshOnlyOnce | pyalgostrategypool/options_bull_call_ladder/_strategy.py:59-60 | after one scan, the same bucket has no fresh base left |
| MultiLeg.OncePerDay | pyalgostrategypool/options_bull_call_ladder/_strategy.py:55-78 | a second entry scan with the same bucket emits no legs and changes nothing |
| MultiLeg.ExitLegs | pyalgostrategypool/options_bull_call_ladder/_strategy.py:84-88 | the strategy never selects an exit and never handles one |
| OpeningRange.StartTime | pyalgostrategypool/open_range_breakout_crossover.py:24-28 | the start time is built exactly for an hour in 0..23 and a minute in 0..59; anything else stops the strategy |
| OpeningRange.CoverOrbParams | pyalgostrategypool/strategy_open_range_breakout_cover_order.py:20-32 | the cover strategy starts exactly with a valid start time and a stop fraction strictly between 0 and 1; a bad time stops it before the fraction is checked |
| OpeningRange.FirstCross | pyalgostrategypool/open_range_breakout_crossover.py:92-110 | the column scan returns the first nonzero crossover, and 0 exactly when every column's crossover is 0 |
| OpeningRange.OrbDecision | pyalgostrategypool/open_range_breakout_crossover.py:60-90 | no decision off the start candle; on it, the first upward crossing means ENTRY_BUY (EXIT_SELL when exiting), a downward one ENTRY_SELL (EXIT_BUY), none NO_ACTION |
| OpeningRange.OrbEntrySide | pyalgostrategypool/open_range_breakout_crossover.py:129-148 | an instrument has an entry side exactly when the clock has reached the start, it has no day flag, the start candle breaks out, and a SELL only in INTRADAY mode; the side's code is the crossover |
| OpeningRange.OrbSelectEntry | pyalgostrategypool/open_range_breakout_crossover.py:112-156 | a bucket instrument is selected exactly when it is flat and has an entry side; nothing before the start time |
| OpeningRange.OrbEnter | pyalgostrategypool/open_range_breakout_crossover.py:158-182 | an entry action places the order on its side and sets the day flag, other orders unchanged; any other meta stops the strategy |
| OpeningRange.OrbSelectExit | pyalgostrategypool/open_range_breakout_crossover.py:184-222 | a held instrument is selected exactly when its order is COMPLETE and the start candle breaks out against it, with the EXIT action naming its side |
| OpeningRange.OrbExit | pyalgostrategypool/open_range_breakout_crossover.py:224-241 | EXIT_BUY and EXIT_SELL clear a held order; any other action is refused without change |
| OpeningRange.OrbExitIsOppositeEntry | pyalgostrategypool/open_range_breakout_crossover.py:60-90 | the exit rule fires exactly when the entry decision on the same candle would open the other side |
| OpeningRange.OrbOncePerDay | pyalgostrategypool/open_range_breakout_crossover.py:129-182 | once an order is entered its day flag is set and no later scan selects the instrument, whatever the ledger then holds |
| OpeningRange.OrbExitsOnlyAtStart | pyalgostrategypool/open_range_breakout_crossover.py:60-222 | with no instrument on its start candle, the exit scan selects nothing |
| OpeningRange.CoverDecision | pyalgostrategypool/strategy_open_range_breakout_cover_order.py:51-76 | BUY exactly when some column crosses the level upwards, SELL exactly when none does and some crosses downwards, no decision without a level |
| OpeningRange.Record | pyalgostrategypool/strategy_open_range_breakout_cover_order.py:55-57 | the recorded highs gain exactly the observed instruments on their start candle, with that candle's high; every other record is kept |
| OpeningRange.RecordKeepsDecisions | pyalgostrategypool/strategy_open_range_breakout_cover_order.py:51-65 | recording a scan's start highs never changes any instrument's decision in that scan |
| OpeningRange.CoverEntrySide | pyalgostrategypool/strategy_open_range_breakout_cover_order.py:86-95 | an instrument has an entry side exactly when it has no day flag and a decision, a SELL only in INTRADAY mode; the side is the decision |
| OpeningRange.CoverSelectEntry | pyalgostrategypool/strategy_open_range_breakout_cover_order.py:78-98 | nothing before the start time; after it, a flat bucket instrument is selected exactly when it has an entry side, and the instruments without a day flag record their start highs |
| OpeningRange.CoverEnter | pyalgostrategypool/strategy_open_range_breakout_cover_order.py:100-124 | BUY and SELL place a cover order at the LTP with its stop trigger and set the day flag, other orders unchanged; any other meta stops the strategy |
| OpeningRange.CoverSelectExit | pyalgostrategypool/strategy_open_range_breakout_cover_order.py:126-139 | a held instrument is selected with EXIT exactly when its decision names the other side, whatever its status; held instruments record their start highs |
| OpeningRange.CoverExit | pyalgostrategypool/strategy_open_range_breakout_cover_order.py:141-146 | EXIT clears a held order; any other action is refused without change |
| OpeningRange.ScansDisagree | pyalgostrategypool/open_range_breakout_crossover.py:92-110 | with the open crossing down and the high crossing up, the crossover strategy reads SELL while the cover strategy's any-column test sees an upward crossing |
| OpeningRange.ScansAgreeOnOneDirection | pyalgostrategypool/strategy_open_range_breakout_cover_order.py:67-76 | when the columns cross in only one direction, the first-column and any-column readings name the same side |
| OptionsBuying.PsarDecision | pyalgostrategypool/strategy_options_buying_rsi_psar_crossover_intraday/_strategy.py:72-79 | the PSAR decision is 1 exactly when the PSAR is below the close and -1 exactly when above |
| OptionsBuying.LegOf | pyalgostrategypool/strategy_options_buying_ema_crossover_intraday/_strategy.py:70-72 | a crossover of 1 opens a call, -1 a put, and 0 nothing |
| OptionsBuying.RsiPsarLeg | pyalgostrategypool/strategy_options_buying_rsi_psar_crossover_intraday/_strategy.py:103-106 | a leg is opened exactly when the RSI crossover and the PSAR decision agree on a nonzero code, the leg of that code |
| OptionsBuying.CandleCheck | pyalgostrategypool/strategy_options_buying_multi_candle_trend_intraday/_strategy.py:51-62 | the check fails exactly on fewer than two candles; it is 1 exactly when the last close is above the previous high, -1 exactly when it is not and the close is below the previous low |
| OptionsBuying.CandleCheckExclusive | pyalgostrategypool/strategy_options_buying_multi_candle_trend_intraday/_strategy.py:55-60 | after a well-formed previous candle, a close above its high is never also reported as below its low |
| OptionsBuying.MultiCandleLeg | pyalgostrategypool/strategy_options_buying_multi_candle_trend_intraday/_strategy.py:83-92 | the entry fails when either interval's check fails; otherwise a leg is opened exactly when both checks agree on a nonzero code |
| OptionsBuying.RsiMacdLeg | pyalgostrategypool/strategy_options_buying_rsi_macd_crossover_intraday/_strategy.py:93-100 | an oversold crossover of 1 opens a call; exactly when it is not 1, an overbought crossover of -1 opens a put |
| OptionsBuying.PointExitBand | pyalgostrategypool/strategy_options_buying_rsi_psar_crossover_intraday/_strategy.py:81-91 | a price within the target and stoploss points of the entry never exits, and a price farther out than one that exits also exits |
| OptionsBuying.RsiMacdExitMirrorsEntry | pyalgostrategypool/strategy_options_buying_rsi_macd_crossover_intraday/_strategy.py:132-137 | a put exits exactly when the negated oversold crossover would open a call, a call exactly when the negated overbought crossover would open a put; a leg of unknown suffix never exits |
| OptionsBuying.FirstLegFault | pyalgostrategypool/strategy_options_buying_ema_crossover_intraday/_strategy.py:66-70 | the position of the first bucket base without an open order whose leg decision fails, every base before it being held or decided; the bucket length when there is none |
| OptionsBuying.BuyPicks | pyalgostrategypool/strategy_options_buying_ema_crossover_intraday/_strategy.py:66-78 | every pick is (the strike set-up's child, base) for a bucket base without an open order whose decision names a leg, and every such base is picked |
| OptionsBuying.SelectBuyEntry | pyalgostrategypool/strategy_options_buying_ema_crossover_intraday/_strategy.py:63-81 | the scan fails exactly when a bucket base without an open order has a failing leg decision, with that fault; otherwise a base is selected with the child of its leg exactly when it has no open order and a leg to open |
| OptionsBuying.EnterBuy | pyalgostrategypool/strategy_options_buying_multi_candle_trend_intraday/_strategy.py:102-106 | the order becomes the base's open order; other bases are unchanged |
| OptionsBuying.SelectBuyExit | pyalgostrategypool/strategy_options_buying_rsi_psar_crossover_intraday/_strategy.py:126-142 | a bucket child is selected with its base exactly when the mapper knows it, its base holds an order, COMPLETE where the variant requires it, and the exit rule fires |
| OptionsBuying.ExitBuy | pyalgostrategypool/strategy_options_buying_ema_crossover_intraday/_strategy.py:105-112 | EXIT forgets the base's order and reports success, failing with a KeyError when none is held; any other action changes nothing |
| OptionsBuying.EnterThenExitBuy | pyalgostrategypool/strategy_options_buying_multi_candle_trend_intraday/_strategy.py:102-131 | entering a flat base and then exiting it restores the ledger |
| OptionsBuying.EntryLeg | pyalgostrategypool/strategy_options_buying_rsi_macd_crossover_intraday/_strategy.py:83-111 | each variant's entry reads its own indicators: agreement of RSI and PSAR, the oversold/overbought rule, the EMA crossover, or the two-interval candle check, the last one alone able to fail |
| OptionsBuying.EmaCrossReverses | pyalgostrategypool/strategy_options_buying_ema_crossover_intraday/_strategy.py:88-112 | in the EMA variant any crossover exits the held leg and, once exited, opens the leg of that crossover for the same base |
| OptionsBuying.OnlyCompleteOrdersExit | pyalgostrategypool/strategy_options_buying_rsi_psar_crossover_intraday/_strategy.py:137-138 | the RSI/PSAR variant keeps an order that is not COMPLETE even at a point exit, while the multi-candle variant exits it |
| OtmStraddle.Dist | pyalgostrategypool/strategy_short_straddle_otm_regular_order.py:141 | a strike's distance from the underlying is the non-negative absolute difference |
| OtmStraddle.MinDist | pyalgostrategypool/strategy_short_straddle_otm_regular_order.py:150-153 | the minimum distance is at most every row's distance and attained by some row |
| OtmStraddle.Within | pyalgostrategypool/strategy_short_straddle_otm_regular_order.py:156 | the kept rows are exactly the chain rows within the distance |
| OtmStraddle.AtOrAbove | pyalgostrategypool/strategy_short_straddle_otm_regular_order.py:166 | the kept rows are exactly the rows whose strike is at or above the underlying |
| OtmStraddle.Nearest | pyalgostrategypool/strategy_short_straddle_otm_regular_order.py:139-156 | the nearest rows are exactly those no farther from the underlying than any other row |
| OtmStraddle.PickFrom | pyalgostrategypool/strategy_short_straddle_otm_regular_order.py:161-194 | the two contracts come from the nearest rows; of a two-row pair of different types they are of different types; otherwise the nearest rows were four and both contracts are at or above the underlying |
| OtmStraddle.PickContracts | pyalgostrategypool/strategy_short_straddle_otm_regular_order.py:94-205 | both picked contracts are chain rows at the minimum distance; from two nearest rows of different types the pick is a CE/PE pair; otherwise there were four nearest rows and both picks are at or above the underlying; an empty chain stops the strategy |
| OtmStraddle.PicksNearestPair | pyalgostrategypool/strategy_short_straddle_otm_regular_order.py:150-166 | with the underlying between two strikes, the nearer strike's CE and PE are picked |
| OtmStraddle.WithinAll | pyalgostrategypool/strategy_short_straddle_otm_regular_order.py:156 | a chain whose every strike is within the distance is kept whole |
| OtmStraddle.MidpointPicksUpperPair | pyalgostrategypool/strategy_short_straddle_otm_regular_order.py:161-166 | with the underlying exactly midway between two strikes all four rows tie and the upper strike's CE and PE are picked |
| OtmStraddle.SuffixOfAgreesOnPlainSymbols | pyalgostrategypool/strategy_short_straddle_otm_regular_order.py:245-250 | on every symbol without a trailing "]" this file's suffix test agrees with the shared classification |
| OtmStraddle.SuffixOfBuiltSymbols | pyalgostrategypool/strategy_short_straddle_otm_regular_order.py:245-250 | a plain symbol built with a suffix reads back as that suffix; with the " [LOCAL]" tag it is neither CE nor PE |
| OtmStraddle.Extract | pyalgostrategypool/strategy_short_straddle_otm_regular_order.py:339-350 | extraction succeeds exactly when every contract is CE or PE; a returned CE or PE is one of the contracts, of that type |
| OtmStraddle.ExtractMissing | pyalgostrategypool/strategy_short_straddle_otm_regular_order.py:340-346 | a side is missing from the extraction exactly when no contract is of that type |
| OtmStraddle.SelectOtmEntry | pyalgostrategypool/strategy_short_straddle_otm_regular_order.py:207-227 | nothing before the start time; at most one base, from the bucket and with contracts, is ever selected, and only while the first order is not done, which it then marks; main and stoploss dictionaries are untouched |
| OtmStraddle.SellsOnce | pyalgostrategypool/strategy_short_straddle_otm_regular_order.py:218-225 | after the first straddle is selected, no later scan selects another, whatever the bucket and prices |
| OtmStraddle.Pairs | pyalgostrategypool/strategy_short_straddle_otm_regular_order.py:220-224 | each contract yields a main intent then a stoploss intent, in order, all for the selected base |
| OtmStraddle.EnterOtm | pyalgostrategypool/strategy_short_straddle_otm_regular_order.py:229-275 | a main intent sells the contract at market and files the order and price under its type; a stoploss intent places a stoploss BUY triggered STOPLOSS_POINTS above the price exactly when the looked-up main order is COMPLETE, and files it, or nothing, under the contract's type |
| OtmStraddle.StoplossLookedUpUnderBase | pyalgostrategypool/strategy_short_straddle_otm_regular_order.py:251-262 | as written, the stoploss is never placed after its contract's main order completes, since the main order is looked up under the base; with the contract as key it is |
| OtmStraddle.Clear | pyalgostrategypool/strategy_short_straddle_otm_regular_order.py:294-295 | one side's main and stoploss entries of a contract are forgotten; the other side, the entry prices and other contracts are kept |
| OtmStraddle.ProfitIsPremiumDecay | pyalgostrategypool/strategy_short_straddle_otm_regular_order.py:307-314 | the profit is the drop in the pair's combined price times the quantity, so it only grows as either contract gets cheaper |
| OtmStraddle.ProfitCheck | pyalgostrategypool/strategy_short_straddle_otm_regular_order.py:306-332 | with both main orders live, the pair is squared off exactly when the profit reaches the desired amount, both mains being exited and both sides forgotten; otherwise nothing changes |
| OtmStraddle.ScanContract | pyalgostrategypool/strategy_short_straddle_otm_regular_order.py:284-332 | scanning one contract never changes the picked contracts or the main-order dictionary |
| OtmStraddle.StoplossCancelsOtherSide | pyalgostrategypool/strategy_short_straddle_otm_regular_order.py:286-295 | when a CE contract's stoploss has filled, its scan leaves the PE side with no live main or stoploss, exits the PE main if there was one, and leaves the CE side alone |
| OtmStraddle.ScanContracts | pyalgostrategypool/strategy_short_straddle_otm_regular_order.py:284 | scanning a base's contracts never changes the picked contracts or the main-order dictionary |
| OtmStraddle.SelectOtmExit | pyalgostrategypool/strategy_short_straddle_otm_regular_order.py:277-334 | the exit scan selects nothing; its effects never change the picked contracts or the main-order dictionary |
| Pcr.ValidatePcr | pyalgostrategypool/strategy_options_put_call_ratio_intraday/_strategy.py:32-44 | accepted exactly with one allowed expiry, non-negative thresholds and 0 to 10 strikes; a wrong expiry count stops the strategy, a bad parameter is an argument error; accepted values are kept |
| Pcr.WindowAsWritten | pyalgostrategypool/strategy_options_put_call_ratio_intraday/_strategy.py:94-95 | as written, with zero strikes the window is every ITM strike plus the ATM strike; otherwise it is the intended window |
| Pcr.Window | pyalgostrategypool/strategy_options_put_call_ratio_intraday/_strategy.py:94-95 | the intended window is the (up to) n ITM strikes nearest the money, the ATM strike, then the (up to) n nearest OTM strikes, at most 2n+1 strikes |
| Pcr.ZeroStrikeWindow | pyalgostrategypool/strategy_options_put_call_ratio_intraday/_strategy.py:94 | with zero strikes and two ITM strikes, the written window holds three strikes where the intended one holds only the ATM strike |
| Pcr.PutCallRatio | pyalgostrategypool/strategy_options_put_call_ratio_intraday/_strategy.py:84-87 | the ratio is finite exactly when the call open interest is non-zero, and then times the call total gives the put total; a zero call total gives infinity for positive put interest and NaN for zero |
| Pcr.Decide | pyalgostrategypool/strategy_options_put_call_ratio_intraday/_strategy.py:61-69 | the ATM call (bearish) exactly when the ratio reaches the bearish threshold; the ATM put (bullish) exactly when it does not but is at most the bullish threshold; nothing otherwise |
| Pcr.BandsPartition | pyalgostrategypool/strategy_options_put_call_ratio_intraday/_strategy.py:62-67 | with the bullish threshold below the bearish one, a finite ratio picks nothing exactly when strictly between them, and NaN never picks |
| Pcr.SentimentOf | pyalgostrategypool/strategy_options_put_call_ratio_intraday/_strategy.py:71-79 | a CE symbol reads bearish, a PE symbol bullish, anything else raises NotImplementedError |
| Pcr.DecisionReadsBack | pyalgostrategypool/strategy_options_put_call_ratio_intraday/_strategy.py:61-79 | the child a decision picks reads back as that decision's sentiment |
| Pcr.Cached | pyalgostrategypool/strategy_options_put_call_ratio_intraday/_strategy.py:53-96 | a faithful cache returns the computed ratio and stays faithful; a miss empties the cache down to the one new key; a hit leaves it unchanged |
| Pcr.EntryPicks | pyalgostrategypool/strategy_options_put_call_ratio_intraday/_strategy.py:101-108 | every pick is a bucket base holding nothing whose decision picks that child, and every such base is picked |
| Pcr.EntryScan | pyalgostrategypool/strategy_options_put_call_ratio_intraday/_strategy.py:98-110 | walking the bucket with the ratio cache selects exactly the picks the candle's decisions give, and keeps the cache faithful |
| Pcr.SelectPcrEntry | pyalgostrategypool/strategy_options_put_call_ratio_intraday/_strategy.py:98-110 | the selection is the picks of the candle's decisions; each picked child is mapped to its base; held orders are untouched and the cache stays faithful |
| Pcr.EnterPcr | pyalgostrategypool/strategy_options_put_call_ratio_intraday/_strategy.py:112-115 | the placed order is held under its base; nothing else changes |
| Pcr.ExitPicks | pyalgostrategypool/strategy_options_put_call_ratio_intraday/_strategy.py:117-132 | fails exactly when some bucket child's held symbol is neither CE nor PE; otherwise picks exactly the children whose held sentiment the decision reverses, paired with the new child |
| Pcr.SelectPcrExit | pyalgostrategypool/strategy_options_put_call_ratio_intraday/_strategy.py:117-132 | the exit selection is those picks under the candle's decisions, failing with NotImplementedError as they do; held orders and the mapper are unchanged and the cache stays faithful |
| Pcr.ExitPcr | pyalgostrategypool/strategy_options_put_call_ratio_intraday/_strategy.py:134-141 | 'EXIT' forgets the base's order and reports handled, raising KeyError when there is none; any other action changes nothing |
| Pcr.FlipReverses | pyalgostrategypool/strategy_options_put_call_ratio_intraday/_strategy.py:117-141 | when a held base's sentiment flips, the exit scan selects it, the exit forgets it, and the next entry scan buys the newly decided child |
| Pcr.SameSentimentHolds | pyalgostrategypool/strategy_options_put_call_ratio_intraday/_strategy.py:127-130 | a neutral ratio, or one of the held sentiment, selects no exit |
| SpreadLevels.CheckTrailing | pyalgostrategypool/strategy_options_bull_call_spread_with_stoploss/_strategy.py:148-187 | an exit resets every level to None; otherwise the entry spread is kept, or filled from the legs' fill prices at the first check (the trailing re-entry spread's copy of this check is the same) |
| SpreadLevels.TrailingKeepsConsistent | pyalgostrategypool/strategy_options_bull_call_spread_with_stoploss/_strategy.py:157-183 | from levels filled together the check never fails, keeps the stop trailing the high, and the high never falls while held |
| SpreadLevels.TrailingExitIff | pyalgostrategypool/strategy_options_bull_call_spread_with_stoploss/_strategy.py:174-185 | for a non-negative spread, the check exits exactly when the spread falls under the trailing percentage below the high seen before this call, so a new high never exits |
| SpreadLevels.InitTarget | pyalgostrategypool/strategy_options_bull_call_spread_with_target_stops_reentry/_strategy.py:94-99 | a recorded entry spread keeps every level; otherwise entry, stop-loss and target are filled from the fill prices, stop-loss and target sl% under and target% over the entry spread |
| SpreadLevels.CheckTargetStops | pyalgostrategypool/strategy_options_bull_call_spread_with_target_stops_reentry/_strategy.py:79-146 | as written, every exit clears the entry spread; the first check of a position sets its stop-loss and target premiums from its entry spread |
| SpreadLevels.CheckTargetStopsFixed | pyalgostrategypool/strategy_options_bull_call_spread_with_target_stops_reentry/_strategy.py:109-119 | every exit clears both the entry spread and the trailing high; the first check sets the stop-loss and target premiums |
| SpreadLevels.TargetStopsFixOnlyResets | pyalgostrategypool/strategy_options_bull_call_spread_with_target_stops_reentry/_strategy.py:109-146 | the written and corrected checks fail together, exit together, and agree entirely when they do not exit |
| SpreadLevels.TargetStopsKeepsConsistent | pyalgostrategypool/strategy_options_bull_call_spread_with_target_stops_reentry/_strategy.py:94-146 | from consistent levels with a trail under 100% the check never fails and keeps the levels consistent; the target is checked before the stop-loss |
| SpreadLevels.TargetStopsRatchet | pyalgostrategypool/strategy_options_bull_call_spread_with_target_stops_reentry/_strategy.py:127-146 | with a high recorded and no target or hard-stop exit, the high rises to the spread exactly when it is exceeded, the stop stays tsl% under it, and the check exits exactly when the spread is under that stop |
| SpreadLevels.FixedFreshPositionIgnoresOldTrail | pyalgostrategypool/strategy_options_bull_call_spread_with_target_stops_reentry/_strategy.py:109-125 | under the corrected check, a fresh position that has not risen past the activation level exits exactly on its own target or stop-loss |
| SpreadLevels.FixedExitForgetsTrail | pyalgostrategypool/strategy_options_bull_call_spread_with_target_stops_reentry/_strategy.py:109-146 | every exit of the corrected check leaves no entry spread and no trailing high behind, with consistent levels |
| SpreadLevels.TargetStopsInheritsTrail | pyalgostrategypool/strategy_options_bull_call_spread_with_target_stops_reentry/_strategy.py:110-144 | as written, a position exited on target leaves its trailing stop behind, and it exits the next position at a spread inside that position's own band; the corrected check keeps that position |
| SpreadLevels.InitDiag | pyalgostrategypool/strategy_options_long_call_diagonal_spread_with_trailing_stoploss/_strategy.py:84-90 | a recorded entry spread keeps every level; otherwise the high is the entry spread and the stop-loss and trailing stop are sl% under it |
| SpreadLevels.CheckDiagonal | pyalgostrategypool/strategy_options_long_call_diagonal_spread_with_trailing_stoploss/_strategy.py:71-122 | as written, an exit clears the entry spread and the high |
| SpreadLevels.CheckDiagonalFixed | pyalgostrategypool/strategy_options_long_call_diagonal_spread_with_trailing_stoploss/_strategy.py:104-120 | with the activation threshold the comment describes, an exit clears the entry spread and the high |
| SpreadLevels.DiagonalExitIff | pyalgostrategypool/strategy_options_long_call_diagonal_spread_with_trailing_stoploss/_strategy.py:94-122 | the check exits exactly when the spread falls under the stop-loss premium in force, keeps the levels consistent, and the high never falls while held |
| SpreadLevels.DiagonalStopCanFall | pyalgostrategypool/strategy_options_long_call_diagonal_spread_with_trailing_stoploss/_strategy.py:104-120 | as written, a spread just above entry moves the stop-loss premium down (8.5 to 8.08 at sl 15%, trail 20%) |
| SpreadLevels.DiagonalFixedStopNeverFalls | pyalgostrategypool/strategy_options_long_call_diagonal_spread_with_trailing_stoploss/_strategy.py:104-120 | with the activation threshold, the stop-loss premium never falls while a position is held and the levels stay consistent |
| Spreads.Reentry | pyalgostrategypool/strategy_options_bull_call_spread_with_stoploss/_strategy.py:64-74 | the gate passes exactly when the base's count is under the limit (for the stop-loss spread's rule, also at its first sighting, which stores 0); a count kept only locally never changes, a stored count rises by one per pass, other bases' counts are untouched, and a stored gate never pushes a count past the limit |
| Spreads.SelectSpreadEntry | pyalgostrategypool/strategy_options_bull_call_spread_with_target_stops_reentry/_strategy.py:157-199 | every selected base is from the bucket and holds no legs; no count falls and counts outside the bucket are untouched; with the local-only count a base is selected exactly when it is flat and under the limit |
| Spreads.StoredEntryGate | pyalgostrategypool/strategy_options_long_call_diagonal_spread_with_trailing_stoploss/_strategy.py:145-153 | with the stored count, every selected base was under the limit and its count rose; no stored count is pushed past the limit |
| Spreads.LocalOnlyNeverExhausts | pyalgostrategypool/strategy_options_bull_call_spread_with_target_stops_reentry/_strategy.py:174-182 | as written, with the count never stored, a flat base under the limit is entered on every one of any number of scans |
| Spreads.StoredBoundsEntries | pyalgostrategypool/strategy_options_long_call_diagonal_spread_with_trailing_stoploss/_strategy.py:145-153 | with the count stored, a base is entered at most limit minus its starting count times, however many scans find it flat |
| Spreads.BullCallLegs | pyalgostrategypool/strategy_options_bull_call_spread_with_target_stops_reentry/_strategy.py:184-187 | the spread's two legs: buy the ATM call, sell the call n strikes out of the money, both on the nearest expiry |
| Spreads.DiagonalLegs | pyalgostrategypool/strategy_options_long_call_diagonal_spread_with_trailing_stoploss/_strategy.py:165-168 | the diagonal's two legs: buy the ATM call of the second expiry, sell the call n strikes out of the money of the first |
| Spreads.SpreadEntryEmitsPairs | pyalgostrategypool/strategy_options_bull_call_spread_with_target_stops_reentry/_strategy.py:189-197 | each selected base contributes its buy leg and then its sell leg, adjacent and in bucket order |
| Spreads.SelectSpreadExitBy | pyalgostrategypool/strategy_options_bull_call_spread_with_target_stops_reentry/_strategy.py:219-238 | the scan fails exactly when a check fails, with its fault; otherwise the shared state is the one the checks left in bucket order, a base is named in the metas exactly when its check fired, and a child is selected exactly when it is a leg of such a base; with one meta per leg the lists are aligned |
| Spreads.SelectSpreadExitAsWritten | pyalgostrategypool/strategy_options_bull_call_spread_with_target_stops_reentry/_strategy.py:219-238 | as written, with the meta list grown by the number of bases held, every meta names a ready base checked in bucket order |
| Spreads.SelectSpreadExit | pyalgostrategypool/strategy_options_bull_call_spread_with_target_stops_reentry/_strategy.py:219-238 | corrected, with one meta per leg: the instrument and meta lists are aligned and each instrument is a leg of a ready, checked base named by its meta |
| Spreads.CheckOrder | pyalgostrategypool/strategy_options_bull_call_spread_with_target_stops_reentry/_strategy.py:222-234 | the bases checked are distinct, each a mapped bucket child's base not done before and holding complete legs; every such base is checked |
| Spreads.EmitExits | pyalgostrategypool/strategy_options_bull_call_spread_with_target_stops_reentry/_strategy.py:234-236 | a base is named in the metas exactly when it fired; a child is selected exactly when it is a leg of a fired base; with one meta per leg the lists align leg by leg |
| Spreads.ExitIffFires | pyalgostrategypool/strategy_options_bull_call_spread_with_target_stops_reentry/_strategy.py:232-236 | with a check that keeps no shared state, a mapped bucket child's ready base is exited exactly when its check fires, and then with every one of its legs |
| Spreads.QuotesOf | pyalgostrategypool/strategy_options_bull_call_spread_with_target_stops_reentry/_strategy.py:90-96 | the quotes exist exactly when both the BUY and the SELL key hold an order, and are those orders' entry and current prices |
| Spreads.SharedLevelsCrossBases | pyalgostrategypool/strategy_options_bull_call_spread_with_stoploss/_strategy.py:148-186 | as written the trailing levels are one record for all bases: NIFTY (entry spread 10, now 10) leaves its stop of 8 behind, and BANKNIFTY (entry 6, now 5) exits on it; kept per base, neither exits |
| Spreads.ExitMetaMisaligned | pyalgostrategypool/strategy_options_bull_call_spread_with_target_stops_reentry/_strategy.py:234-236 | as written, one base holding two complete legs whose check fires selects two instruments but only one EXIT meta, the number of bases held |
| Spreads.EnterDiagonal | pyalgostrategypool/strategy_options_long_call_diagonal_spread_with_trailing_stoploss/_strategy.py:182-210 | a leg whose base already has legs but not the opposite one drops the base and places nothing; otherwise the order is filed under its side, and a failed placement stops the strategy, unwinding the base when an order object exists; other bases are untouched |
| Spreads.DiagonalPairFiled | pyalgostrategypool/strategy_options_long_call_diagonal_spread_with_trailing_stoploss/_strategy.py:182-210 | entering the buy then the sell leg of a flat base, both placed, leaves it holding exactly those two legs |
| Spreads.DiagonalOrphanDropped | pyalgostrategypool/strategy_options_long_call_diagonal_spread_with_trailing_stoploss/_strategy.py:188-192 | a buy leg refused outright is filed as None and the sell leg that follows drops the base, so no naked sell leg is placed |
| Straddles.ValidateStraddle | pyalgostrategypool/strategy_options_short_strangle_with_target_risk_control/_strategy.py:15-40 | a missing key is a KeyError, raised before any check because the constructor reads the keys with `[]` (the straddle file reads its two keys at lines 25-26); with the keys present the entry count never refuses, a wrong expiry count (after the strangle's strike check passes) stops the strategy and every other failure is an argument error; accepted exactly with the keys, a positive int strike count for the strangle, one allowed expiry date and non-negative target and multiplier, which are the values kept |
| Straddles.ShortDictionaryIsKeyError | pyalgostrategypool/strategy_options_short_straddle_with_target_risk_control/_strategy.py:25-36 | a dictionary holding only the target percentage is a KeyError for the straddle and the strangle alike, not a refused entry count |
| Straddles.LegFor | pyalgostrategypool/strategy_options_short_straddle_with_target_risk_control/_strategy.py:69-74 | every leg is a sale of its suffix: at the money for the straddle, the configured strikes out of the money for the strangle |
| Straddles.SelectStraddleEntry | pyalgostrategypool/strategy_options_short_straddle_with_target_risk_control/_strategy.py:52-76 | every selected leg is for a bucket base with no order of that suffix, and every such base and suffix is selected |
| Straddles.EntryFillsMissingLegs | pyalgostrategypool/strategy_options_short_straddle_with_target_risk_control/_strategy.py:60-74 | a flat base gets its CE and then its PE leg in one scan; a base holding both gets none |
| Straddles.EnterStraddleLeg | pyalgostrategypool/strategy_options_short_straddle_with_target_risk_control/_strategy.py:78-92 | the strategy stops exactly when the placement failed, after exiting both legs of the base; otherwise the order is filed under its suffix and the other suffix's book is untouched |
| Straddles.ExitStraddleBase | pyalgostrategypool/strategy_options_short_straddle_with_target_risk_control/_strategy.py:140-148 | the base is forgotten in both books and nothing else is; exactly its existing legs' children are exited, at most two |
| Straddles.CheckStraddleExit | pyalgostrategypool/strategy_options_short_straddle_with_target_risk_control/_strategy.py:94-118 | exits exactly when the legs' combined price is under the target share of the premium collected or above the stoploss multiple of it |
| Straddles.StraddleBand | pyalgostrategypool/strategy_options_short_straddle_with_target_risk_control/_strategy.py:98-118 | with a multiplier of at least one, legs still priced at the premium collected never exit, and a price that exits through the stoploss keeps exiting as it rises |
| Straddles.LookedAt | pyalgostrategypool/strategy_options_short_straddle_with_target_risk_control/_strategy.py:120-129 | the bases an exit scan looks at: each mapped bucket child's base not already done, once each |
| Straddles.StraddleEmit | pyalgostrategypool/strategy_options_short_straddle_with_target_risk_control/_strategy.py:131-135 | two entries per firing base; every child is a leg of the firing base its meta names, and every firing base holding both legs is selected with both children |
| Straddles.ExitsOf | pyalgostrategypool/strategy_options_short_straddle_with_target_risk_control/_strategy.py:131-135 | over the bases looked at, a base is selected, with both children and one meta entry each, exactly when both its orders are complete and its exit check fires; the two lists have the same even length |
| Straddles.SelectStraddleExit | pyalgostrategypool/strategy_options_short_straddle_with_target_risk_control/_strategy.py:120-138 | the lists are aligned, with an even length; every meta entry is the base of a mapped bucket child, its two orders are complete and its check fired, and the child beside it is that base's CE or PE leg; conversely every mapped bucket child whose base has both orders complete and a firing check brings that base and both its children into the selection |
| Straddles.EnterBothThenExit | pyalgostrategypool/strategy_options_short_straddle_with_target_risk_control/_strategy.py:78-148 | entering both legs of a flat base and then exiting it exits exactly the two children and restores both books |
| Breach.LowerFormulasAgree | pyalgostrategypool/strategy_options_short_iron_butterfly_with_reentry/_strategy.py:87-138 | the butterfly's lower-side breach and re-entry tests are the condor's, rewritten; an upper re-entry is a lower breach and a lower re-entry an upper breach, measured from the same reference |
| Breach.CheckExit | pyalgostrategypool/strategy_options_long_iron_condor_with_reentry/_strategy.py:133-146 | fails exactly when an enabled offset meets no reference price; otherwise exits exactly when a pending flag is raised, a disabled offset never raises its flag, the reference moves to the current price exactly on exit, and raised flags always have their offset and reference |
| Breach.BreachIsMoveByOffset | pyalgostrategypool/strategy_options_long_iron_condor_with_reentry/_strategy.py:136-144 | with a reference price, the base exits exactly when the price moved up by the upper offset or down by the lower offset, in either file |
| Breach.ReentryFlags | pyalgostrategypool/strategy_options_long_iron_condor_with_reentry/_strategy.py:85-87 | never fails on consistent state; a re-entry flag is raised only while its breach is pending |
| Breach.CondorLegs | pyalgostrategypool/strategy_options_long_iron_condor_with_reentry/_strategy.py:76-80 | the condor's four legs are out of the money: buy and sell a call, then buy and sell a put |
| Breach.ButterflyLegs | pyalgostrategypool/strategy_options_short_iron_butterfly_with_reentry/_strategy.py:75-80 | the butterfly buys the out-of-the-money wings and sells the at-the-money call and put |
| Breach.SelectBreachEntry | pyalgostrategypool/strategy_options_long_iron_condor_with_reentry/_strategy.py:67-108 | never fails on consistent state; enters only bucket bases and none unless both ledgers are empty; keeps the reference; clears both pending flags once a base has been scanned; sets up each suffix's chain at most once per scan, for an entering base |
| Breach.NoPendingEntersAll | pyalgostrategypool/strategy_options_long_iron_condor_with_reentry/_strategy.py:89-103 | with empty ledgers and no breach pending, every base enters and the first one sets up both chains |
| Breach.PendingBreachDelaysOneScan | pyalgostrategypool/strategy_options_long_iron_condor_with_reentry/_strategy.py:94-106 | a pending breach the price has not come back from blocks only the first scan, which clears the flags; the next scan enters |
| Breach.PendingReentryIff | pyalgostrategypool/strategy_options_long_iron_condor_with_reentry/_strategy.py:85-94 | with a breach pending, a base of empty ledgers enters exactly when the price came back by the offset on the side that breached |
| Breach.EnterBreachLeg | pyalgostrategypool/strategy_options_long_iron_condor_with_reentry/_strategy.py:110-131 | the reference becomes the base's price; the strategy stops exactly when the placement failed, after exiting every leg of the base from both ledgers; a placed leg is filed under its key in its suffix's ledger, other legs and other bases untouched |
| Breach.ExitBreachBase | pyalgostrategypool/strategy_options_long_iron_condor_with_reentry/_strategy.py:168-176 | the base is dropped from both ledgers and no other base changes; the exited children are its CE legs then its PE legs |
| Breach.SelectBreachExit | pyalgostrategypool/strategy_options_long_iron_condor_with_reentry/_strategy.py:148-166 | the scan fails exactly when a check fails or a mapped base is missing from either ledger; otherwise the state is the one the checks left, the lists are aligned, a base is exited exactly when its check fired and it has legs, and a child exactly when it is a leg of such a base |
| Breach.BreachCheckOrder | pyalgostrategypool/strategy_options_long_iron_condor_with_reentry/_strategy.py:151-162 | the bases checked are distinct, each a mapped bucket child's base present in both ledgers with every leg complete; the attribute-error flag is raised exactly when a mapped base is missing from a ledger, and otherwise every complete mapped base is checked |
| Breach.Merged | pyalgostrategypool/strategy_options_long_iron_condor_with_reentry/_strategy.py:159 | the two ledgers read as one leg book: a base is in it exactly when it is in both, with its CE legs then its PE legs, which is what the exit takes for a base |
| Breach.DisabledOffsetsNeverExit | pyalgostrategypool/strategy_options_long_iron_condor_with_reentry/_strategy.py:133-146 | with both offsets disabled and every mapped base in both ledgers, the scan succeeds and exits nothing |
| Breach.FourLegsFiledBySuffix | pyalgostrategypool/strategy_options_long_iron_condor_with_reentry/_strategy.py:110-176 | placing the four legs of a flat base files each under its key in its suffix's ledger, and exiting the base restores both ledgers |
| OrderPrices.CoverParams | pyalgostrategypool/strategy_aroon_crossover_cover_order.py:20 | a cover strategy's stop fraction is accepted exactly when strictly between 0 and 1, and kept as given |
| OrderPrices.BracketParams | pyalgostrategypool/strategy_bollinger_bands_bracket_order.py:27-29 | accepted exactly when the stop and target are fractions strictly between 0 and 1 and the trailing factor is positive; kept as given |
| OrderPrices.CoverTrigger | pyalgostrategypool/strategy_reverse_rsi_cover_order.py:78-98 | the trigger loses exactly the LTP times the stop fraction on the order's side; for a positive LTP and an accepted fraction it lies below the LTP exactly for a BUY, and stays positive |
| OrderPrices.Bracket | pyalgostrategypool/strategy_sma_bracket_order.py:62-89 | the bracket is placed at the LTP; its stop loses the stop fraction of the LTP and its target gains the target fraction, on the order's side; the trailing stop is the LTP times its factor |
| OrderPrices.BracketStopLoses | pyalgostrategypool/strategy_williams_percentage_custom_bracket_order.py:76-89 | with a positive LTP and an accepted stop fraction, the stop lies on the losing side of the LTP, and is positive for a BUY |
| OrderPrices.BracketTargetGains | pyalgostrategypool/strategy_williams_percentage_custom_bracket_order.py:77-90 | with a positive LTP and an accepted target fraction, the target lies on the winning side of the LTP, and is positive for a SELL |
| OrderPrices.BracketMirror | pyalgostrategypool/strategy_bollinger_bands_bracket_order.py:84-106 | the SELL bracket's stop and target are the BUY bracket's reflected about the LTP; price and trailing stop are the same |
| OrderPrices.CoverIsBracketStop | pyalgostrategypool/strategy_bollinger_bands_cover_order.py:76-96 | a cover order's trigger is the stop of the bracket with the same stop fraction |
| OrderPrices.PricedEntry | pyalgostrategypool/strategy_open_range_breakout_cover_order.py:100-122 | a BUY or SELL meta places the priced order on that side (a cover order at the LTP with its trigger, or a bracket whose stop and target lose and gain their fractions); any other meta stops the strategy |
| Parameters.PositiveWholeIsPositiveInteger | pyalgostrategypool/bollinger_bands.py:22 | the period assert passes exactly for a positive value with no fractional part, whether an int or a float |
| Parameters.Fetch | pyalgostrategypool/bollinger_bands.py:18-19 | the reads succeed exactly when every key is present, and then give the values in key order; a missing key is a KeyError |
| Parameters.Asserts | pyalgostrategypool/bollinger_bands.py:22-23 | the asserts pass exactly when every value meets its rule, keeping every value; otherwise the constructor stops |
| Parameters.Construct | pyalgostrategypool/strategy_macd_regular_order.py:12-18 | a single-file constructor succeeds exactly when every key is present and meets its rule; any missing key is a KeyError even when an earlier value is bad; with every key present a failure is a failed assert |
| Parameters.BandsParams | pyalgostrategypool/bollinger_bands.py:18-23 | accepted exactly with both keys present and both values positive whole numbers, which become the integer period and deviation count; a missing key is a KeyError, otherwise a failed assert (the same checks as bollinger_bands_v2.py lines 19-24) |
| Parameters.BandsBracketParams | pyalgostrategypool/strategy_bollinger_bands_bracket_order.py:17-29 | accepted exactly with all five keys present, positive whole band parameters and accepted bracket parameters; a missing key is a KeyError; the values are kept (the Williams %R bracket file checks the same five) |
| Parameters.EmaParams | pyalgostrategypool/ema_crossover_v2.py:13-17 | accepted exactly with both periods present and positive whole numbers, kept as integers; a missing key is a KeyError, otherwise a failed assert |
| Parameters.AroonParams | pyalgostrategypool/aaroon_crossover_v2.py:20-22 | accepted exactly with the period present and a positive whole number, kept as an integer |
| Parameters.StochasticParams | pyalgostrategypool/stochastic_crossover.py:21-28 | accepted exactly with the three periods present and positive whole numbers, kept as integers; a missing key is a KeyError |
| Parameters.HeikinAshiParams | pyalgostrategypool/sma_heikin_ashi_crossover.py:19-26 | accepted exactly with both profit-booking distances and the SMA period present and positive whole numbers, kept as positive integers; a missing key is a KeyError |
| Parameters.RsiCoverParams | pyalgostrategypool/strategy_reverse_rsi_cover_order.py:16-26 | accepted exactly with the four keys present, the period and both thresholds positive whole numbers and the stop a fraction strictly between 0 and 1; the values are kept |
| Parameters.FloatPeriods | pyalgostrategypool/bollinger_bands.py:18-23 | a period of 20.0 is accepted as 20; 20.5 and 0 are refused by the assert; a missing key is reported even when the present value is bad |
| Parameters.KeysCounted | pyalgostrategypool/strategy_options_bull_call_spread_with_target_stops_reentry/_strategy.py:46-56 | a dictionary holding n distinct keys has at least n entries |
| Parameters.TargetStopsParams | pyalgostrategypool/strategy_options_bull_call_spread_with_target_stops_reentry/_strategy.py:32-69 | accepted exactly with the five keys present, one allowed expiry, positive integer re-entry limit and strike count and non-negative percentages; a missing key is a KeyError raised before the checks, a wrong expiry count stops the strategy; the entry-count check never refuses |
| Parameters.DiagonalParams | pyalgostrategypool/strategy_options_long_call_diagonal_spread_with_trailing_stoploss/_strategy.py:25-61 | refused whenever the dictionary has fewer than four entries; with none of the four keys it is accepted exactly with at least four entries, on the defaults 4, 4, 15 and 20; with all four it is accepted exactly when the counts are positive integers and the percentages non-negative |
| Parameters.DiagonalDefaultsNeedEntries | pyalgostrategypool/strategy_options_long_call_diagonal_spread_with_trailing_stoploss/_strategy.py:25-54 | an empty dictionary is refused although every parameter has a default, while the four defaults written out are accepted |
| Parameters.OtmParams | pyalgostrategypool/strategy_short_straddle_otm_regular_order.py:18-47 | fewer than six entries is an argument error; a missing key a KeyError; accepted exactly with every key, positive integer day, month, year, hour and minute, positive stop points, an existing date and a time of day; a date or time that does not exist stops the strategy; an accepted dictionary has all seven keys |
| Parameters.OnTheHourRefused | pyalgostrategypool/strategy_short_straddle_otm_regular_order.py:33 | a start minute of 0 is always refused as a bad argument, so the candle cannot start on the hour |
| Parameters.TrailingSpreadParams | pyalgostrategypool/strategy_options_bull_call_spread_with_stoploss/_strategy.py:20-40 | a missing key is a KeyError; with the keys, a wrong expiry count stops the strategy; accepted exactly with one expiry date and a non-negative re-entry count and trailing percentage (the strike count is not checked, and the two-entry count never rejects once three keys were read); the trailing re-entry file reads its own key names (lines 28-48) |
| Parameters.Strikes | pyalgostrategypool/strategy_options_long_iron_condor_with_reentry/_strategy.py:25-28 | each strike count is read with its default; accepted exactly when every one is a positive int, and then the counts are kept in order |
| Parameters.BreachParams | pyalgostrategypool/strategy_options_long_iron_condor_with_reentry/_strategy.py:25-57 | a wrong expiry count stops the strategy, every other failure is an argument error; accepted exactly with one expiry date, non-negative enabled offsets, positive int strike counts and both ALLOW flags the int 0 or 1; an accepted offset is present exactly when its flag is 1 and is the one the breach check reads; the short iron butterfly has two strike counts (lines 24-55) |
| Parameters.BreachDefaults | pyalgostrategypool/strategy_options_short_iron_butterfly_with_reentry/_strategy.py:24-29 | an empty dictionary gives the default strike counts (1, 3, 1, 3 for the condor, 2, 2 for the butterfly) and no breach offsets; a float flag 1.0 enables the offset when read but is refused by the flag check |
| Parameters.CallButterflyParams | pyalgostrategypool/strategy_options_short_call_butterfly_with_price_exits_and_reentry/_strategy.py:24-57 | with no expiry check, accepted exactly with non-negative enabled offsets, target and stoploss, positive int strike counts, flags that are the int 0 or 1 and a non-negative int re-entry limit; every failure is an argument error; the accepted values are the exit parameters, strikes and limit the strategy keeps |
| Parameters.CallButterflyDefaults | pyalgostrategypool/strategy_options_short_call_butterfly_with_price_exits_and_reentry/_strategy.py:24-34 | an empty dictionary gives a 10% stoploss, 20% target, two strikes on each wing, one re-entry and no price exits; a float re-entry limit is refused |

## Left out

- Indicator libraries: talib (EMA, SMA, MACD, RSI, STOCH, AROON, BBANDS, ATR, OBV, SAR), VWAP, Heikin-Ashi, the Greek calculator and `utils.crossover` are foreign code. Their outputs (crossover codes, band, ATR, OBV and delta values) are parameters of the model.
- Broker and host I/O are modelled as values:
  - order placement, `get_ltp`, historical-data fetches and order status become parameters (a placed order, an LTP function, a status);
  - `cancel_order` and `exit_position` become the children an operation returns for exit;
  - the instruments mapper becomes a `map` from child to base;
  - the order tag manager becomes a `map` from base to order.
- Instrument-master handling of `strategy_short_straddle_otm_regular_order.py`: the pandas reindexing, the broker-specific branch and subscriptions are not modelled. Only the nearest-strike rule is, over a list of (strike, CE, PE) rows given as input.
- Options set-up and expiry resolution: `options_instruments_set_up_all_expiries`, `get_child_instrument_details` and `get_allowed_expiry_dates` are external. A child instrument is an opaque value, and the expiry check is the count of allowed dates.
- Clocks and time parsing: the current time and candle timestamps are inputs. `datetime.strptime` becomes the hour/minute range check.
- Logging is not modelled, except that the upper-breach log line of the short call butterfly (line 140) reads an attribute the file never defines; that failure is modelled and listed under "## Findings".
- Floating point: prices are exact reals, so IEEE rounding is not modelled. NaN from indicator warm-up is not modelled either; the one place the model keeps a NaN is the put/call ratio of zero totals.
- Several multi-leg files keep one shared field rather than one per base. The model threads that shared state through the exit scan in bucket order (`OptionLegs.RunChecks`); the per-base alternative is `OptionLegs.PerBase`. Concurrent callbacks interleaving on the shared field are not modelled.
- `strategy_options_short_straddle_with_sl_Intraday/_strategy.py` only sets parameter values and delegates to a base class not in this model, so it has no logic of its own to model.
- `stochastic_crossover_v2.py:56` compares the order's transaction type with the strings "SELL" and "BUY". The enum type it holds is not part of this model, so the comparison is read as the intended side test.
- The put/call-ratio strategy takes the first key of its option-chain dictionary (`next(iter(...))`). The model has one chain per base.
- `utils.func` is not part of this model. `check_argument` is read as raising on a failed check; `is_positive_int` as an int above 0; `is_nonnegative_int`, `is_positive_int_or_float` and `is_nonnegative_int_or_float` as the names say. Parameter values are Python ints or floats only; strings, booleans and `None` from the YAML file are not modelled.
- Parameters.BreachParams: an offset is checked only when its flag enables it. The breach files also pass a disabled offset (`None`) to `is_nonnegative_int_or_float`, whose handling of `None` is in `utils.func`. The same holds for Parameters.CallButterflyParams.
- Parameters.TrailingSpreadParams: the constructor keeps the strike count as given, because no check is made of it.
- The opening-range strategies never clear their day flags in the files shown, so the model never clears them either. The host's day rollover is not modelled.
- The EMA options-buying variant sets its map entry to `None` on exit rather than deleting it. The model deletes the entry, because every reader treats `None` and absence alike.
- OtmStraddle.SelectOtmExit: the contract states only what a scan leaves untouched. Which contracts exit is stated per contract by `OtmStraddle.ProfitCheck` and `OtmStraddle.StoplossCancelsOtherSide`.
- OtmStraddle.ScanContracts: frame-only contract, for the same reason.
- OtmStraddle.ScanContract: frame-only contract, for the same reason.
- MultiLeg.ExitLegs: the strategies define no exit, so the contract says only that nothing is selected.
- MultiLeg.SelectLegs: a KeyError from an unknown code returns `Err` without the updated done list. The source has already marked those bases done when it raises.
- OptionLegs.ExitBase: a base with no leg book exits no children. The stoploss (line 137), target-stops (line 151) and trailing (line 101) spread files would raise AttributeError there.
- SpreadLevels.CheckTargetStops: the contract states only the reset on exit. The ratchet and the exit conditions are stated by `SpreadLevels.TargetStopsRatchet` and `SpreadLevels.TargetStopsKeepsConsistent`.
- SpreadLevels.CheckDiagonal: the contract states only the reset on exit. The behaviour is stated by `SpreadLevels.DiagonalExitIff`.
- SpreadLevels.CheckDiagonalFixed: the contract states only the reset on exit. The behaviour is stated by `SpreadLevels.DiagonalFixedStopNeverFalls`.
- Spreads.SelectSpreadExitAsWritten: the contract states only that every meta names a ready, checked base. Which bases fire is stated by `Spreads.SelectSpreadExitBy`, and the misalignment is exhibited by `Spreads.ExitMetaMisaligned`.
- CrossoverStrategies.EnterByCall: what the broker does with a call whose slots hold the wrong values is not modelled, because the broker is foreign code. The model reports a refused placement; the source files whatever the broker returns under the instrument.
- CrossoverStrategies.ProfitOrder: prices only. The `profit_order` dictionary the order is filed in is not modelled, because the file writes it (lines 135 and 140) but never reads it.

## Findings

| source | as written | input that shows it | evidently intended | confidence | as-written member | corrected member |
|---|---|---|---|---|---|---|
| pyalgostrategypool/ema_crossover_compact.py:43 | `OrderRegular(meta['action'], INTRADAY, MARKET, quantity)` puts the action in the instrument slot, INTRADAY in the transaction-type slot and MARKET in the order-code slot | crossover 1 on instrument X: the broker is asked for instrument "BUY" with transaction type INTRADAY, and the reply is filed under X | `OrderRegular(instrument, meta['action'], ...)`, as the other crossover files call it | not executed | CrossoverStrategies.CompactAsWrittenNeverEnters | CrossoverStrategies.RegularCallEnters |
| pyalgostrategypool/strategy_options_bull_call_spread_with_target_stops_reentry/_strategy.py:234-236 | the EXIT meta list is extended by the number of bases in the order dictionary, while the child list gets one entry per leg | one base with two complete legs whose check fires: two children, one meta | one EXIT meta per selected child | not executed | Spreads.ExitMetaMisaligned | Spreads.SelectSpreadExit |
| pyalgostrategypool/bollinger_bands.py:131-153 | enter accepts only EXIT_BUY / EXIT_SELL, but entry selection emits ENTRY_BUY / ENTRY_SELL | any selected entry | ENTRY_BUY places a BUY, ENTRY_SELL a SELL | not executed | Bands.BollingerEntriesRaise | Bands.BollingerEntriesRecorded |
| pyalgostrategypool/strategy_options_put_call_ratio_intraday/_strategy.py:94-95 | `itm[-n:]` with n = 0 is the whole ITM list | ITM ["C90", "C95"], ATM "C100", zero strikes: window of three strikes | the ATM strike alone | not executed | Pcr.ZeroStrikeWindow | Pcr.Window |
| pyalgostrategypool/strategy_options_short_call_butterfly_with_price_exits_and_reentry/_strategy.py:95-98 | the re-entry counter is reset to the limit whenever it is falsy, including at 0 | any limit: after limit+1 scans the counter is back at the limit | set the counter only when missing, so it runs out | not executed | CallButterfly.AsWrittenNeverExhausted | CallButterfly.FixedCounterRunsOut |
| pyalgostrategypool/strategy_short_straddle_otm_regular_order.py:251-262 | the stoploss step looks the main order up by base, but main orders are filed by contract | base "B" entering contract "C" with a completed main order: no stoploss placed | look the main order up by contract | not executed | OtmStraddle.StoplossLookedUpUnderBase | OtmStraddle.EnterOtm |
| pyalgostrategypool/strategy_bollinger_bands_bracket_order.py:63-79 | entry selection takes an instrument only when it already holds an order | empty ledger: stays empty on every candle | enter when no order is held, as the cover-order file does | not executed | Bands.BracketAsWrittenNeverEnters | Bands.BracketEnters |
| pyalgostrategypool/strategy_options_bull_call_spread_with_target_stops_reentry/_strategy.py:174-182 | the re-entry count is incremented in a local copy only | a flat base under the limit is entered on every scan, however many | store the count so entries stop at the limit | not executed | Spreads.LocalOnlyNeverExhausts | Spreads.StoredBoundsEntries |
| pyalgostrategypool/aaroon_crossover_v2.py:126-145 | exits are tagged 'EXIT' but exit accepts only EXIT_BUY / EXIT_SELL | any selected exit: the ledger is unchanged | the exit clears the order | not executed | CrossoverStrategies.AroonV2NeverExits | CrossoverStrategies.AroonV2Exits |
| obv_breakout/_strategy.py:57-73 | the last smoothed OBV is compared with a maximum (minimum) over a window that contains it | every history: no signal | compare with the previous N values only | not executed | ObvBreakout.AsWrittenNeverSignals | ObvBreakout.SignalCanBuy |
| pyalgostrategypool/strategy_mean_reversion_bollinger_bands_delivery/_strategy.py:72-83 | the exit decision is overwritten with `None` | any held order: kept forever | exit on the opposing signal | not executed | Bands.ReversionDeliveryAsWrittenHolds | Bands.ReversionDeliveryTurnsOver |
| pyalgostrategypool/strategy_options_bull_call_spread_with_target_stops_reentry/_strategy.py:110-144 | target and stoploss exits clear the entry spread but not the trailing high and stop | entry 10, trail 10%: high 14 then target exit; the next position entered at 10 exits at 11 | every exit clears the trail too | not executed | SpreadLevels.TargetStopsInheritsTrail | SpreadLevels.FixedFreshPositionIgnoresOldTrail |
| pyalgostrategypool/strategy_options_long_call_diagonal_spread_with_trailing_stoploss/_strategy.py:104-120 | every new high re-derives the stop from the trail percentage, with no activation threshold | entry 10, stop 15%, trail 20%: a high of 10.1 moves the stop from 8.5 to 8.08 | trail only once the trailing stop exceeds the stop, so it never falls | not executed | SpreadLevels.DiagonalStopCanFall | SpreadLevels.DiagonalFixedStopNeverFalls |
| pyalgostrategypool/strategy_options_short_call_butterfly_with_price_exits_and_reentry/_strategy.py:146-150 | when any base holds an entry premium, a new base stores the whole dictionary as its premium | BANKNIFTY holding 5.0, first check of NIFTY: the band arithmetic fails | store the new base's own premium | not executed | CallButterfly.PremiumDictionaryStored | CallButterfly.FixedBandHolds |
| pyalgostrategypool/strategy_options_short_call_butterfly_with_price_exits_and_reentry/_strategy.py:139-140 | the upper-breach log line reads `self.flag_upper_breach_possible`, which the file never defines, so the breach raises AttributeError | reference 100, upper offset 50, price 160 | exit and move the reference to 160 | not executed | CallButterfly.BreachRaisesAsWritten | CallButterfly.CheckCbExit |
| pyalgostrategypool/strategy_options_bull_call_spread_with_stoploss/_strategy.py:148-186 | the trailing levels are one record shared by all bases | NIFTY entry spread 10 now 10, BANKNIFTY entry 6 now 5, trail 20%: BANKNIFTY exits on NIFTY's stop of 8 | one record of levels per base | not executed | Spreads.SharedLevelsCrossBases | OptionLegs.PerBaseIndependent |
