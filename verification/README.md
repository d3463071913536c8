# Ramon trading bridge: a verified model

A model in Dafny of the decision pipeline, command protocol, ingestion and learning parts of the Ramon
AI trader, with proofs of the properties they are relied on for. `dafny verify dfyconfig.toml` checks it.

## What is modelled

- **Detector** (`Indicators`, `Averages`, `IndicatorLaws`, `Regime`, `Detector`, `DetectorMirror`,
  `DetectorLaws`, `PullbackLaws`, `ScoreLaws`, `VerdictLaws`).
  The indicator loops are methods proved against recursive definitions; the detector's verdict is a
  function of the series. No look-ahead and the long/short mirror are relational theorems over all
  series. Prices are reals, an undefined reading is `None`, and a raised exception is the verdict
  `Raised`.
- **Memory** (`OrderedMemory`, `SignalHistory`, `ForecastCache`). The recency-ordered dictionaries with
  eviction, release and refresh, refined against unbounded histories.
- **Stages** (`EntryTiming`, `TimingLaws`, `RiskSizing`, `RiskLaws`, `RiskGates`, `Ledger`,
  `LedgerLimits`, `SignalVisits`, `Pipeline`, `PipelineLaws`, `SignalReopened`, `SignalExample`). The gates
  in order, the structural stop, sizing down to the step, the open-risk charge and the portfolio limit,
  and the composition that gives a deferred signal back.
- **Command protocol** (`Commands`, `CommandLifecycle`, `CommandAnswers`, `Protocol`, `ProtocolLaws`).
  The command table, the EA, a channel that loses and repeats, restarts, and a broker, as a transition system over all interleavings.
- **Ingestion** (`Candles`, `Ingestion`, `CandleIntake`, `Telemetry`, `TelemetryLaws`). At-least-once
  delivery with crashes, candle normalisation, the insert-if-absent candle table
  with its retention, daily baselines.
- **Learning and text** (`Learning`, `Statistics`, `StatisticsLaws`, `JsonScan`, `JsonLaws`). Outcome
  storage, the one-pass statistics, the Wilson interval, and the EA's JSON escape and scan loops.
- **Thresholds** (`Thresholds`, `ThresholdLaws`, `ThresholdFailures`). The editable values, their
  validation, what they build and where they make an evaluation fail.

Clocks, quotes, the broker's answers, permissions and the digest function are parameters. Floating point
numbers are reals; rounding is modelled where a decision depends on it (8 digits in sizing, 5 digits of
a setup's invalidation price and range, floor to the volume step).

## What the proofs found

- At bar 2 * adx_period - 1 the average directional index does depend on a later bar: its length guard
  yields a value only once one more bar exists. `IndicatorLaws.AdxCausalExactly` shows this is the only bar.
- An evaluation can divide by zero: a zero average range at t - regime_lookback, a zero median range,
  adx_ranging of 35, or a ratio limit of 0.8 or 1.6 on its side (`DetectorLaws.RaisesExactly`). The
  editable thresholds admit all three constants (`ThresholdFailures.DivisorsAreAccepted`), and with 35 every
  series of real candles fails (`ThresholdFailures.ThirtyFiveAlwaysRaises`). Above 35 the strength component
  falls as strength rises.
- A signal that was approved is taken up again on another bar exactly when its own bar is evaluated once
  more and deferred, for example on a wider spread (`Pipeline.SignalTakenAgainExactly`,
  `SignalReopened.WideQuoteReopens`, `SignalExample.SignalTradedTwice`).
- A setup whose average range is at most 0.000005 is found by the detector and refused as invalid by the
  timing stage, because the range is rounded to 5 digits in between (`PipelineLaws.DetectorSetupsInvalidExactly`).
- Approvals that overlap before a fill can exceed the portfolio limit (`Ledger.OverlapExceedsLimit`), because
  the sizer sees the open positions only. They can do so exactly when the open and pending risk leaves no
  room for what the sizer would budget (`LedgerLimits.ApprovalSafeExactly`); at the default 0.5 and 2.0
  percent there is room while at most 1.5 percent is committed.
- A position reported without tick facts, as the command EA reports it, blocks all trading
  (`Ledger.UnaccountedPositionBlocks`).
- The demo defaults let timing approve entries that sizing then refuses as too tight (`ThresholdLaws.DefaultRoom`,
  `RiskLaws.TooTightReachable`); the standard defaults do not (`ThresholdLaws.StandardNeverTooTight`).
- Retention breaks "a replayed request inserts nothing": it inserts the rows deleted since
  (`TelemetryLaws.ReplayInsertsExactly`).
- The limit of 2048 candles per request can never apply: four sets of 512 reach it exactly (`CandleIntake.SetsExactly`).
- The EA's duplicate-id branch is dead code as long as the server claims each command once (`Protocol.DuplicateBranchUnreachable`).
- Where documentation and code disagree the model follows the code: `backend/django_bridge/ea_bridge/tests.py:319-390`
  describes candle stamps that snap to a boundary; `backend/django_bridge/ea_bridge/telemetry.py:77-90` refuses them.

## Model

| member | source | states |
|---|---|---|
| `Indicators.Ema` | backend/django_bridge/ramon_pipeline/signalflow/opportunities.py:327-332 | The loop returns the exponential average of the whole series, each value the recursive definition at its index. |
| `Indicators.TrueRange` | backend/django_bridge/ramon_pipeline/signalflow/opportunities.py:335-339 | The loop returns, bar by bar, the largest of the three ranges; the first bar has only its own range. |
| `Indicators.Atr` | backend/django_bridge/ramon_pipeline/signalflow/opportunities.py:342-351 | The loop returns Wilder's average range: undefined before the seed, the mean at the seed, the recurrence after it. |
| `Indicators.Rsi` | backend/django_bridge/ramon_pipeline/signalflow/opportunities.py:360-376 | The two running averages of gains and losses give the relative strength index at every bar, undefined before the seed. |
| `Indicators.DirectionalMovement` | backend/django_bridge/ramon_pipeline/signalflow/opportunities.py:379-391 | Plus and minus directional movement: neither is negative, and at most one is positive per bar. |
| `Indicators.Dx` | backend/django_bridge/ramon_pipeline/signalflow/opportunities.py:392-403 | The three smoothed sums give the directional index of every bar from the period on. |
| `Indicators.Adx` | backend/django_bridge/ramon_pipeline/signalflow/opportunities.py:379-412 | The average of the directional index, undefined on short series and before bar 2 * period - 1. |
| `Indicators.Pivots` | backend/django_bridge/ramon_pipeline/signalflow/opportunities.py:415-431 | The two lists hold, in order, exactly the fractal highs and lows with a full window on both sides. |
| `Indicators.SwingHighsExact` | backend/django_bridge/ramon_pipeline/signalflow/opportunities.py:415-431 | A bar is listed if and only if it exceeds every earlier bar of its window and is not exceeded by a later one; the list increases strictly. |
| `Indicators.SwingLowsExact` | backend/django_bridge/ramon_pipeline/signalflow/opportunities.py:415-431 | The same for lows. |
| `Indicators.WilderBounds` | backend/django_bridge/ramon_pipeline/signalflow/opportunities.py:342-351 | A Wilder average stays within the bounds of what it averages. |
| `Averages.EmaWeights` | backend/django_bridge/ramon_pipeline/signalflow/opportunities.py:327-332 | In closed form: bar j weighs alpha (1 - alpha)^(i-j) in the exponential average at bar i, the first bar the rest. |
| `Averages.WilderWeights` | backend/django_bridge/ramon_pipeline/signalflow/opportunities.py:342-351 | In closed form: bar j weighs (1/p) ((p-1)/p)^(i-j) in the average at bar i, the seed mean the rest. |
| `Averages.SmoothWeights` | backend/django_bridge/ramon_pipeline/signalflow/opportunities.py:391-399 | In closed form: bar j weighs ((p-1)/p)^(i-j) in the running sums of the directional index. |
| `Averages.RsiIsGainShare` | backend/django_bridge/ramon_pipeline/signalflow/opportunities.py:354-357 | Away from the flat case the index is 100 times the gains' share of all movement. |
| `IndicatorLaws.EmaCausal` | backend/django_bridge/ramon_pipeline/signalflow/opportunities.py:327-332 | The value at t is the same on the series cut at t. |
| `IndicatorLaws.AtrCausal` | backend/django_bridge/ramon_pipeline/signalflow/opportunities.py:335-351 | The value at t is the same on the series cut at t. |
| `IndicatorLaws.RsiCausal` | backend/django_bridge/ramon_pipeline/signalflow/opportunities.py:360-376 | The value at t is the same on the series cut at t. |
| `IndicatorLaws.AdxCausalExactly` | backend/django_bridge/ramon_pipeline/signalflow/opportunities.py:379-412 | The value at t agrees with the series cut at t exactly when t is not 2 * period - 1 or the series ends there: at that one bar the length guard makes a value appear that the cut series does not have. |
| `IndicatorLaws.AdxCausalAfter` | backend/django_bridge/ramon_pipeline/signalflow/opportunities.py:379-412 | From bar 2 * period on the value never depends on later bars. |
| `IndicatorLaws.SwingHighsCausal` | backend/django_bridge/ramon_pipeline/signalflow/opportunities.py:415-431 | The highs confirmed by t are the same on the series cut at t. |
| `IndicatorLaws.SwingLowsCausal` | backend/django_bridge/ramon_pipeline/signalflow/opportunities.py:415-431 | The lows confirmed by t are the same on the series cut at t. |
| `IndicatorLaws.RsiReflect` | backend/django_bridge/ramon_pipeline/signalflow/opportunities.py:354-376 | Reflecting every price turns the index r into 100 - r, the saturated and the flat case included. |
| `IndicatorLaws.AdxReflect` | backend/django_bridge/ramon_pipeline/signalflow/opportunities.py:379-412 | Reflection swaps the two directional movements and leaves ranges and the index unchanged. |
| `IndicatorLaws.SwingsReflect` | backend/django_bridge/ramon_pipeline/signalflow/opportunities.py:415-431 | Reflection turns swing lows into swing highs. |
| `IndicatorLaws.RsiRange` | backend/django_bridge/ramon_pipeline/signalflow/opportunities.py:354-376 | Every defined value lies in [0, 100]. |
| `IndicatorLaws.AdxRange` | backend/django_bridge/ramon_pipeline/signalflow/opportunities.py:379-412 | Every defined value lies in [0, 100]. |
| `IndicatorLaws.TrueRangeIsExtent` | backend/django_bridge/ramon_pipeline/signalflow/opportunities.py:335-339 | The true range is the extent of the bar together with the previous close. |
| `IndicatorLaws.GainAndLossSplit` | backend/django_bridge/ramon_pipeline/signalflow/opportunities.py:365-375 | Gain less loss is the change of the close; neither is negative and at most one is positive. |
| `IndicatorLaws.MovementExactly` | backend/django_bridge/ramon_pipeline/signalflow/opportunities.py:387-390 | Directional movement is the larger of the rise of the high and the fall of the low, counted for that side alone; equal ones count for neither. |
| `IndicatorLaws.DxIsImbalance` | backend/django_bridge/ramon_pipeline/signalflow/opportunities.py:395-405 | The directional index is 100 times the imbalance of the two smoothed movements, whatever their range; no movement is no imbalance. |
| `Regime.ComputeIndicators` | backend/django_bridge/ramon_pipeline/signalflow/opportunities.py:434-449 | All indicator lists together equal their definitions on the series. |
| `Regime.IndicationCausal` | backend/django_bridge/ramon_pipeline/signalflow/opportunities.py:434-449 | From bar 2 * adx_period on, every indicator reading up to t equals that of the series cut at t. |
| `Regime.RegimeCausal` | backend/django_bridge/ramon_pipeline/signalflow/opportunities.py:452-495 | The regime of bar s is the same computed on the full series and on the series cut at any t from s on: no look-ahead. |
| `Regime.IndicationMirror` | backend/django_bridge/ramon_pipeline/signalflow/opportunities.py:434-449 | Reflection mirrors the averages, turns r into 100 - r, keeps ranges and trend strength, and swaps the pivot lists. |
| `Regime.RegimeMirror` | backend/django_bridge/ramon_pipeline/signalflow/opportunities.py:452-495 | Reflecting every price swaps bullish and bearish in bias, structure and label, negates separation and slope, and keeps the strength. |
| `Regime.DirectionalLabelExactly` | backend/django_bridge/ramon_pipeline/signalflow/opportunities.py:466-495 | The label is bullish exactly when averages, close, slope, structure and strength all agree, said in prices; bearish exactly when the negated prices are bullish. |
| `Regime.RegimeLabelsExactly` | backend/django_bridge/ramon_pipeline/signalflow/opportunities.py:466-495 | All four labels and the bias in prices: without a direction the market ranges when the trend is weak, or when neither averages nor structure lean and the trend is not strong, and is uncertain otherwise. |
| `Regime.StructureExactly` | backend/django_bridge/ramon_pipeline/signalflow/opportunities.py:452-463 | The structure rises or falls when the last confirmed swing high and low both do, is mixed otherwise, and unknown before there are two of each. |
| `Detector.FindBreakout` | backend/django_bridge/ramon_pipeline/signalflow/opportunities.py:1164-1206 | The nested search loops return the newest breakout bar with its first retest, as the specification of the search does. |
| `Detector.FindBreakoutAt` | backend/django_bridge/ramon_pipeline/signalflow/opportunities.py:1173-1204 | The body of the outer loop: one bar as a breakout, with its first retest. |
| `Detector.FindRetest` | backend/django_bridge/ramon_pipeline/signalflow/opportunities.py:1184-1204 | The inner loop returns the first bar that retests the level. |
| `Detector.BreakoutSearchExact` | backend/django_bridge/ramon_pipeline/signalflow/opportunities.py:1164-1206 | The result is a confirmed breakout and retest, no later breakout is confirmed, no earlier retest of it is; none is returned only when no pair is confirmed. |
| `Detector.FirstRetestExact` | backend/django_bridge/ramon_pipeline/signalflow/opportunities.py:1184-1204 | The first bar within the age limit that meets all four retest conditions, or none when no bar does. |
| `Detector.SearchBreakoutInRange` | backend/django_bridge/ramon_pipeline/signalflow/opportunities.py:1171-1176 | Every index the search returns lies inside the series, breakout before retest before the current bar. |
| `PullbackLaws.PullbackReadyExactly` | backend/django_bridge/ramon_pipeline/signalflow/opportunities.py:1308-1386 | The pullback is ready on a swing high and with an extreme if and only if those are the high and the low of its leg and an unordered set of conditions on bars holds: impulse, depth, support, distance to the fast average, age, resumption. |
| `PullbackLaws.PullbackRefusedExactly` | backend/django_bridge/ramon_pipeline/signalflow/opportunities.py:1308-1386 | Otherwise there is no leg, or status and reason are those of the first condition that fails. |
| `PullbackLaws.LegExactly` | backend/django_bridge/ramon_pipeline/signalflow/opportunities.py:1321-1337 | The measured leg ends at the last swing high and starts at the swing low before it, or at the lowest bar since the swing high before it; there is none exactly when one of the two is missing. |
| `VerdictLaws.SearchExactly` | backend/django_bridge/ramon_pipeline/signalflow/opportunities.py:1164-1206 | The breakout chosen is the newest recent one that is confirmed, with its oldest retest, in prices; none is chosen exactly when none is confirmed. |
| `VerdictLaws.FoundExactly` | backend/django_bridge/ramon_pipeline/signalflow/opportunities.py:975-1475 | The detector finds a setup with a score if and only if everything reads, the gates pass, and the regime's side offers that setup, its chosen breakout or else its ready pullback, with those components, within the momentum and score limits. |
| `VerdictLaws.VerdictExactly` | backend/django_bridge/ramon_pipeline/signalflow/opportunities.py:975-1475 | Every other verdict: which gate or condition fails first decides status, reason and candidate side. |
| `ScoreLaws.ScoreWeights` | backend/django_bridge/ramon_pipeline/signalflow/opportunities.py:56-581 | The five weights of the score. |
| `ScoreLaws.TrendExactly` | backend/django_bridge/ramon_pipeline/signalflow/opportunities.py:544-549 | Where the trend component is full, where it is lost, and that it changes in proportion between. |
| `ScoreLaws.StrengthExactly` | backend/django_bridge/ramon_pipeline/signalflow/opportunities.py:552-553 | The strength component is lost at the ranging threshold, full at 35, linear between. |
| `ScoreLaws.VolatilityExactly` | backend/django_bridge/ramon_pipeline/signalflow/opportunities.py:556-561 | The volatility component is full between 0.8 and 1.6, lost at the limits, linear between. |
| `ScoreLaws.PullbackExactly` | backend/django_bridge/ramon_pipeline/signalflow/opportunities.py:564-567 | The pullback component is full exactly at half the impulse on the fast average, and what each distance costs. |
| `ScoreLaws.MomentumExactly` | backend/django_bridge/ramon_pipeline/signalflow/opportunities.py:570-577 | Where the momentum component is full and where it is lost. |
| `ScoreLaws.MedianExactly` | backend/django_bridge/ramon_pipeline/signalflow/opportunities.py:1003-1004 | The baseline is the middle of an ascending rearrangement of the values. |
| `ScoreLaws.DefinedExactly` | backend/django_bridge/ramon_pipeline/signalflow/opportunities.py:1003 | The values it is taken of are the defined ones, each as often as it occurs. |
| `ScoreLaws.NewestExactly` | backend/django_bridge/ramon_pipeline/signalflow/opportunities.py:1003 | And they are the newest ones of the list. |
| `DetectorMirror.TechnicalMirror` | backend/django_bridge/ramon_pipeline/signalflow/opportunities.py:1091-1475 | For every series, configuration and axis: the reflected series gives the same status, reason and score with the opposite side and reflected reference and invalidation prices. |
| `DetectorMirror.SearchShift` | backend/django_bridge/ramon_pipeline/signalflow/opportunities.py:1164-1206 | Shifting every oriented price by a constant shifts the found level and keeps the bars. |
| `DetectorMirror.PullbackShift` | backend/django_bridge/ramon_pipeline/signalflow/opportunities.py:1321-1395 | The same for the pullback geometry. |
| `DetectorLaws.ScoresInUnit` | backend/django_bridge/ramon_pipeline/signalflow/opportunities.py:544-585 | Every score an evaluation reports lies in [0, 1]. |
| `DetectorLaws.StrengthMonotoneExactly` | backend/django_bridge/ramon_pipeline/signalflow/opportunities.py:552-553 | More trend strength never lowers the strength component exactly when adx_ranging is below 35. |
| `DetectorLaws.RegimeDefinedExactly` | backend/django_bridge/ramon_pipeline/signalflow/opportunities.py:466-495 | Classification fails exactly when the average range at that bar is zero. |
| `DetectorLaws.ContextDefinedExactly` | backend/django_bridge/ramon_pipeline/signalflow/opportunities.py:983-1006 | The shared readings fail exactly on the listed divisions by zero. |
| `DetectorLaws.RaisesExactly` | backend/django_bridge/ramon_pipeline/signalflow/opportunities.py:975-1475 | With enough history an evaluation raises if and only if one of the listed divisions by zero occurs: no index out of range, no undefined reading. |
| `DetectorLaws.FoundIsProtective` | backend/django_bridge/ramon_pipeline/signalflow/opportunities.py:1192-1257 | Every setup found has its invalidation strictly on the protective side of its reference, a positive range, and its own bar as reference. |
| `DetectorLaws.FoundPassedGates` | backend/django_bridge/ramon_pipeline/signalflow/opportunities.py:975-1475 | A found setup is in the direction of the current regime, not against the earlier one, within the volatility limits, not overextended, and scored at least the minimum. |
| `DetectorLaws.FoundAtExtreme` | backend/django_bridge/ramon_pipeline/signalflow/opportunities.py:1192-1257 | The invalidation price of every setup found is the low or high of one of the series' own bars. |
| `SignalHistory.SignalStore.Accept` | backend/django_bridge/ramon_pipeline/signalflow/opportunities.py:1236-1279 | Accepting moves the key to the end with this bar and drops the oldest beyond 512. |
| `SignalHistory.SignalStore.Release` | backend/django_bridge/ramon_pipeline/signalflow/opportunities.py:814-827 | Releasing removes the key only if it is held with the named bar, and reports whether it did. |
| `SignalHistory.MemoryRefinesHistory` | backend/django_bridge/ramon_pipeline/signalflow/opportunities.py:1236-1279 | Over every run the bounded memory holds at most 512 distinct keys, in order of last acceptance, each with its latest bar, and lacks a live key only after 512 other keys followed it. |
| `SignalHistory.RecentSignalIsKnown` | backend/django_bridge/ramon_pipeline/signalflow/opportunities.py:1405-1452 | A key accepted and not released since is still known while fewer than 512 other keys were accepted after it. |
| `SignalHistory.KnownSignalIsLive` | backend/django_bridge/ramon_pipeline/signalflow/opportunities.py:1405-1452 | A known key was accepted, with that bar, and not released since. |
| `SignalHistory.EvictionExactly` | backend/django_bridge/ramon_pipeline/signalflow/opportunities.py:1276-1279 | In runs of acceptances a key is forgotten exactly when 512 other distinct keys were accepted after it. |
| `ForecastCache.Cache.Forecast` | backend/django_bridge/ramon_pipeline/signalflow/opportunities.py:688-709 | One lookup: a hit refreshes and answers from the cache, a miss stores the computed result and drops the oldest beyond 16. |
| `ForecastCache.EntriesAreFresh` | backend/django_bridge/ramon_pipeline/signalflow/opportunities.py:688-709 | Every entry is the result of some earlier request with that key; at most 16 are held. |
| `ForecastCache.CacheIsTransparent` | backend/django_bridge/ramon_pipeline/signalflow/opportunities.py:688-709 | When computations are deterministic per key, every answer equals a fresh computation, failures included. |
| `ForecastCache.CacheHoldsNewest` | backend/django_bridge/ramon_pipeline/signalflow/opportunities.py:688-709 | And then the cache is exactly the 16 most recently requested keys with their results, hits and misses alike. |
| `EntryTiming.ApprovalLeavesRoom` | backend/django_bridge/ramon_pipeline/signalflow/entry_timing.py:220-300 | An approval with a required quote means: a sound setup, a valid quote, the exit side not through the invalidation, and at least the configured room to it at the entry price. |
| `EntryTiming.ApprovalExactly` | backend/django_bridge/ramon_pipeline/signalflow/entry_timing.py:220-332 | With a valid required quote, approval is equivalent to one unordered set of conditions on prices, spread, age and quality. |
| `EntryTiming.ComputedQualityRange` | backend/django_bridge/ramon_pipeline/signalflow/entry_timing.py:304-317 | The computed quality of a trade behind the gates is above three eighths and at most one. |
| `EntryTiming.ComputedQualityMonotone` | backend/django_bridge/ramon_pipeline/signalflow/entry_timing.py:309-314 | A fresher signal, a smaller spread and a smaller chase never lower the computed quality. |
| `TimingLaws.DeferralExactly` | backend/django_bridge/ramon_pipeline/signalflow/entry_timing.py:220-332 | On a quote the stage defers if and only if the spread in points is too wide, or spread and age pass, the exit side is beyond the invalidation, the room suffices, and chase, spread or quality fails. |
| `TimingLaws.QuotedExactly` | backend/django_bridge/ramon_pipeline/signalflow/entry_timing.py:220-332 | On a quote the first failing condition, in prices, decides status and reason, and the entry price is reported. |
| `TimingLaws.UnquotedExactly` | backend/django_bridge/ramon_pipeline/signalflow/entry_timing.py:220-332 | The same without a quote, where none is required. |
| `TimingLaws.UnreadableExactly` | backend/django_bridge/ramon_pipeline/signalflow/entry_timing.py:195-230 | Setups that do not read, broken quotes and missing required ones are rejected, and nothing else is for those reasons. |
| `TimingLaws.AgeExactly` | backend/django_bridge/ramon_pipeline/signalflow/entry_timing.py:367-388 | The age is the number of bar lengths between the signal's bar and the newest one. |
| `TimingLaws.QualityCosts` | backend/django_bridge/ramon_pipeline/signalflow/entry_timing.py:304-317 | Behind the gates the quality is one less 0.2, 0.175 and 0.25 times the shares of the limits that spread, chase and age use. |
| `RiskLaws.SizingSafeAndMaximal` | backend/django_bridge/ramon_pipeline/signalflow/risk_management.py:282-303 | A sized volume is a whole number of steps within the broker's limits, risks no more than the budget, and one more step would exceed the budget or the maximum. |
| `RiskLaws.RefusedMeansNoVolumeFits` | backend/django_bridge/ramon_pipeline/signalflow/risk_management.py:293-300 | A trade refused for its budget could not have been sized: no whole number of steps within the broker's limits fits the budget. |
| `RiskLaws.BudgetNeverExceeded` | backend/django_bridge/ramon_pipeline/signalflow/risk_management.py:293-303 | The refusal for an exceeded budget cannot occur while one lot risks at most 1000 account units. |
| `RiskLaws.SizingMonotone` | backend/django_bridge/ramon_pipeline/signalflow/risk_management.py:282-303 | Between two sized trades a wider stop or more open risk never buys a larger volume. |
| `RiskLaws.StopExactly` | backend/django_bridge/ramon_pipeline/signalflow/risk_management.py:164-210 | The structural stop stands exactly when its distance from the entry lies within the configured multiples of the range; its points are that distance. |
| `RiskLaws.TimingRulesOutStopFailures` | backend/django_bridge/ramon_pipeline/signalflow/risk_management.py:155-210 | After timing approved on the same quote the stop stage can fail only as too wide, or as too tight when the required room plus the buffer is below the minimum stop. |
| `RiskLaws.TooTightReachable` | backend/django_bridge/ramon_pipeline/signalflow/risk_management.py:195-200 | That last condition is exact: below it there is an approved entry that is refused as too tight. |
| `RiskGates.StopAnswersExactly` | backend/django_bridge/ramon_pipeline/signalflow/risk_management.py:155-210 | The stop stands at the invalidation plus buffer, and for a short the spread if so configured, and the first failing condition refuses it otherwise. |
| `RiskGates.GatesExactly` | backend/django_bridge/ramon_pipeline/signalflow/risk_management.py:235-291 | With a stop placed the first failing comparison of figures, broker minimum, reward and open risk decides status and reason; past them the volume alone decides. |
| `RiskGates.StageExactly` | backend/django_bridge/ramon_pipeline/signalflow/risk_management.py:106-238 | Which stop is used, and that its refusals and those of the gates are the stage's. |
| `RiskGates.SizedMeetsGates` | backend/django_bridge/ramon_pipeline/signalflow/risk_management.py:260-291 | Every sized trade has a stop the broker accepts, the minimum reward, and room in the portfolio. |
| `RiskGates.DefersExactly` | backend/django_bridge/ramon_pipeline/signalflow/risk_management.py:282-291 | The stage defers if and only if the stop stands, everything else is in order, and the open risk uses up the limit. |
| `Ledger.OpenRiskMoney` | backend/django_bridge/ea_bridge/decision.py:304-331 | The accumulating loop returns the total charge of the open positions, or nothing when one position lacks its risk facts. |
| `Ledger.ChargeIsEstimate` | backend/django_bridge/ea_bridge/decision.py:304-324 | The risk the sizer budgets for a trade is exactly what the endpoint later charges for the position filled at that entry and stop. |
| `Ledger.ApprovalFits` | backend/django_bridge/ramon_pipeline/signalflow/risk_management.py:282-303 | An approved trade plus the open risk stays within the portfolio limit up to the rounding tolerances. |
| `Ledger.TotalRiskBounded` | backend/django_bridge/ea_bridge/decision.py:304-331 | Over every run of approvals, fills, drops and closes in which the open and pending risk leaves room for what each approval could budget, open and approved risk together stay within the portfolio limit. |
| `Ledger.SequentialIsGuarded` | backend/django_bridge/ea_bridge/decision.py:304-331 | Approvals that do not overlap always meet that condition. |
| `LedgerLimits.ApprovalSafeExactly` | backend/django_bridge/ramon_pipeline/signalflow/risk_management.py:282-303 | From a state within the limit every trade requesting a percentage can be approved without breaking it if and only if there is room for what the sizer would budget: the condition is exact. |
| `LedgerLimits.NoRoomBreaks` | backend/django_bridge/ramon_pipeline/signalflow/risk_management.py:282-303 | Where there is no room, one lot that risks the whole budget and the sizer's tolerance is approved and breaks the limit. |
| `Ledger.OverlapDoubles` | backend/django_bridge/ea_bridge/decision.py:304-324 | Two approvals before the first fill are both sized against the same book and end with twice the risk of one. |
| `Ledger.OverlapExceedsLimit` | backend/django_bridge/ea_bridge/decision.py:304-324 | A concrete run of two overlapping approvals: a limit of 0.75 percent ends at one percent. |
| `Ledger.UnaccountedPositionBlocks` | backend/django_bridge/ea_bridge/decision.py:305-331 | One position without complete risk facts blocks every new trade. |
| `SignalVisits.DeferralGivesBack` | backend/django_bridge/ramon_pipeline/signalflow/pipeline.py:222-228 | After a visit with an approved opportunity its key is absent if a later stage deferred, and held with this bar otherwise. |
| `SignalVisits.MemoryIsHeld` | backend/django_bridge/ramon_pipeline/signalflow/opportunities.py:814-827 | Barring eviction the memory holds every key exactly with the bar on which it was last admitted and not given back, a fold over the key's own visits. |
| `SignalVisits.OtherBarAdmittedExactly` | backend/django_bridge/ramon_pipeline/signalflow/pipeline.py:222-228 | After an approval, another bar of its key is admitted if and only if one comes after a deferral of the key on its own bar that no later visit of that bar undid. |
| `SignalVisits.OneBarPerSignal` | backend/django_bridge/ramon_pipeline/signalflow/pipeline.py:199-228 | So a key that is never given back after an approval is approved on no other bar. |
| `Pipeline.SignalFlow.Run` | backend/django_bridge/ramon_pipeline/signalflow/pipeline.py:199-228 | One run of the composed stages: verdicts, and the memory after acceptance and release. |
| `Pipeline.RunsAreVisits` | backend/django_bridge/ramon_pipeline/signalflow/pipeline.py:199-228 | Every run of the pipeline changes the memory as its sequence of visits does, one visit per snapshot. |
| `Pipeline.EvaluationIsVisit` | backend/django_bridge/ramon_pipeline/signalflow/pipeline.py:199-228 | An evaluation signals, and is fully approved, exactly when its visit is admitted, and approved; key and bar are the same. |
| `Pipeline.SignalTakenAgainExactly` | backend/django_bridge/ramon_pipeline/signalflow/pipeline.py:199-228 | Over every run of snapshots with at most 512 signals: after an approval its signal is taken up on another bar if and only if another bar offers it after an evaluation of its own bar was deferred and none of that bar since was kept. |
| `SignalReopened.WideQuoteReopens` | backend/django_bridge/ramon_pipeline/signalflow/pipeline.py:199-228 | Whatever two bars offer one signal and are approvable by themselves: directly after the first the second is a duplicate, but after the first bar is evaluated again on a spread above the limit the second is approved too. |
| `SignalExample.SignalTradedTwice` | backend/django_bridge/ramon_pipeline/signalflow/pipeline.py:199-228 | Two concrete snapshots on which that happens, under a configuration the detector accepts. |
| `PipelineLaws.ApprovedTradeIsSound` | backend/django_bridge/ramon_pipeline/signalflow/pipeline.py:199-221 | A fully approved evaluation has a protective setup, room to its invalidation at the entry price, a stop at or beyond the invalidation, its distance within the configured multiples of the range and not below the broker's minimum, the minimum reward, and room in the portfolio. |
| `PipelineLaws.SignalGivenBackExactly` | backend/django_bridge/ramon_pipeline/signalflow/pipeline.py:222-228 | In prices: after an evaluation that signalled its key is given back if and only if the entry may come later or only the portfolio is full, and is held with its bar otherwise. |
| `PipelineLaws.DetectorSetupsInvalidExactly` | backend/django_bridge/ramon_pipeline/signalflow/opportunities.py:1246-1257 | On candles of 5 digits that close in their range: timing refuses its own detector's setup as invalid if and only if the setup's range, which is rounded to 5 digits, rounds to zero; the risk stage never does, and no approved entry is beyond its stop. |
| `Commands.OldestExact` | backend/django_bridge/ea_bridge/commands.py:107-119 | The row claimed is eligible and no eligible row is older; none is claimed only when none is eligible. |
| `Commands.CommandTable.NextCommand` | backend/django_bridge/ea_bridge/commands.py:46-163 | One poll of the table: expire, authorize, claim or reject. |
| `Commands.CommandTable.AcknowledgeCommand` | backend/django_bridge/ea_bridge/commands.py:168-227 | One acknowledgement: duplicate, refusal or transition. |
| `Commands.CommandTable.CreateOpenCommand` | backend/django_bridge/ea_bridge/command_producer.py:120-154 | Insert unless the id exists, with the collision check. |
| `CommandLifecycle.PollExactly` | backend/django_bridge/ea_bridge/commands.py:68-163 | Due rows expire, at most one other row moves, that row was eligible and is delivered or rejected for its server, and nothing is offered only when nothing is eligible. |
| `CommandLifecycle.RunAdvances` | backend/django_bridge/ea_bridge/commands.py:190-227 | Over every run each row keeps its identity and only rises in rank; a terminal row never changes again. |
| `CommandLifecycle.LifecycleInvariant` | backend/django_bridge/ea_bridge/commands.py:106-227 | Over every run ids are unique, completion is stamped exactly on terminal rows, and every executed command was authorized, server-bound and claimed before its expiry. |
| `CommandLifecycle.ClaimOrigin` | backend/django_bridge/ea_bridge/commands.py:106-144 | Over every run each row with a claim, so each executed one, was delivered by one poll whose live heartbeat reported the very server the row is bound to. |
| `CommandLifecycle.DeliveryIsBound` | backend/django_bridge/ea_bridge/commands.py:106-144 | A delivered command was the oldest eligible one of this instance, account and symbol, and names the server of a fresh, ready, trade-enabled demo heartbeat of this account. |
| `CommandLifecycle.TerminalAckIsIdempotent` | backend/django_bridge/ea_bridge/commands.py:200-206 | Repeating a recorded terminal acknowledgement is answered as a duplicate, whatever happened in between, and changes nothing. |
| `CommandLifecycle.OneCommandPerDecision` | backend/django_bridge/ea_bridge/command_producer.py:120-154 | Asking again for the same decision, instance and account never makes a second row, whatever happened in between. |
| `CommandLifecycle.ClashIsDetected` | backend/django_bridge/ea_bridge/command_producer.py:147-153 | A different decision with the same digest is reported as a collision and changes nothing. |
| `CommandAnswers.AckExactly` | backend/django_bridge/ea_bridge/commands.py:200-227 | An acknowledgement of a row is recorded if and only if its state ranks higher and a pending row takes only a refusal or an expiry; then that row alone changes, to that state and result, stamped exactly when terminal; otherwise nothing changes and the answer says why. |
| `CommandAnswers.AckRefusedExactly` | backend/django_bridge/ea_bridge/commands.py:180-198 | One that does not read, or for a row that is not there, is refused and changes nothing. |
| `CommandAnswers.PollAnswers` | backend/django_bridge/ea_bridge/commands.py:58-163 | A poll delivers, or refuses for its server, exactly the first of the oldest waiting rows of a live account; the first failing condition refuses otherwise. |
| `CommandAnswers.RefusedExactly` | backend/django_bridge/ea_bridge/commands.py:75-104 | The account is authorized exactly when its heartbeat is recent, its own, of a known server, ready, tradable and demo; the first failing condition is reported. |
| `CommandAnswers.CreatedExactly` | backend/django_bridge/ea_bridge/command_producer.py:120-154 | A request creates a pending row, bound to its server and expiring after 60 seconds, exactly when its id is free; otherwise it finds that row or reports a collision. |
| `Protocol.Terminal.ProcessCommand` | mt5/RamonCommandEA.mq5:594-726 | The EA's decision chain for one response: remembered id, acknowledgement, broker call. |
| `Protocol.SystemInvariant` | mt5/RamonCommandEA.mq5:594-735 | The invariant of server, channel, terminals and broker over every interleaving. |
| `Protocol.BrokerAtMostOnce` | mt5/RamonCommandEA.mq5:526-569 | Over creation, polls, lost responses, lost, repeated and reordered acknowledgements, restarts and crashes, each command id reaches the broker at most once. |
| `Protocol.AcceptedIsNeverDenied` | mt5/RamonCommandEA.mq5:662-722 | A command the broker accepted is never recorded as rejected, expired or failed. |
| `Protocol.DuplicateBranchUnreachable` | mt5/RamonCommandEA.mq5:624-626 | The EA's duplicate-id branch never runs. |
| `ProtocolLaws.SubmissionOrigin` | mt5/RamonCommandEA.mq5:574-672 | Over every run every order the broker saw was received by a terminal in scope, before its expiry, with both authorizations, permission and valid local checks, and had been delivered by an earlier poll of a live account of its own server. |
| `ProtocolLaws.ReceiptExactly` | mt5/RamonCommandEA.mq5:574-735 | And conversely: in every run a received response that may be submitted reaches the broker unless the terminal dies first, nothing else does, and a surviving terminal sends its answer. |
| `ProtocolLaws.SubmittedExactly` | mt5/RamonCommandEA.mq5:594-672 | One processed response is submitted if and only if it may be and is not the one remembered. |
| `ProtocolLaws.AnsweredExactly` | mt5/RamonCommandEA.mq5:594-735 | The state acknowledged, and what is remembered, by the guards that hold. |
| `ProtocolLaws.TextExactly` | mt5/RamonCommandEA.mq5:613-735 | The text acknowledged is that of the first failing guard. |
| `ProtocolLaws.FaultsAreReal` | mt5/RamonCommandEA.mq5:594-735 | The faults the runs range over do happen: responses are lost, restarts and crashes forget the last command, acknowledgements repeat. |
| `ProtocolLaws.ExecutedIsRecorded` | backend/django_bridge/ea_bridge/commands.py:200-227 | Whatever was lost, repeated and reordered, an executed acknowledgement that gets through finds its row delivered and leaves it executed, unless it was terminal. |
| `Ingestion.Consumer.Handle` | backend/django_bridge/ramon_pipeline/management/commands/consume_ramon_streams.py:142-163 | The loop over one batch persists first and acknowledges after; a record that raises stays pending. |
| `Ingestion.BatchIsProcessing` | backend/django_bridge/ramon_pipeline/management/commands/consume_ramon_streams.py:142-163 | Handling a batch has the effect of processing its messages one after the other in the transition system: the same tables, the same messages acknowledged. |
| `Ingestion.FaultsAreReal` | backend/django_bridge/ramon_pipeline/management/commands/consume_ramon_streams.py:130-163 | The faults the runs range over do happen: a crash between persisting and acknowledging stores the row and leaves the message to be processed again, with the same effect; bounded lanes drop messages. |
| `Ingestion.RowsNeverChange` | backend/django_bridge/ramon_pipeline/management/commands/consume_ramon_streams.py:85-107 | Nothing the publishers, the streams and the consumers do changes or removes a stored row. |
| `Ingestion.SystemInvariant` | backend/django_bridge/ramon_pipeline/management/commands/consume_ramon_streams.py:130-163 | Every row comes from a published record, acknowledged records are stored, execution events are never trimmed. |
| `Ingestion.AckedIsStored` | backend/django_bridge/ramon_pipeline/management/commands/consume_ramon_streams.py:144-160 | Whatever crashes happen between persisting and acknowledging, an acknowledged message has its row. |
| `Ingestion.ExecutionNeverLost` | backend/django_bridge/ramon_pipeline/redis_buffer.py:16-22 | Every published execution event is undelivered, pending, or stored. |
| `Ingestion.ExactlyOnceEffect` | backend/django_bridge/ramon_pipeline/management/commands/consume_ramon_streams.py:49-107 | Two runs that published the same records, of which no two persistable ones ask for one row with different contents, end with the same tables once everything persistable is acknowledged, however often and in whatever order messages were delivered. |
| `Ingestion.CollidingIdsDiverge` | backend/django_bridge/ramon_pipeline/management/commands/consume_ramon_streams.py:49-107 | In any log in which two persistable records ask for one row, event or candle, with different contents, two complete runs end with different tables: the first one processed stays. |
| `Ingestion.SameTablesExactly` | backend/django_bridge/ramon_pipeline/management/commands/consume_ramon_streams.py:49-107 | So for every log all complete runs end with the same tables if and only if no two such records exist. |
| `CandleIntake.AlignedExactly` | backend/django_bridge/ea_bridge/telemetry.py:77-90 | The three tests on a stamp hold exactly for whole multiples of the interval since the epoch, earlier times included. |
| `CandleIntake.ValidBarExactly` | backend/django_bridge/ea_bridge/telemetry.py:139-180 | A candle is valid exactly when it is completed, stands at a boundary, its prices are positive and ordered, and its volume is not negative. |
| `CandleIntake.Normalize` | backend/django_bridge/ea_bridge/telemetry.py:132-187 | The nested validation loops compute the specified result or refuse. |
| `CandleIntake.NormalizedExactly` | backend/django_bridge/ea_bridge/telemetry.py:132-187 | The request's candles are accepted exactly when every set is well shaped, of its own timeframe and free of conflicts, and then the result is exactly the submitted candles. |
| `CandleIntake.SetsExactly` | backend/django_bridge/ea_bridge/telemetry.py:139-180 | The limit on the total number of candles refuses nothing that the other limits admit. |
| `Telemetry.Backend.InsertGroups` | backend/django_bridge/ea_bridge/telemetry.py:285-310 | One insert per timeframe adds exactly the rows whose key is free and counts them. |
| `Telemetry.Backend.Telemetry` | backend/django_bridge/ea_bridge/telemetry.py:95-370 | The whole endpoint on its three tables. |
| `Telemetry.ValidatedExactly` | backend/django_bridge/ea_bridge/telemetry.py:95-240 | A request is accepted exactly when an unordered set of conditions on its fields holds and its candle sets are acceptable; its rows are then exactly the submitted candles. |
| `TelemetryLaws.FirstWriterWins` | backend/django_bridge/ea_bridge/telemetry.py:285-310 | After any sequence of requests, streamed candles and retention deletions a candle is stored exactly when a writer brought it that no deletion followed, with the values of the first writer since the last deletion. |
| `TelemetryLaws.MissingExactly` | backend/django_bridge/ea_bridge/management/commands/prune_market_bars.py:45-63 | A candle some event brought is missing later if and only if retention deleted it since and nothing brought it again. |
| `TelemetryLaws.DeletesExactly` | backend/django_bridge/ea_bridge/management/commands/prune_market_bars.py:35-63 | Retention deletes a candle exactly when a valid command names its symbol, and its source or none, and it is older than the days kept of its timeframe. |
| `TelemetryLaws.ReplayInsertsExactly` | backend/django_bridge/ea_bridge/telemetry.py:285-310 | Posting any earlier accepted request again inserts exactly those of its rows that retention deleted since and nothing brought again. |
| `TelemetryLaws.ReplayInsertsNothing` | backend/django_bridge/ea_bridge/telemetry.py:285-310 | Where nothing of it was deleted, it inserts nothing, whatever else happened in between. |
| `TelemetryLaws.InsertedIsGrowth` | backend/django_bridge/ea_bridge/telemetry.py:285-370 | The reported count is the growth of the table, and a refused request changes no table. |
| `TelemetryLaws.BaselineNeverChanges` | backend/django_bridge/ea_bridge/telemetry.py:242-283 | A stored daily baseline never changes. |
| `TelemetryLaws.BaselineOrigin` | backend/django_bridge/ea_bridge/telemetry.py:242-283 | Every stored baseline was offered by one event that found its place free. |
| `TelemetryLaws.RolloverBaseline` | backend/django_bridge/ea_bridge/telemetry.py:257-283 | Every rollover baseline is the positive balance of the instance's directly preceding write, by the same login on the same server, dated one broker day earlier, at most 90 seconds old. |
| `TelemetryLaws.OfferedExactly` | backend/django_bridge/ea_bridge/telemetry.py:242-283 | What baseline a request offers: its complete history's opening balance, or the previous write's balance exactly under the continuity conditions. |
| `TelemetryLaws.ReportedBaseline` | backend/django_bridge/ea_bridge/telemetry.py:242-256 | A baseline from the broker's history holds the opening balance a request reported for that day. |
| `TelemetryLaws.BaselineStoredExactly` | backend/django_bridge/ea_bridge/telemetry.py:242-283 | A day has a baseline exactly when some event offered one for it. |
| `TelemetryLaws.HeartbeatIsLastWrite` | backend/django_bridge/ea_bridge/telemetry.py:328-358 | The heartbeat row is what the last write of the instance said. |
| `TelemetryLaws.WrittenExactly` | backend/django_bridge/ea_bridge/telemetry.py:328-358 | A request writes its instance's heartbeat exactly when it is accepted, with its account, server, day, balance and time. |
| `Learning.OutcomeStore.Add` | backend/django_bridge/ramon_pipeline/signalflow/learning.py:60-65 | Stores the record and reports true, or reports false and stores nothing. |
| `Learning.Learner.Observe` | backend/django_bridge/ramon_pipeline/signalflow/learning.py:150-194 | One observation: the store afterwards and the reason. |
| `Learning.BuiltExactly` | backend/django_bridge/ramon_pipeline/signalflow/learning.py:202-256 | An outcome is recorded exactly when an unordered set of conditions on its fields holds, and then says what the outcome says. |
| `Learning.StoredIsFirstDelivered` | backend/django_bridge/ramon_pipeline/signalflow/learning.py:53-75 | After any deliveries the store holds, for every trade, its first valid outcome. |
| `Learning.ObservationExactly` | backend/django_bridge/ramon_pipeline/signalflow/learning.py:178-199 | Recorded exactly when the trade is new, ignored exactly when it equals the stored outcome, otherwise refused; the last two change nothing. |
| `Learning.Records` | backend/django_bridge/ramon_pipeline/signalflow/learning.py:258-266 | The filter keeps exactly the trades closed by the time and counts the rest. |
| `Learning.AsOfIgnoresLater` | backend/django_bridge/ramon_pipeline/signalflow/learning.py:258-266 | The records read as of a time are unchanged by whatever is delivered later about trades not closed by then. |
| `Statistics.OrderedExactly` | backend/django_bridge/ramon_pipeline/signalflow/learning.py:270-272 | The closing order is a permutation, sorted with unknown times last, and stable. |
| `Statistics.DrawdownAndStreak` | backend/django_bridge/ramon_pipeline/signalflow/learning.py:279-286 | The single pass returns the largest fall of equity from any point to any later one, and the length of the longest contiguous block of losses. |
| `Statistics.StatsFor` | backend/django_bridge/ramon_pipeline/signalflow/learning.py:269-305 | The figures of the summary on money results, taken in closing order; drawdown and streak by definition. |
| `StatisticsLaws.DeliveryOrderIrrelevant` | backend/django_bridge/ramon_pipeline/signalflow/learning.py:269-311 | When closing times differ the order of delivery does not matter. |
| `StatisticsLaws.ExpectancyAgainstBreakeven` | backend/django_bridge/ramon_pipeline/signalflow/learning.py:287-305 | The win rate is below the reported break-even rate exactly when the net result is below break-even trades times the average loss; so negative expectancy implies it, and is equivalent without break-even trades. The profit factor is below one exactly on a net loss, and the break-even rate is one over one plus the payoff ratio. |
| `StatisticsLaws.BreakevenTradesHideAnEdge` | backend/django_bridge/ramon_pipeline/signalflow/learning.py:287-305 | With break-even trades the equivalence fails: a profitable sample below its break-even rate. |
| `StatisticsLaws.WilsonContainsRate` | backend/django_bridge/ramon_pipeline/signalflow/learning.py:93-100 | The interval contains the observed rate and lies in [0, 1] before any clipping. |
| `JsonScan.JsonString` | mt5/RamonCommandEA.mq5:35-65 | The search, skip and decode loops return the text of the key's string, or the fallback. |
| `JsonScan.ScanString` | mt5/RamonCommandEA.mq5:46-64 | The decoding loop with its escape flag reads up to the closing quote. |
| `JsonScan.JsonObject` | mt5/RamonCommandEA.mq5:101-141 | The search, skip and scan loops return the text of the key's object, or nothing. |
| `JsonScan.ScanObject` | mt5/RamonCommandEA.mq5:119-140 | The scanning loop with depth, string and escape flags finds the end of the object. |
| `JsonLaws.EscapeIsCharMap` | mt5/RamonCommandEA.mq5:25-33 | The five replacements in sequence act as one map over the characters. |
| `JsonLaws.DecodeEscaped` | mt5/RamonCommandEA.mq5:25-65 | Decoding what escaping produced returns the original string, for every string. |
| `JsonLaws.StringRoundTrip` | mt5/RamonCommandEA.mq5:25-65 | The same through the key search, for any text around, whenever the quoted key first occurs there. |
| `JsonLaws.ExtentOfObject` | mt5/RamonCommandEA.mq5:115-140 | Started at its opening brace, the scan takes exactly the object for every printed JSON tree with any layout and any escapes, whatever follows. |
| `JsonLaws.ObjectRoundTrip` | mt5/RamonCommandEA.mq5:101-141 | The same through the key search. |
| `Thresholds.ValidateValues` | backend/django_bridge/ea_bridge/thresholds.py:60-95 | The validation loop computes the overlaid values or refuses. |
| `ThresholdLaws.ValidatedExactly` | backend/django_bridge/ea_bridge/thresholds.py:60-95 | A submission is accepted exactly when every entry is editable and the result is consistent; every key then has its last submitted value or the default, in range. |
| `ThresholdLaws.AcceptedIsFixpoint` | backend/django_bridge/ea_bridge/thresholds.py:60-95 | Submitting an accepted set again, under either profile, yields the same set. |
| `ThresholdLaws.StoredIsSound` | backend/django_bridge/ea_bridge/views.py:473-487 | Whatever was posted and reset before, the stored values are in range and consistent. |
| `ThresholdLaws.StoredIsOrdered` | backend/django_bridge/ea_bridge/thresholds.py:76-95 | And the thresholds that limit each other are the right way round. |
| `ThresholdLaws.StagesAlwaysBuild` | backend/django_bridge/ea_bridge/decision.py:43-106 | The stored thresholds always build all three stages. |
| `ThresholdLaws.AcceptedThresholdsRaiseExactly` | backend/django_bridge/ramon_pipeline/signalflow/opportunities.py:975-1475 | With accepted thresholds, on every series of the minimum length, every index is in range and an evaluation raises exactly on the listed divisions by zero. |
| `ThresholdLaws.StandardRoom` | backend/django_bridge/ea_bridge/thresholds.py:52-56 | The standard defaults build valid stages, and their room plus buffer reaches the minimum stop distance. |
| `ThresholdLaws.StandardNeverTooTight` | backend/django_bridge/ramon_pipeline/signalflow/risk_management.py:195-200 | So an entry that timing approved under the standard defaults is never refused for a stop that is too tight. |
| `ThresholdFailures.DivisorsAreAccepted` | backend/django_bridge/ea_bridge/thresholds.py:60-95 | Under either profile the endpoint accepts a weak-trend threshold of 35 and ratio limits of 0.8 and 1.6. |
| `ThresholdFailures.ThirtyFiveAlwaysRaises` | backend/django_bridge/ramon_pipeline/signalflow/opportunities.py:548-553 | With a weak-trend threshold of 35 every evaluation of a hundred or more candles that have a range raises. |
| `ThresholdFailures.AcceptedThresholdsCanRaise` | backend/django_bridge/ramon_pipeline/signalflow/opportunities.py:548-553 | A submission the endpoint accepts and a flat series of a hundred candles on which the detector raises. |
| `ThresholdLaws.DefaultRoom` | backend/django_bridge/ea_bridge/thresholds.py:47-56 | The standard defaults satisfy the room condition; the demo defaults do not. |

## Left out

- Supplemental setups (`additional_setups.py`): off in the standard profile, and their search order is not symmetric.
- Parsing of raw bars, session calendars and recent-gap checks: they rest on a time-zone database; a series enters the model already parsed, and truncation to max_bars is part of parsing.
- Statistical forecasting models: a forecast is an opaque deterministic result behind the cache.
- HTTP, authentication, body parsing, admin, dashboards and migrations.
- Concurrent threads inside one detector evaluation: an evaluation is one step; the code checks and stores the memory in two lock sections.
- SHA-256: the digest is an arbitrary function; a clash is the collision case.
- The guard chain of the command producer before the insert (`backend/django_bridge/ea_bridge/command_producer.py:40-118`) and the risk-policy override of the decision endpoint: they only refuse or set inputs.
- Explanation texts, check lists, calculation metadata and display rounding, and the 5-digit rounding of the reported stop price.
- The legacy evaluation paths of the detector and of entry timing, used when no series or setup is supplied.
- Broker-side slippage: a fill is at the sized entry and stop.
- The response fields late_arrivals and the latest timestamps, and the two-decimal rounding of stored balances and the decimal places of stored candles.
- Overflow of the calendar at its last representable date in the rollover test.
- Mean bounds, R multiples and segment findings of the learning review: they add no loop or invariant beyond those modelled.
- Statistics.StatsFor: leaves out the R figures of the summary, and the interval of the win rate, which StatisticsLaws.WilsonContainsRate treats by itself.
- JsonNumber, JsonBool and the decoding of \u escapes by JsonString: foreign number parsing, and an escape the scanner does not decode.
- The order of redelivery by the stream server, such as its scan limits: any pending message may be delivered at any time.
- Re-reading of file defaults when a threshold equals the historical constructor default: the file holds the same two values.
- Regime.RegimeCausal: requires a bar index of at least slope_lookback, because below it the code's negative index reads from the end of the series; such bars are never evaluated.
- DetectorLaws.FoundIsProtective: assumes closes within their bar's range, which the decision endpoint enforces; the parser alone tolerates a relative slack of 1e-9.
- Ledger.TotalRiskBounded: assumes a fixed balance over the run.
- LedgerLimits.ApprovalSafeExactly: leaves aside budgets below a hundred-thousandth of the account's unit, where the 8 digits of a volume are coarser than the tolerances; Ledger.TotalRiskBounded covers them.
- Pipeline.SignalTakenAgainExactly: assumes at most 512 signals in the run; beyond that eviction can reopen a signal too, which SignalHistory.EvictionExactly describes.
- Ingestion.RowsNeverChange: is about the steps of publishers, streams and consumers; the retention command, which deletes candles, is an event of TelemetryLaws.
- Ingestion.AckedIsStored: leaves that deletion out too; after it an acknowledged candle need not be stored.
- Ingestion.BatchIsProcessing: takes the messages of one batch to be distinct, as the stream server delivers them.
- VerdictLaws.FoundExactly: is about series with enough history, a positive impulse threshold and a retest and zone tolerance that are not zero, as every accepted threshold set has them (ThresholdLaws.StagesAlwaysBuild); the components enter by name, and ScoreLaws says what each is.
- ScoreLaws.StrengthExactly: below a ranging threshold of 35, and ScoreLaws.VolatilityExactly for limits around 0.8 and 1.6; outside, DetectorLaws.StrengthMonotoneExactly and DetectorLaws.RaisesExactly say what goes wrong.
- Protocol.Terminal.ProcessCommand: the EA's permissions and the local checks of an order, position or level are one boolean each, with one text each; an action outside the four that commands can have is not modelled.
- RiskLaws.SizingSafeAndMaximal: assumes a volume step that is a whole number of hundred-millionths, since the code rounds the volume to 8 digits.
- Telemetry.Backend.Telemetry: the manual and legacy writers, the stream consumer and the retention command, which use the same tables, are events of TelemetryLaws, not endpoints.
