# Verified model of a trading workstation's market and backtesting core

This project models, in Dafny, the parts of the repository whose correctness rests on arguments that span several
functions: the layered candle reads under rules and backtests, the backtest trading model, the indicator recursions,
the polling and subscription protocols, and the provider fetch arithmetic. Times are integers in milliseconds; prices,
volumes and money are exact reals.

## How the modules stack

- `Candles`, `CandleStore`: candles, periods, and the in-memory store every view is specified against.
- `Repositories`: the read-through `PreloadedCandleRepository`, as a value and as the object that fills its window map.
- `Series`, `Paging`, `BarSeries`, `FormingBars`, `Rollup`: lazy backward walks, their page cursors, the forming-bar view,
  and the two independent roll-ups. A walk is an asynchronous generator in the original; here it is a method driven by a
  consumer, a predicate on the points seen so far that says when to stop, so laziness and the reads it saves are visible.
- `MovingAverages`, `Supertrend`, `SupertrendReading`: the indicator computes, and what their rows are, read off the candles.
- `IndicatorSeries`, `IndicatorPaging`, `IndicatorValues`: the pager that recomputes an indicator once per page, when that
  agrees with one whole-history compute, and the value of every point it yields.
- `InputsJson`, `ComputeCache`: the memo in front of the pager's computes, and the keys it tells them apart by.
- `WalkAgreement`: walks of every kind, side by side at two page sizes and over two preloadings.
- `PreloadDepth`: the derived preload depth, and why walks within it stay in memory.
- `Executor`, `Money`, `TradeTimeline`, `BacktestFeed`: the trading model, its conservation laws, its first-entry,
  first-exit reading, and the feed whose order makes its timeline sound.
- `Polling`, `PollingRuns`: one poll, and what whole runs emit.
- `StreamHub`, `Subscriptions`, `HubSubscriptions`: publish/subscribe handles, one socket's subscriptions under every
  interleaving, and any number of sockets over the hubs they share, each closing in any order.
- `BinanceFetch`, `YahooLive`, `StateStore`, `Backfill`: windowed fetches, live-bar merging, state change events, and
  chunked saves with keyset reads.

Each imperative method is proved against a specification function; what the source promises is then proved about that
function for all inputs.

## Where the code falls short of its documentation

- Supertrend computed page by page is not Supertrend over the whole history; `IndicatorPaging.SupertrendAgreesExactly`
  gives the exact history length up to which they agree, for all inputs, with a concrete history for each length past it.
- The bar stored when polling starts is never emitted final when the first answer already finds it closed and unchanged:
  `PollingRuns.StartupBarCloses` says exactly when, and `PollingRuns.StartupBarMissed` is such a run.
- A repeated subscribe on a client-keyed stream overwrites, and so leaks, the earlier hub handle:
  `HubSubscriptions.LeftBehindExactly`, `Subscriptions.CandleResubscribeLeaks`.
- A hub handle called twice can drop another subscriber's set: `StreamHub.StaleInvoke` says exactly when, and
  `StreamHub.DoubleInvokeDropsOther` is such a trace.
- A chart whose trailing row is not later than the bar before it is returned as it is, out of order:
  `YahooLive.MergeAligns`.

## Model

| member | source | states |
|---|---|---|
| `CandleStore.InMemoryCandleRepository.Save` | packages/backend/src/market/persistence/in-memory-candle.repository.ts:14-21 | an upsert changes exactly one series, to the batch laid over what it held |
| `CandleStore.LatestIsNewest` | packages/backend/src/market/persistence/in-memory-candle.repository.ts:37-40 | the latest candle is stored and no stored candle opens after it; none exactly when the series is empty |
| `CandleStore.SortedByTimeCorrect` | packages/backend/src/market/persistence/in-memory-candle.repository.ts:65-69 | sorting a bucket gives the strictly ascending series holding exactly its candles |
| `CandleStore.SaveAllMeaning` | packages/backend/src/market/persistence/in-memory-candle.repository.ts:14-21 | after saving, each time holds the last saved candle at that time, otherwise what was there |
| `CandleStore.LatestNPage` | packages/backend/src/market/persistence/in-memory-candle.repository.ts:42-53 | `latestN` is the newest `min(n, all)` candles below the bound, newest first |
| `Repositories.ReadThroughIsTransparent` | packages/backend/src/analytics/backtesting/preloaded-candle.repository.ts:79-123 | every `range` and `latestN`, for all arguments and any stack of preloaded layers, equals the bare stored series |
| `Repositories.PreloadedLatestN` | packages/backend/src/analytics/backtesting/preloaded-candle.repository.ts:100-123 | an in-window `latestN` served from memory is the store's answer |
| `Repositories.PreloadedRange` | packages/backend/src/analytics/backtesting/preloaded-candle.repository.ts:79-98 | a covered `range` served from memory is the store's answer |
| `Repositories.ServedFromMemory` | packages/backend/src/analytics/backtesting/preloaded-candle.repository.ts:79-123 | a read that does not delegate is answered by the loaded windows alone, whatever store they wrap; one that does is that store's own answer |
| `Repositories.LoadWindow` | packages/backend/src/analytics/backtesting/preloaded-candle.repository.ts:165-176 | a loaded window is the store's `[floor, end)` and knows exactly whether anything is older |
| `Repositories.PreloadedCandleRepository.constructor` | packages/backend/src/analytics/backtesting/preloaded-candle.repository.ts:65-77 | the constructor's loop leaves the window map of all entries, later ones winning |
| `Repositories.PreloadCandleRepository` | packages/backend/src/analytics/backtesting/preloaded-candle.repository.ts:157-178 | the repository built is the store plus one freshly loaded window per period |
| `Repositories.PreloadedWindow` | packages/backend/src/analytics/backtesting/preloaded-candle.repository.ts:165-177 | each active period's resident window is the one loaded for it |
| `Repositories.PreloadDepthIrrelevant` | packages/backend/src/analytics/backtesting/preloaded-candle.repository.ts:157-178 | two preload depths answer every read alike |
| `Repositories.PreloadingsAlike` | packages/backend/src/analytics/backtesting/preloaded-candle.repository.ts:157-178 | any two preloadings of one store, and the store itself, answer every read of every series alike |
| `Repositories.AlikeIsSameSeries` | packages/backend/src/analytics/backtesting/preloaded-candle.repository.ts:79-123 | two repositories answer every read alike if and only if they hold the same series |
| `Series.FallbackBackwardWalk` | packages/backend/src/analytics/rules/bar-series-view.ts:142-149 | a consumer is handed the primary's points as they come, or the fallback's when there are none; the fallback is opened if and only if the primary yields nothing |
| `Series.FallbackAsOf` | packages/backend/src/analytics/rules/bar-series-view.ts:151-162 | `asOf` is the first point of the layered walk at or before the query; the fallback is asked if and only if the primary yields nothing |
| `Series.PulledMeaning` | packages/backend/src/analytics/rules/bar-series-view.ts:85-103 | what a consumer of a walk sees: the shortest nonempty prefix at which it stops, or all of it |
| `Series.AsOfIsNewest` | packages/backend/src/analytics/rules/bar-series-view.ts:111-116 | in a newest-first walk `asOf` is the newest point not after the query |
| `BarSeries.BackwardWalk` | packages/backend/src/analytics/rules/bar-series-view.ts:85-103 | for every page size and every preloading, a consumer sees exactly the reversed non-null axis projection below `before`; the repository reads are exactly the successive pages |
| `BarSeries.AsOf` | packages/backend/src/analytics/rules/bar-series-view.ts:111-116 | `asOf` is the first point of that series at or before the query |
| `BarSeries.BarPointsDescend` | packages/backend/src/analytics/rules/bar-series-view.ts:85-103 | the series is strictly newest first and below `before` |
| `BarSeries.FullWalkFetches` | packages/backend/src/analytics/rules/bar-series-view.ts:86-102 | a full walk over `n` candles makes `floor(n / pageSize) + 1` fetches |
| `BarSeries.StoppedWalkFetches` | packages/backend/src/analytics/rules/bar-series-view.ts:86-102 | stopping after `k` points of an axis every candle carries makes `ceil(k / pageSize)` fetches |
| `Paging.StoppedDepth` | packages/backend/src/analytics/rules/bar-series-view.ts:86-102 | a consumer stopping at a newest-first position reads at most one page deeper |
| `Rollup.AggregateAxis` | packages/backend/src/analytics/rules/bar-series-view.ts:292-328 | the one-pass accumulator computes the roll-up: newest close, oldest open, extremes, sum, null exactly when no candle has the axis |
| `Rollup.SumVolume` | packages/ui/src/lib/aggregate-candles.ts:71-75 | the accumulating loop is the sum, absent volumes counting zero |
| `Rollup.FormingBucketCandle` | packages/ui/src/lib/aggregate-candles.ts:23-64 | the loaded candles' latest bucket folded: start, first open, extremes, last close, summed volume, in the first candle's shape; none without candles |
| `Rollup.FoldOne` | packages/ui/src/lib/aggregate-candles.ts:35-63 | a one-candle bucket is that candle at the bucket's start |
| `Rollup.FoldNewer` | packages/ui/src/lib/aggregate-candles.ts:35-63 | a newer candle becomes the close, only widens the range, and adds its volume, quote volume and trades; start, open and shape stay |
| `Rollup.RollUpsAgree` | packages/backend/src/analytics/rules/bar-series-view.ts:292-328 | both roll-ups of one bucket agree on open, high, low and close; on volume exactly when the first candle carries one or none does |
| `Rollup.VolumesMissing` | packages/backend/src/analytics/rules/bar-series-view.ts:292-328 | over candles without volume the newest-first roll-up is null |
| `Rollup.SameBucket` | packages/ui/src/lib/aggregate-candles.ts:27-29 | the candles the UI folds are those the backend folds when the latest candle is in the cap's bucket; otherwise the backend's window is empty |
| `Rollup.NewerCandle` | packages/ui/src/lib/aggregate-candles.ts:23-64 | one newer fine candle keeps the open, becomes the close, only widens high and low, adds its volume |
| `FormingBars.FormingAt` | packages/backend/src/analytics/rules/bar-series-view.ts:250-271 | for every page size the value folds exactly the fine candles of `[windowStart, before)` |
| `FormingBars.FormingBackwardWalk` | packages/backend/src/analytics/rules/bar-series-view.ts:215-224 | a consumer sees the forming point, if any, then the closed coarse bars below the window start |
| `FormingBars.FormingAsOf` | packages/backend/src/analytics/rules/bar-series-view.ts:234-243 | `asOf` is the first point of that walk at or before the query |
| `FormingBars.FormingPointsDescend` | packages/backend/src/analytics/rules/bar-series-view.ts:215-224 | the layered walk is strictly newest first and below `before` |
| `FormingBars.TailIsClosed` | packages/backend/src/analytics/rules/bar-series-view.ts:274-283 | when coarse bars open on multiples of their period, no bar still open at `before - 1` comes from the tail |
| `FormingBars.FormingMatchesChart` | packages/backend/src/analytics/rules/bar-series-view.ts:250-271 | for a series of one asset class, the backend's forming value is the axis of the UI's forming candle when the latest candle is in the bucket being read, and null otherwise |
| `WalkAgreement.BarWalks` | packages/backend/src/analytics/rules/bar-series-view.ts:85-103 | two bar walks at any two page sizes, over any two repositories that answer alike, yield the same points: the reversed axis projection |
| `WalkAgreement.FormingWalks` | packages/backend/src/analytics/rules/bar-series-view.ts:215-224 | so do two forming-bar walks |
| `WalkAgreement.IndicatorWalks` | packages/backend/src/analytics/rules/indicator-series-view.ts:103-146 | and two walks of a windowed indicator whose candles resolve: the whole-history projection |
| `MovingAverages.ComputeSma` | packages/backend/src/analytics/indicators/sma.ts:54-65 | the loops compute the window means, or throw where a candle does not resolve |
| `MovingAverages.OneBarAverages` | packages/backend/src/common/domain/indicator.ts:74-96 | for each of the eight selectors a one-bar average is the price selected, off the candle's own fields; only an FX candle's volume throws |
| `MovingAverages.SmaIsWindowMean` | packages/backend/src/analytics/indicators/sma.ts:54-65 | over any history each row is the mean of the selected price over its window, null before there is one; the compute throws exactly when an FX volume is asked for |
| `MovingAverages.SmaLocal` | packages/backend/src/analytics/indicators/sma.ts:54-65 | a row depends only on its own window |
| `MovingAverages.VwmaLine` | packages/backend/src/analytics/indicators/vwma.ts:116-126 | the first pass computes the line at every bar, null during warm-up or at zero volume |
| `MovingAverages.VwmaIsWindowMean` | packages/backend/src/analytics/indicators/vwma.ts:113-141 | the line is the volume-weighted mean of the selected price, null during warm-up or without volume, and `above` is whether the price is over it; it throws exactly on FX candles |
| `MovingAverages.ComputeVwma` | packages/backend/src/analytics/indicators/vwma.ts:113-163 | the two passes compute line, signal, confidence and side |
| `MovingAverages.VwmaLocal` | packages/backend/src/analytics/indicators/vwma.ts:112-163 | a row depends only on `length` earlier candles, although its signal looks back one bar further than its line |
| `MovingAverages.VwmaIsWeightedMean` | packages/backend/src/analytics/indicators/vwma.ts:116-126 | with non-negative volumes the line stays within the range of its window's source values |
| `MovingAverages.SmaWithinExtremes` | packages/backend/src/analytics/indicators/sma.ts:59-63 | the average stays inside the range of its window's source values |
| `MovingAverages.SmaSlides` | packages/backend/src/analytics/indicators/sma.ts:59-63 | one bar on, the average gains the new source value and loses the oldest |
| `MovingAverages.VwmaSignalIsCross` | packages/backend/src/analytics/indicators/vwma.ts:129-162 | a signal fires if and only if the price crosses its line between two warmed bars, far enough from it, a sell only in both directions; its confidence is the relative distance from the line; no signal repeats on the next bar |
| `Supertrend.ComputeSupertrend` | packages/backend/src/analytics/indicators/supertrend.ts:103-177 | the imperative recursion computes the specified rows |
| `SupertrendReading.RowsAreTheReading` | packages/backend/src/analytics/indicators/supertrend.ts:103-177 | the rows are those of any reading of the candles by these rules: spreads from the previous close on, averaged plainly or by Wilder's step; bands so many averages either side of the price, moving only towards a price whose previous close was beyond them; a trend that turns on closes beyond the previous bands; and it throws exactly when a warmed bar has no volume asked for |
| `SupertrendReading.ReadingExists` | packages/backend/src/analytics/indicators/supertrend.ts:103-177 | every history of candles has such a reading |
| `Supertrend.Atrs` | packages/backend/src/analytics/indicators/supertrend.ts:117-135 | both smoothing loops fill the specified averages |
| `Supertrend.SupertrendPrefix` | packages/backend/src/analytics/indicators/supertrend.ts:142-176 | a row depends only on the candles up to it |
| `Supertrend.RowsOfPrefix` | packages/backend/src/analytics/indicators/supertrend.ts:142-176 | the rows of a prefix are the prefix of the rows |
| `Supertrend.WarmUp` | packages/backend/src/analytics/indicators/supertrend.ts:142-146 | before index `atrPeriod - 1` every field is null; from it on value and trend are present |
| `Supertrend.AtrBetweenExtremes` | packages/backend/src/analytics/indicators/supertrend.ts:117-135 | under both methods the average at `i` lies within any bounds on the true ranges over `[0..i]` |
| `Supertrend.SignalsAlternate` | packages/backend/src/analytics/indicators/supertrend.ts:137-170 | signals strictly alternate, starting with a sell |
| `IndicatorSeries.ServiceCompute` | packages/backend/src/analytics/indicators/indicator.service.ts:132-167 | a request is rejected unless the symbol is watched, the length or period is 1 to 1000, the multiplier not negative and the asset class has volume where needed; otherwise it reads that many bars of warm-up and the range, computes, and slices to `[from, to)` |
| `IndicatorSeries.ComputeRows` | packages/backend/src/analytics/indicators/indicator.service.ts:154-160 | a compute that does not throw gives one row per candle, at its time |
| `IndicatorSeries.PageInput` | packages/backend/src/analytics/rules/indicator-series-view.ts:115 | a page's compute reads exactly the page and its warm-up |
| `IndicatorSeries.PageSlice` | packages/backend/src/analytics/indicators/indicator.service.ts:158-160 | slicing to the page's range keeps exactly the page's rows |
| `IndicatorSeries.IndicatorBackwardWalk` | packages/backend/src/analytics/rules/indicator-series-view.ts:103-146 | a consumer sees the page-by-page series for every page size and preloading; the reads are exactly those of the pages pulled, each page's warm-up and range included, and a throwing page is the last; a rejected request reads one page and yields nothing |
| `IndicatorPaging.PagedIsWholeHistory` | packages/backend/src/analytics/rules/indicator-series-view.ts:103-146 | for windowed indicators the paged series is the reversed non-null projection of one whole-history compute |
| `IndicatorPaging.PageRowIsRow` | packages/backend/src/analytics/rules/indicator-series-view.ts:115 | `length` warm-up bars suffice for every row of a page, the volume-weighted signal included |
| `IndicatorPaging.PagedPointsProject` | packages/backend/src/analytics/rules/indicator-series-view.ts:103-146 | for every indicator, the walk is the reversed non-null projection of the rows its pages compute |
| `IndicatorValues.WindowedPoints` | packages/backend/src/analytics/rules/indicator-series-view.ts:132-140 | for every page size a windowed walk is strictly newest first, one point for each whole-history row whose field is a finite number, a string or a boolean, at that value |
| `IndicatorValues.SmaPoints` | packages/backend/src/analytics/rules/indicator-series-view.ts:103-146 | the moving average's walk: exactly the mean of the selected price over every whole window, at its last candle's time |
| `IndicatorValues.VwmaPoints` | packages/backend/src/analytics/rules/indicator-series-view.ts:103-146 | the volume-weighted average's walks: exactly the lines, the sides, the crossings and their confidence, as the candles tell them |
| `IndicatorValues.SupertrendPoints` | packages/backend/src/analytics/rules/indicator-series-view.ts:103-146 | Supertrend's walks, for every page size: exactly the band in force, the trend or the turn that a reading of the candles loaded for each page tells |
| `IndicatorPaging.WindowedAgrees` | packages/backend/src/analytics/rules/indicator-series-view.ts:103-146 | agreement on every history, page size and `before` |
| `IndicatorPaging.PageSizeIrrelevant` | packages/backend/src/analytics/rules/indicator-series-view.ts:103-146 | for windowed indicators no page size changes what a walk yields |
| `IndicatorPaging.PagesNeverThrow` | packages/backend/src/analytics/rules/indicator-series-view.ts:113-128 | when the whole-history compute does not throw, no page's does |
| `IndicatorPaging.UnresolvableYieldsNothing` | packages/backend/src/analytics/rules/indicator-series-view.ts:113-128 | over candles without the source the walk ends at the throwing page and yields nothing |
| `IndicatorPaging.SupertrendAgreesExactly` | packages/backend/src/analytics/indicators/supertrend.ts:137-176 | for all inputs with a period of at least 1 and a non-negative multiplier: every history of `k` bars has its paged trend equal to the whole-history one if and only if `k` is at most page size plus warm-up |
| `PreloadDepth.DeepestMoving` | packages/backend/src/analytics/backtesting/derive-preload-bars.ts:60-65 | the depth bounds every moving leaf and is reached by one, or there is none |
| `PreloadDepth.MaxWarmupBounds` | packages/backend/src/analytics/backtesting/derive-preload-bars.ts:44-50 | the maximum bounds every registered instance's warm-up, and is one of theirs or zero |
| `PreloadDepth.MovingBarWalkStaysResident` | packages/backend/src/analytics/backtesting/derive-preload-bars.ts:39-53 | on gapless history a bar walk pulling at most the deepest moving depth never falls through to the store |
| `PreloadDepth.MovingIndicatorWalkStaysResident` | packages/backend/src/analytics/backtesting/derive-preload-bars.ts:39-53 | nor does any of the reads an indicator walk makes, for any indicator, over a field warm on every row its pages compute: one page of margin absorbs page rounding |
| `PreloadDepth.PersistentFieldsAreWarm` | packages/backend/src/analytics/indicators/supertrend.ts:142-146 | the moving average's value, Supertrend's value and trend, and over traded candles the volume-weighted average's value and side, are warm on every history |
| `Executor.BacktestExecutor.ProcessStep` | packages/backend/src/analytics/backtesting/backtest-executor.ts:134-160 | one step: level check first, then the events in order, on the whole trading state |
| `Executor.BacktestExecutor.OpenPosition` | packages/backend/src/analytics/backtesting/backtest-executor.ts:216-223 | opening sets exactly the whole-equity lot |
| `Executor.BacktestExecutor.ClosePosition` | packages/backend/src/analytics/backtesting/backtest-executor.ts:229-262 | closing books the net trade, compounds equity, forgets every observed value |
| `Executor.BacktestExecutor.RecordTransition` | packages/backend/src/analytics/backtesting/backtest-executor.ts:268-272 | a write is a transition exactly when it differs from the last value seen |
| `Executor.Replay` | packages/backend/src/analytics/backtesting/backtest-executor.ts:117-185 | feeding a run to a fresh executor ends in the specified outcome |
| `Money.RunKeepsBooks` | packages/backend/src/analytics/backtesting/backtest-executor.ts:216-262 | in every run each trade spent the whole equity left by the trades before it, and so does the open lot |
| `Money.EquityIsCapitalPlusPnl` | packages/backend/src/analytics/backtesting/backtest-executor.ts:322-327 | equity is initial capital plus all closed P/L, which the summary reports |
| `Money.EntrySpendsEquity` | packages/backend/src/analytics/backtesting/backtest-executor.ts:216-223 | notional plus commission is the whole equity, the commission its given rate on the notional plus its given fixed part, an absent part counting zero, and quantity times price the notional |
| `Money.OpenPositionMarksToMarket` | packages/backend/src/analytics/backtesting/backtest-executor.ts:172-182 | equity plus unrealized P/L is the quantity at the last close |
| `Money.TradeNetsProceeds` | packages/backend/src/analytics/backtesting/backtest-executor.ts:229-241 | equity after a trade is its proceeds less the exit commission, charged at the given rate and fixed part; the trade's commission is both fills'; and its return is its P/L in percent of the equity spent |
| `Money.EquityCompounds` | packages/backend/src/analytics/backtesting/backtest-executor.ts:229-253 | with nonzero equity at each entry, equity is the capital times the product of `1 + roiPct / 100` |
| `Money.FreeTradeScalesByPrice` | packages/backend/src/analytics/backtesting/backtest-executor.ts:216-253 | without commission a trade scales equity by exit price over entry price |
| `TradeTimeline.RunIsAtoms` | packages/backend/src/analytics/backtesting/backtest-executor.ts:134-160 | a run is its level checks and symbol-scoped writes, one by one |
| `TradeTimeline.TradesAreFirstExits` | packages/backend/src/analytics/backtesting/backtest-executor.ts:134-160 | a list is a run's trades if and only if it is the first-entry, first-exit reading of the run: earliest entry transition after the last close, earliest level touch or exit transition after it, filled and booked accordingly |
| `TradeTimeline.OpenAtEnd` | packages/backend/src/analytics/backtesting/backtest-executor.ts:167-185 | a run ends holding a position exactly when an entry follows its last round trip |
| `TradeTimeline.TradesToldInSteps` | packages/backend/src/analytics/backtesting/backtest-executor.ts:134-209 | a trade enters at the close of a step where the entry signal's value was written to its key; no step strictly between entry and exit touches a level; a level exit is at the level on a later step, stop before target; a signal exit is at the close of a step where the exit signal's value was written to its key |
| `TradeTimeline.WriteTrades` | packages/backend/src/analytics/backtesting/backtest-executor.ts:142-159 | a write opens a flat executor if and only if it changes its key to the entry signal's value, and closes a held position if and only if it changes its key to the exit signal's value; both at the close |
| `TradeTimeline.TradeFillsAtDistance` | packages/backend/src/analytics/backtesting/backtest-executor.ts:275-295 | in every run a stop fills its amount, or its percentage of the entry price, below the entry, and a target above it |
| `TradeTimeline.TradesOfPrefix` | packages/backend/src/analytics/backtesting/backtest-executor.ts:134-160 | the trades of a prefix of the steps are a prefix of the run's trades |
| `TradeTimeline.TradesInTimeOrder` | packages/backend/src/analytics/backtesting/backtest-executor.ts:134-160 | with nondecreasing closing times, entry, exit and next entry are in time order |
| `Money.PnlIsMoveLessCommission` | packages/backend/src/analytics/backtesting/backtest-executor.ts:229-240 | a trade's P/L is quantity times price move, less both commissions |
| `Money.LevelExitIsWorstTouched` | packages/backend/src/analytics/backtesting/backtest-executor.ts:192-209 | a level exit happens if and only if a level is touched, and fills at the lowest touched one: stop before target |
| `Money.PercentageLevelsReturn` | packages/backend/src/analytics/backtesting/backtest-executor.ts:280-295 | without commission a percentage target returns exactly its percentage, and a stop loses exactly its own |
| `Money.SummaryAddsUp` | packages/backend/src/analytics/backtesting/backtest-executor.ts:322-349 | the summary's return takes the capital to the final equity; averages times the count are the trades' P/L, returns and holding times in days; winners and losers are the trades above and below zero |
| `BacktestFeed.FeedIsPermutation` | packages/backend/src/analytics/backtesting/backtest-replay.service.ts:341-353 | the feed holds every listed candle exactly as often as listed |
| `BacktestFeed.FeedStrictlyOrdered` | packages/backend/src/analytics/backtesting/backtest-replay.service.ts:341-353 | with distinct periods the feed is strictly ordered by the instant each bar closes, then by period length |
| `BacktestFeed.FeedIgnoresListing` | packages/backend/src/analytics/backtesting/backtest-replay.service.ts:341-353 | the order in which periods are listed does not matter |
| `BacktestFeed.FinerBarsFirst` | packages/backend/src/analytics/backtesting/backtest-replay.service.ts:341-353 | every finer bar inside a coarse bar precedes it |
| `BacktestFeed.FeedIgnoresPreloadDepth` | packages/backend/src/analytics/backtesting/backtest-replay.service.ts:315-326 | the loaded feed is the same at every preload depth |
| `BacktestFeed.ReplayIgnoresPreloadDepth` | packages/backend/src/analytics/backtesting/backtest-replay.service.ts:272-326 | for an engine that learns of the repository only by reading it, a backtest ends alike at every preload depth, and as over the bare store |
| `BacktestFeed.LoadedFeedWellListed` | packages/backend/src/analytics/backtesting/backtest-replay.service.ts:315-326 | what is loaded lists each period once, ascending |
| `BacktestFeed.ReplayFeed` | packages/backend/src/analytics/backtesting/backtest-replay.service.ts:272-312 | the loop processes every fed candle until a cancellation is seen, reports progress after each, and ends in the executor's outcome or empty |
| `BacktestFeed.ReportedAscends` | packages/backend/src/analytics/backtesting/backtest-replay.service.ts:361-369 | reported progress never decreases and stays within `[0, totalDays]` |
| `BacktestFeed.ProgressIsElapsed` | packages/backend/src/analytics/backtesting/backtest-replay.service.ts:361-369 | progress is the time from the run's start to the fed bar's close, within the run, in days of milliseconds |
| `BacktestFeed.FeedTradesInTimeOrder` | packages/backend/src/analytics/backtesting/backtest-replay.service.ts:285-289 | over the feed every trade has entry, exit and next entry in time order |
| `BacktestFeed.FeedTradesAtCloses` | packages/backend/src/analytics/backtesting/backtest-replay.service.ts:285-289 | every trade of a replay is entered at a fed bar's closing instant and close price, and left at one's closing instant, by signal at its close price |
| `Polling.PollingService.PollOne` | packages/backend/src/market/services/polling.service.ts:214-253 | one poll: saves the answer, remembers the resume bar's finality, delivers exactly the unsuppressed candles; other series are untouched |
| `PollingRuns.PassInClosedForm` | packages/backend/src/market/services/polling.service.ts:228-248 | a pass emits every candle once, except a suppressed resume bar |
| `PollingRuns.ClosesExactlyOnce` | packages/backend/src/market/services/polling.service.ts:214-253 | with a faithful market and a nondecreasing clock, a bar after the startup cursor is emitted final exactly once if and only if an answered poll came after it closed; nothing follows it, and times never decrease |
| `PollingRuns.StartupBarCloses` | packages/backend/src/market/services/polling.service.ts:239-243 | the bar stored at startup is emitted final if and only if an answered poll came after it closed and the first answer holding it did not find it closed and unchanged |
| `PollingRuns.StartupBarMissed` | packages/backend/src/market/services/polling.service.ts:239-243 | a faithful run, for any bar, in which the startup bar is never emitted final although an answered poll came after it closed |
| `Polling.PollingService.Sweep` | packages/backend/src/market/services/polling.service.ts:152-159 | polling a list of series leaves each one, and its events, as its own polls alone would |
| `PollingRuns.VisitsAreRun` | packages/backend/src/market/services/polling.service.ts:152-159 | what a sweep does to a series is a run of that series' own polls |
| `PollingRuns.SweepsCloseExactlyOnce` | packages/backend/src/market/services/polling.service.ts:152-253 | however the polls of many series interleave, each series' bars close exactly once, and its events' times never decrease |
| `StreamHub.StreamHub.Subscribe` | packages/backend/src/common/services/stream-hub.ts:32-36 | joins the key's current set, or a new one |
| `StreamHub.StreamHub.Unsubscribe` | packages/backend/src/common/services/stream-hub.ts:36-39 | leaves the captured set, and drops the key when that set is empty |
| `StreamHub.StreamHub.Publish` | packages/backend/src/common/services/stream-hub.ts:49-57 | every subscriber runs exactly once; exactly the throwing ones are reported |
| `StreamHub.DeliversToLive` | packages/backend/src/common/services/stream-hub.ts:32-57 | while each handle is called at most once, a publish reaches exactly the subscribers of live handles |
| `StreamHub.StaleInvoke` | packages/backend/src/common/services/stream-hub.ts:36-39 | a second call of a handle is harmless if and only if its set is in use again or its key has no subscriber |
| `StreamHub.DoubleInvokeDropsOther` | packages/backend/src/common/services/stream-hub.ts:36-39 | a trace in which the second call of one handle drops another, live subscriber |
| `Subscriptions.SocketSubscriptions.ResumeSubscribe` | packages/backend/src/delivery/subscription-registry.ts:128-141 | after the acquire: release if closed, otherwise subscribe and register |
| `Subscriptions.SocketSubscriptions.RunUnsubscribe` | packages/backend/src/delivery/subscription-registry.ts:147-158 | call the slot's handle if any, forget it, release it |
| `Subscriptions.SocketSubscriptions.Cleanup` | packages/backend/src/delivery/subscription-registry.ts:91-101 | every active handle is called once and every active slot released, in any order; a second call does nothing |
| `Subscriptions.SettledAfterClose` | packages/backend/src/delivery/subscription-registry.ts:91-158 | for every interleaving, once closed and settled nothing is held upstream and every handle was called exactly once, except overwritten ones, which never were |
| `Subscriptions.FreshKeysNeverOverwritten` | packages/backend/src/delivery/subscription-kinds/indicator.ts:62-82 | with server-generated keys no indicator or quote handle is overwritten |
| `Subscriptions.NothingLeaks` | packages/backend/src/delivery/subscription-registry.ts:91-158 | with fresh keys every indicator and quote handle was called exactly once after close |
| `HubSubscriptions.TracesDisciplined` | packages/backend/src/delivery/subscription-registry.ts:91-158 | however many sockets interleave over shared hubs, no handle is called twice |
| `HubSubscriptions.DeliversExactly` | packages/backend/src/common/services/stream-hub.ts:32-57 | a publish reaches a socket's subscriber if and only if its handle for that slot has not been called |
| `HubSubscriptions.OnlyOverwrittenStayLive` | packages/backend/src/delivery/subscription-registry.ts:91-158 | after close and settlement the hubs hold exactly the overwritten subscriptions of a socket |
| `HubSubscriptions.NoneLiveAfterClose` | packages/backend/src/common/services/stream-hub.ts:32-40 | with fresh keys no indicator or quote subscription of a closed and settled socket is live in any hub |
| `HubSubscriptions.LeftBehindExactly` | packages/backend/src/delivery/subscription-registry.ts:132-138 | a closed and settled socket leaves something in a hub if and only if a subscribe once resumed, on the open socket, over an active slot |
| `Subscriptions.OverwrittenStaysLive` | packages/backend/src/delivery/subscription-registry.ts:138 | an overwritten handle is never called, whatever follows |
| `Subscriptions.CandleResubscribeLeaks` | packages/backend/src/delivery/subscription-kinds/candle.ts:34-36 | a client subscribing twice to one symbol's candles leaves the first handle live after close |
| `BinanceFetch.WindowStarts` | packages/backend/src/market/market-data/binance-market-data-source.ts:146-147 | the window starts tile `[earliest, end)` |
| `BinanceFetch.WindowComplete` | packages/backend/src/market/market-data/binance-market-data-source.ts:155-163 | a window's kept rows are every bar of the window and span; the page limit cuts nothing off |
| `BinanceFetch.WithinTotal` | packages/backend/src/market/market-data/binance-market-data-source.ts:145 | bars of the span never outnumber the precomputed total |
| `BinanceFetch.TotalCoversSpan` | packages/backend/src/market/market-data/binance-market-data-source.ts:145 | the precomputed total is the number of periods it takes to cover the span |
| `BinanceFetch.FetchWindows` | packages/backend/src/market/market-data/binance-market-data-source.ts:221-235 | up to eight runners share one index: every window is taken once, in order, and a window is left untaken only if eight windows failed; the most ever in flight is the smaller of eight and the number of windows; for every interleaving the sorted result is the provider's bars of the span, progress is monotone and within the total, and the fetch fails if and only if a window fails |
| `BinanceFetch.FetchCandles` | packages/backend/src/market/market-data/binance-market-data-source.ts:120-180 | a ranged or rangeless fetch returns exactly the bars asked for, ascending, each once, and fails if and only if the probe it makes or a window of the span fails |
| `YahooLive.MergeChangesTail` | packages/backend/src/market/market-data/yahoo-market-data-source.ts:275-299 | only the last one or two bars change |
| `YahooLive.MergeAligns` | packages/backend/src/market/market-data/yahoo-market-data-source.ts:288-299 | an intraday chart ends up strictly ascending and wholly on the grid if and only if its live row came last |
| `YahooLive.MergeKeepsBuckets` | packages/backend/src/market/market-data/yahoo-market-data-source.ts:308-324 | every grid bucket keeps its open, high, low, close and total volume |
| `YahooLive.RollUpTells` | packages/backend/src/market/market-data/yahoo-market-data-source.ts:308-344 | a bucket's roll-up is its first open and last close present, the highest high and lowest low present, and the volumes present added up |
| `YahooLive.MergeIdempotent` | packages/backend/src/market/market-data/yahoo-market-data-source.ts:275-299 | merging twice is merging once |
| `YahooLive.DailyMergeSpaces` | packages/backend/src/market/market-data/yahoo-market-data-source.ts:282-287 | a daily or weekly chart of spaced bars stays spaced if and only if its last row came later |
| `YahooLive.DailyMergeKeepsIntervals` | packages/backend/src/market/market-data/yahoo-market-data-source.ts:282-287 | every earlier bar's interval keeps its roll-up |
| `YahooLive.DailyMergeIdempotent` | packages/backend/src/market/market-data/yahoo-market-data-source.ts:282-287 | merging twice is merging once |
| `YahooLive.IngestChart` | packages/backend/src/market/market-data/yahoo-market-data-source.ts:194-209 | merge, map the complete bars, keep `[from, to)` |
| `YahooLive.CandlesAscend` | packages/backend/src/market/market-data/yahoo-market-data-source.ts:354-376 | ascending bars give exactly the complete bars' candles, ascending: each bar's own date, prices and, unless FX, volume |
| `StateStore.InMemoryStateRepository.Set` | packages/backend/src/analytics/persistence/in-memory-state.repository.ts:39-58 | a write changes exactly its cell and emits one event exactly when the value changes |
| `StateStore.InMemoryStateRepository.Delete` | packages/backend/src/analytics/persistence/in-memory-state.repository.ts:60-78 | a removal empties exactly its cell and emits one event exactly when there was a value |
| `StateStore.InMemoryStateRepository.List` | packages/backend/src/analytics/persistence/in-memory-state.repository.ts:26-29 | the listing holds exactly the scope's keys and values |
| `StateStore.EventsReconstructStore` | packages/backend/src/analytics/persistence/in-memory-state.repository.ts:39-129 | after every run, folding the emitted events gives the store |
| `StateStore.EventsChain` | packages/backend/src/analytics/persistence/in-memory-state.repository.ts:39-129 | each event starts from its cell's preceding `current` and changes it |
| `StateStore.Apply` | packages/backend/src/analytics/persistence/in-memory-state.repository.ts:39-129 | any run of operations on the object ends in the specified store and events |
| `Backfill.PageIsSlice` | packages/backend/src/market/backfill/backfill.service.ts:141-157 | a page is the next `limit` candles of the range, and its cursor the candle after them |
| `Backfill.ReadAll` | packages/backend/src/market/backfill/backfill.service.ts:141-157 | for any limit of at least one, following the cursor ends, the cursor strictly increases, and the pages are exactly `range(from, to)` |
| `Backfill.ZeroLimitStalls` | packages/backend/src/market/backfill/backfill.service.ts:146-155 | with limit 0 the cursor of a nonempty range never moves |
| `Backfill.SaveInChunks` | packages/backend/src/market/backfill/backfill.service.ts:101-135 | the chunked loop is one upsert of the whole batch, with strictly increasing saved counts ending at the total |
| `Backfill.BackfillRoundTrip` | packages/backend/src/market/backfill/backfill.service.ts:101-157 | a history backfilled into an empty series pages back as it was fetched |
| `ComputeCache.KeysNeverCollide` | packages/backend/src/analytics/rules/indicator-compute-cache.ts:48-65 | two computes serialize to one key if and only if they are the same compute, whatever order their inputs come in |
| `InputsJson.InputsIdentity` | packages/backend/src/analytics/rules/indicator-compute-cache.ts:59-65 | two input records serialize alike if and only if they hold the same properties |
| `InputsJson.InputsPlain` | packages/backend/src/analytics/rules/indicator-compute-cache.ts:10-17 | the JSON of the inputs never holds the separator |
| `ComputeCache.FieldsReadBack` | packages/backend/src/analytics/rules/indicator-compute-cache.ts:48-57 | a serialized key splits back into its fields |
| `ComputeCache.IndicatorComputeCache.Compute` | packages/backend/src/analytics/rules/indicator-compute-cache.ts:26-38 | the memoized compute is the direct one, and each compute is loaded at most once |

## Left out

- Floating point: prices and money are exact reals, so rounding, `NaN` and infinities are not modelled; a division by zero, non-finite in the original, is given a fixed value in `Executor.Div`, and the theorems that need a divisor say so.
- Series keys are pairs of symbol and period; the original joins them with `|` into one string, and also deletes a symbol's series by prefix, which is not modelled.
- Writes through the preloaded repository: its views are specified over an unchanging store.
- Error texts: a candle that does not resolve its source makes a compute throw, and the message is not modelled.
- Input validation of indicators beyond the declared ranges of length, period and multiplier, string coercion of numbers, and defaults.
- Sub-ranges of `IndicatorService.compute` with an absent bound: the pager always passes both.
- `PreloadDepth.MovingIndicatorWalkStaysResident`: says nothing of sparse fields, such as signals, whose walks can pull without bound, nor of a walk ended by a throwing page.
- The rule operators, dispatcher and rule engine: the executor is fed an arbitrary event list per candle, and the replay an arbitrary engine.
- Yielding to the event loop every 200 candles, logging, and the HTTP, Mongo, Redis and Telegram adapters.
- `Polling.PollingService.PollOne`: a sweep is the list of series it polls; the watchlist read, scheduling and jitter are not modelled; a provider is a function of series and window, and listeners are the one event log they all receive.
- Sockets: message validation, replies and log lines are not modelled; a subscribe is its arrival, the acquire taking effect, and the resumption after it, in any interleaving. Closing iterates in any order.
- `BinanceFetch.FetchCandles`: retries after a 429 are not modelled; a window, and the probe for the earliest bar, either answers or fails. The provider's history is ascending with bars at least one period apart.
- `ComputeCache.KeysNeverCollide`: an input is a string, a number as JSON prints it, or a boolean; nested values, which no indicator declares, are not modelled. The `load` passed per call is one function of the key.
- The job services, watchlist, profile, strategy, configuration and notification services, the user interface apart from the forming-candle fold, and the one-run-at-a-time slot of the backtest service.
