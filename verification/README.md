# QuantLuna: verified kernels

QuantLuna trades pairs of instruments: it estimates a hedge ratio, classifies the
market, sends rate-limited requests to an exchange, and backtests all of it. This
project models the parts of it that carry state or arithmetic, in Dafny, and proves what
they keep over every run.

- **Hedge ratio** (`LinAlg`, `KalmanAlgebra`, `Kalman`, `KalmanOptimality`,
  `KalmanObject`): the two-state Kalman filter over real numbers. Matrices are four
  numbers; the object with its fields is proved to take the steps of the model, and the
  model is proved optimal, first for one bar and then for whole histories of bars, setter
  calls and resets.
- **Traffic controller** (`TokenBucket`, `CircuitBreaker`, `TTLCache`, `SingleFlight`,
  `TrafficController`, `TrafficTrace`, `TrafficAnswers`, `TrafficProperties`,
  `TrafficSchedule`, `TrafficStaleness`, `TrafficOldResult`, `TrafficRecovery`): the four
  mechanisms as objects, and `request` as a machine that any number of requests step
  through at once, one action from each await to the next. What every request answers is
  also told from the schedule of actions alone, and the machine agrees with that. Safety,
  freshness, rate and progress hold in every interleaving. Two things do
  not: a waiter need not get its leader's outcome, and an open breaker need not recover.
  For both the exact condition is proved, and a run that fails is shown. An await need not
  suspend, so the machine has more runs than the event loop; the runs that are shown are
  seamless, which means that nobody acts where the event loop would let nobody act.
- **Backtest** (`Backtest`, `BacktestRecords`, `BacktestRun`, `Folds`): the trades of a
  fold and what their records say, the capital from fold to fold, the profit by day, and
  where training and test windows lie.
- **Market data** (`Series`, `Pagers`, `MarketDataCache`): the two pagers against servers
  that answer in pages, and the local cache against an exchange whose series grows while
  requests fail.
- **Classifiers and monitor** (`Persistence`, `VolatilityRegime`, `TrendRegime`,
  `SpreadMonitor`): small state machines whose counters are facts about the whole history.
- **Drawdown, alignment, stores** (`Drawdown`, `AlignBars`, `JobStore`, `MemoryStore`).

Conventions: prices and times are reals or integers without rounding; a clock reading is a
parameter, and clocks do not run backward; an exception is a `Result`; what a server, an
indicator or an executor answers is a parameter. `dafny verify dfyconfig.toml` checks the
whole project.

Where code and documentation disagree, the model follows the code:

- `backtest/engine_adapter.py:30` says that purged bars leave the training side; the engine
  keeps them there and starts testing purge + embargo bars later
  (`backtest/engine.py:162-164`). The gap is the same.
- `data/market_data_cache.py:262` speaks of bars after the last cached one; the download
  starts at that bar and replaces it, which is what makes the refresh correct.
- `core/volatility_regime.py:50-52` describes strict thresholds; `_classify` includes them.
- `max_drawdown_pct` in `backtest/multi_strategy_backtester.py:254` is the percentage of the
  largest fall in money, not the largest percentage (`Drawdowns.PctIsLargestIff` says when they agree).
- Deduplicated requests (`core/bybit_traffic_controller.py:400-404`) are meant to share one
  result; what a waiter gets is the last published one
  (`TrafficStaleness.WaiterAgreesWithLeaderIff` says when it is the leader's).

## Model

| member | source | states |
|---|---|---|
| KalmanOptimality.EstimateEndsTheCheapestPath | core/kalman_filter.py:162-199 | Over any sequence of bars, setter calls and resets, the sum of innovation²/S since the last reset is the least cost of any state path (the prior, then (1 - delta)/delta times the squared distance for every move, and the squared miss of y - beta x - alpha over R for every bar), and every path that costs no more ends in the filter's (beta, alpha): one pass of the recursion solves the whole least-squares problem. |
| KalmanOptimality.NoPathIsCheaper | core/kalman_filter.py:162-199 | The cost of every path that ends in v is at least the accumulated innovation cost plus the deviation of v from the estimate weighted by the inverse of P. |
| KalmanOptimality.BestPathAttains | core/kalman_filter.py:162-199 | For every end state v there is a path that costs exactly that bound. |
| KalmanOptimality.MoveSplits | core/kalman_filter.py:177 | Leaving state u for v under prior P costs, with (1 - delta)/delta times the squared distance for the move, the deviation of v weighted by the inverse of P + Q, plus a non-negative rest that vanishes for the best u. |
| Kalman.UpdateIsOptimal | core/kalman_filter.py:176-183 | The new (beta, alpha) is the unique minimiser of (y - beta x - alpha)²/R plus the squared deviation from the prior state weighted by the inverse of P + Q. |
| Kalman.CostOfUpdate | core/kalman_filter.py:176-183 | That one-bar cost at any point is innovation²/S plus the deviation from the new state weighted by the inverse of the new P. |
| Kalman.AcceptedBar | core/kalman_filter.py:176-189 | In every reachable state a bar that is not skipped gives S >= R > 0 and a symmetric positive definite P that is never above P + Q and equals (I - K F)(P + Q); det P_new = det(P + Q) R/S, F P_new F' = R(S - R)/S < R, and the residual shrinks to innovation R/S. |
| Kalman.UpdateKeepsValid | core/kalman_filter.py:162-199 | A bar keeps P symmetric positive semidefinite and makes it positive definite unless it is skipped; Q stays the one of delta. |
| Kalman.StepKeepsValid | core/kalman_filter.py:117-252 | So does every call on the object: a bar, a setter with a good or bad value, a reset. |
| Kalman.ProcessNoise | core/kalman_filter.py:117-121 | In every reachable state Q is diagonal with equal entries q, (1 - delta) q = delta, and a bar starts from P + Q. |
| Kalman.SnapshotReports | core/kalman_filter.py:162-199 | What a bar returns is the state it leaves; the innovation is y - (beta x + alpha) with the state before, S the variance of that under P + Q plus R, and the state moves by the gain times the innovation. Below 1e-10 a bar changes nothing and reports R. |
| Kalman.HistoryIsNewest | core/kalman_filter.py:187-199 | The history is the newest history_maxlen answers to accepted bars since the last reset, and the counter the number of all of them. |
| Kalman.ResetForgetsBars | core/kalman_filter.py:245-251 | After any calls a reset leaves the newly built filter, apart from what the setters made of delta, Q and R. |
| Kalman.SettingsStay | core/kalman_filter.py:123-145 | Delta and R are the last values a setter accepted, and the starting values never change. |
| KalmanAlgebra.JosephIsShortForm | core/kalman_filter.py:184-185 | The Joseph form equals (I - K F)(P + Q), and P + Q less S K K'. |
| KalmanAlgebra.JosephQuad | core/kalman_filter.py:184-185 | The new variance in any direction, as the old one less a square and as a sum of two terms that cannot be negative. |
| KalmanAlgebra.StepKeepsDefiniteness | core/kalman_filter.py:180-185 | The step keeps semidefiniteness and definiteness and never raises the covariance in the semidefinite order. |
| KalmanAlgebra.MeasuredDirection | core/kalman_filter.py:180-185 | F P_new F' = R(S - R)/S < R. |
| KalmanAlgebra.ResidualShrinks | core/kalman_filter.py:178-183 | The corrected state leaves exactly the fraction R/S of the innovation. |
| KalmanAlgebra.DeterminantShrinks | core/kalman_filter.py:180-185 | det P_new = det(P + Q) R/S. |
| KalmanAlgebra.InformationForm | core/kalman_filter.py:180-185 | The inverse covariance gains F'F/R. |
| KalmanAlgebra.CompletingTheSquare | core/kalman_filter.py:176-185 | The one-bar cost is its least value plus a definite form around the corrected state. |
| KalmanObject.KalmanHedgeRatio.Create | core/kalman_filter.py:73-121 | Construction succeeds exactly for R > 0 and delta in (0, 1), whatever the starting covariance, starts with the given state, initial_cov times the identity and Q = delta/(1 - delta) times the identity, and is a valid filter exactly for initial_cov >= 0. |
| Kalman.SemidefiniteIffNonNegative | core/kalman_filter.py:97 | The starting covariance is semidefinite if and only if initial_cov is not negative. |
| KalmanObject.KalmanHedgeRatio.SetDeltaTo | core/kalman_filter.py:127-131 | A good delta is stored together with the Q for which (1 - delta) Q = delta; a bad one changes nothing. |
| KalmanObject.KalmanHedgeRatio.SetNoiseTo | core/kalman_filter.py:137-141 | A positive R is taken, any other value changes nothing. |
| KalmanObject.KalmanHedgeRatio.UpdateBar | core/kalman_filter.py:162-199 | The in-place update takes exactly the step the results above are about, and keeps the object valid. |
| KalmanObject.KalmanHedgeRatio.ResetState | core/kalman_filter.py:245-251 | Everything but the settings returns to the initial values. |
| KalmanObject.KalmanHedgeRatio.Fit | core/kalman_filter.py:201-227 | Unequal lengths are refused before anything changes; otherwise the object ends as after a reset and all bars, an empty series fails after the reset, and row i is the answer to bar i. |
| KalmanObject.FitRowReports | core/kalman_filter.py:209-217 | Row i holds beta, alpha, the variances and the warm flag after bars 0..i, and as spread what beta and alpha before bar i leave of y. |
| KalmanObject.FitHasNoLookahead | core/kalman_filter.py:201-227 | Row i of a fit is the same whatever bars and resets came before and whatever bars follow it. |
| TokenBuckets.TokenBucket.TryAcquire | core/bybit_traffic_controller.py:173-182 | A try refills, caps, and takes a token if there is one; the object stays valid. |
| TokenBuckets.KeepsValid | core/bybit_traffic_controller.py:173-182 | The token count stays in [0, burst]. |
| TokenBuckets.LevelIsLeastRoom | core/bybit_traffic_controller.py:173-182 | After any tries the level is the minimum, over all earlier starting points, of the room the rule "at most burst + rate × elapsed" leaves. |
| TokenBuckets.GrantedIffEveryWindowHasRoom | core/bybit_traffic_controller.py:173-182 | A try is granted if and only if it keeps every window of tries within burst + rate × elapsed. |
| TokenBuckets.RateIsBounded | core/bybit_traffic_controller.py:173-182 | In any interval of length T at most burst + rate × T tries succeed. |
| CircuitBreakers.Prune | core/bybit_traffic_controller.py:223-225 | The loop keeps exactly the error times after the cutoff, in order. |
| CircuitBreakers.PruningIsExact | core/bybit_traffic_controller.py:220-236 | What the pruned list answers at any later moment is what the unpruned list since the last success would. |
| CircuitBreakers.OpensExactlyAtThreshold | core/bybit_traffic_controller.py:220-236 | A closed breaker opens on an error if and only if the errors since the last success inside the window reach the threshold, the 429 threshold when this error is a 429. |
| CircuitBreakers.HalfOpenIsOpen | core/bybit_traffic_controller.py:220-260 | The probe flag is only ever set on an open breaker. |
| CircuitBreakers.AtMostOneProbe | core/bybit_traffic_controller.py:238-248 | While open, at most one arrival passes until on_success or force_open. |
| CircuitBreakers.ProbeIsFirstAfterRecovery | core/bybit_traffic_controller.py:238-248 | A probe passes exactly when some arrival comes at least the recovery time after the breaker last opened by itself. |
| CircuitBreakers.ForcedOpenHoldsBackOnlyIfRecent | core/bybit_traffic_controller.py:257-260 | After any history and a force_open, a probe passes if and only if some arrival comes at least the recovery time after the last automatic opening: force_open does not restart the clock. |
| CircuitBreakers.CircuitBreaker.Record | core/bybit_traffic_controller.py:220-236 | Recording an error takes the modelled step on the fields. |
| CircuitBreakers.CircuitBreaker.TryHalfOpen | core/bybit_traffic_controller.py:238-248 | The gate answers and changes the fields as modelled. |
| TTLCaches.TTLCache.Get | core/bybit_traffic_controller.py:275-284 | A read answers from the entry and deletes it when it has run out. |
| TTLCaches.TTLCache.Set | core/bybit_traffic_controller.py:286-288 | A store replaces the entry of its key only. |
| TTLCaches.TTLCache.Invalidate | core/bybit_traffic_controller.py:290-295 | Exactly the entries with the prefix go, all of them for an empty prefix. |
| TTLCaches.LazyIsIdeal | core/bybit_traffic_controller.py:268-295 | Lazy deletion cannot be told apart from an ideal timed map, for any history of reads, stores and invalidations. |
| TTLCaches.HitIsFresh | core/bybit_traffic_controller.py:275-288 | A hit is the newest store of its key, uncovered by an invalidation and no older than its ttl. |
| SingleFlight.JoinKeepsValid | core/bybit_traffic_controller.py:400-407 | Waiting or leading keeps: events belong to uncleaned leaders, leaders are registered, fired events are over, waiters will wake. |
| SingleFlight.LeaveKeepsValid | core/bybit_traffic_controller.py:517-520 | So does cleaning up, on every path. |
| TrafficController.EveryRunKeepsInv | core/bybit_traffic_controller.py:343-520 | In every interleaving: single-flight bookkeeping is consistent, the semaphore counts the requests inside it, every stored payload was produced for its key, cache and bucket are what their histories make of them, retries stay bounded. |
| TrafficAnswers.RunFollowsTrace | core/bybit_traffic_controller.py:343-511 | In every run the clock, the cache's history, the events the breaker heard, the times the bucket was tried, the known requests, and who has ended with what are functions of the schedule of actions alone: a pause, an ideal timed cache, the breaker, the last answer published for the key, the five seconds at the bucket, the executor's result and the number of its failures decide each answer. |
| TrafficAnswers.ReturnedIsAnswered | core/bybit_traffic_controller.py:420-433 | Once an executor has returned v, its request answers v in every later state, or is still writing v to the cache; with a ttl and a value it answers only after v was stored under its own key with its own ttl. |
| TrafficAnswers.ExecutorRuns | core/bybit_traffic_controller.py:470-502 | An executor raises at most four times for critical position protection and twice for any other group; the last time the request answers None, before that it backs off to try again; an executor that has returned is not run again. |
| TrafficAnswers.PausesAreKept | core/bybit_traffic_controller.py:184-190 | Nobody tries the bucket within 0.1 s of its last try, runs an executor again before one, two or four seconds and the jitter are over, or enters while max_concurrent requests are running or backing off. |
| TrafficProperties.OneLeaderPerKey | core/bybit_traffic_controller.py:400-433 | At most one uncleaned leader per cache key, _inflight holds exactly the keys of those leaders, and never more than max_concurrent requests are inside the semaphore. |
| TrafficProperties.NoLostWakeup | core/bybit_traffic_controller.py:401-404 | The event a waiter holds has fired or its leader is still to fire it. |
| TrafficProperties.LeavingFiresTheEvent | core/bybit_traffic_controller.py:410-424 | Every path on which a leader leaves sets its event and frees its key. |
| TrafficProperties.NoRequestIsStuck | core/bybit_traffic_controller.py:343-433 | From every reachable state, an unfinished request, its leader or a request inside the semaphore can come closer to its end, now or after some time. |
| TrafficProperties.EveryStepIsProgress | core/bybit_traffic_controller.py:343-511 | Every step brings its request closer to its end, except a try the bucket refuses before the deadline. |
| TrafficProperties.AtMostTwelveSteps | core/bybit_traffic_controller.py:343-511 | In any run a request takes at most twelve steps besides the tries the bucket refuses before the deadline. |
| TrafficProperties.LateTryEnds | core/bybit_traffic_controller.py:184-190 | The first try at or behind the deadline ends the request. |
| TrafficProperties.EveryAnswerWasProduced | core/bybit_traffic_controller.py:384-433 | Every value a request returns, from the cache, as a waiter or as a leader, was returned earlier by an executor run for the same key. |
| TrafficProperties.CacheHitIsFresh | core/bybit_traffic_controller.py:386-391 | In every run the cache answers like an ideal timed map, and a hit is no older than the ttl it was stored with. |
| TrafficProperties.OpenBreakerAdmitsOneProbe | core/bybit_traffic_controller.py:394-398 | In every interleaving at most one request passes an open breaker until an executor succeeds or the breaker is forced open. |
| TrafficProperties.BucketAdmitsExactly | core/bybit_traffic_controller.py:409-413 | A try before the deadline goes on to the semaphore if and only if it keeps every window of tries within 10 + rate × elapsed. |
| TrafficProperties.AdmissionsAreRateLimited | core/bybit_traffic_controller.py:409-413 | In any stretch of a run at most 10 + rate × span tries succeed. |
| TrafficStaleness.WaiterGetsTheLastPublished | core/bybit_traffic_controller.py:401-431 | A woken waiter returns the outcome of the last request for its key that published, or None if none did. |
| TrafficStaleness.LeaderPublishedIff | core/bybit_traffic_controller.py:410-431 | A leader whose event has fired has published its outcome if and only if it did not time out at the bucket and is not still writing to the cache. |
| TrafficStaleness.WaiterAgreesWithLeaderIff | core/bybit_traffic_controller.py:400-431 | A woken waiter gets its leader's outcome exactly when: the leader timed out at the bucket and nothing, or None, was published last for the key; or it did not, and it published last or whoever did got the same. |
| TrafficOldResult.WaiterCanGetAnOldResult | core/bybit_traffic_controller.py:184-190 | Not promised: under every configuration with a place in the semaphore there is a run, one the event loop can produce, in which a waiter gets a result of any age although no call asks for caching and no executor has returned since: others keep the bucket empty, its leader is refused at every try, gives up and publishes nothing. |
| TrafficRecovery.OpenForGoodIffDoomed | core/bybit_traffic_controller.py:238-260 | In every reachable state the breaker stays open in every continuation without a force_open if and only if it is open and doomed: nobody is inside the semaphore, every leader under way lacks an executor or cannot get a token before its deadline, and no new request can get to an executor, because the breaker is half-open or the semaphore has no place or there is neither a token nor a rate. |
| TrafficRecovery.DoomedForGood | core/bybit_traffic_controller.py:238-260 | From such a state on no executor returns a value, however long one waits and whoever asks. |
| TrafficRecovery.OthersCanClose | core/bybit_traffic_controller.py:238-255 | From every other reachable state a seamless run closes the breaker. |
| TrafficRecovery.FailedProbeIsLost | core/bybit_traffic_controller.py:484-502 | When the executor of a request raises for the last time while the breaker is half-open, the breaker is doomed if and only if no other request under way is hopeful: record_error leaves the probe flag set. |
| TrafficRecovery.ProbeCanBeLost | core/bybit_traffic_controller.py:463-511 | It happens: with the breaker enabled, a rate that is not negative and a place in the semaphore there is a run, one the event loop can produce, in which the probe's executor raises on every attempt and the breaker is doomed. |
| Backtest.SimulateTrades | backtest/engine.py:345-424 | The loop over flag, entry and capital produces exactly the trades found by looking ahead: the first bar that opens, its exit, the first partial exit between them, and so on behind the exit. |
| Backtest.TripShape | backtest/engine.py:345-424 | A round trip is one closing record, or one partial record and then the closing one; a position without an exit is closed at the last bar. |
| Backtest.TripConserves | backtest/engine.py:440-484 | The records of a round trip add up to the unsplit entry: quantities, fees and slippage exactly, and profit, funding and net as those of the whole position at the two exits weighted by the partial share. |
| BacktestRecords.RecordsTell | backtest/engine.py:345-424 | Every record of a fold tells of its two bars: entry and exit prices, times, scores and hedge ratio are those of the bar it was opened on and the bar it was closed on, long exactly for the long signal of the first, closed on a warm bar that says so (2 in part, 0 for good, with its reason) or at the last bar; each leg earns its price move, and fees, slippage and funding follow from the entry notional and the bars held. |
| BacktestRecords.TripCloses | backtest/engine.py:391-424 | A round trip is closed at the first warm bar behind its opening with signal 0, or at the last bar if there is none. |
| BacktestRecords.TripDivides | backtest/engine.py:370-390 | It is divided at the first warm bar with signal 2 up to its end, into the configured share of both legs and the rest, and closed as a whole if there is no such bar. |
| BacktestRecords.NoOpeningIsMissed | backtest/engine.py:353-369 | Each round trip opens at the first bar from the last exit on that is warm, has a signal other than 0 and 2, and whose first leg is worth min_position with the capital earned so far. |
| BacktestRecords.NoOpeningAfterLast | backtest/engine.py:353-369 | Behind the last round trip there is no such bar. |
| Backtest.TripsAreSequential | backtest/engine.py:345-424 | Each round trip opens at the first bar behind the previous exit that opens, sized with the starting capital plus the net profit of all earlier records. |
| Backtest.TripsDoNotOverlap | backtest/engine.py:345-424 | Every exit of an earlier round trip lies before every entry of a later one. |
| Backtest.TradesNameTheirPart | backtest/engine.py:460-484 | Every record of a fold carries the name of its part of the data. |
| Backtest.EntryIsCapped | backtest/engine.py:426-438 | No entry is larger than kelly × max_leverage × capital, whatever the volatility. |
| Backtest.EntryTargetsVolatility | backtest/engine.py:426-438 | An entry the leverage does not cap carries the targeted share of the capital per standard deviation of the spread, of which a millionth of the price is the least that counts; a capped one is exactly as large as the leverage allows; the hedge leg follows the hedge ratio. |
| Backtest.SpreadVolIs | backtest/engine.py:430-432 | That deviation is two per cent of the price when there are too few samples or it is below 1e-8. |
| BacktestRun.WalkForwardEngine.Run | backtest/engine.py:127-152 | All records of all folds, in and out of sample with the capital of their fold, and the running capital at the end; an earlier run leaves no trace. |
| BacktestRun.CapitalIsEarned | backtest/engine.py:127-152 | With compounding, the capital of a fold is the starting capital plus the net profit of every out-of-sample record so far if and only if that sum was at least twice the smallest position after every fold before it. |
| BacktestRun.OosRecordsEarnProfits | backtest/engine.py:141-150 | The out-of-sample records that the run returns for the first folds earn exactly the profits the capital was moved by. |
| BacktestRun.RecordsByPart | backtest/engine.py:127-152 | The records of a run that carry the number of a fold and the name of a part are the trades on the bars of that part of that fold, both parts with the capital of the fold, and there are no others. |
| BacktestRun.CapitalStays | backtest/engine.py:340-342 | Without compounding every fold trades with the starting capital. |
| BacktestRun.CompoundedIsLargest | backtest/engine.py:146-148 | The capital compounded fold by fold is the largest of: start plus all profits, and the floor plus the profits since some fold. |
| BacktestRun.CompoundedIsSum | backtest/engine.py:146-148 | It is start plus all profits if and only if that sum never fell below the floor after any fold. |
| BacktestRun.DailyPnl | backtest/engine.py:501-506 | Each day holds the net profit of the records that exit on it, and the days add up to the total net profit. |
| BacktestRun.DayIsExact | backtest/engine.py:502-505 | For a record of the fold the clamp to the last day never applies: the day is the one whose bars hold the exit. |
| BacktestRun.DaysCoverBars | backtest/engine.py:501-503 | The table of days is just long enough for the bars of the fold, and for one whole day. |
| Folds.BuildSplits | backtest/engine.py:154-171 | Exactly the segments with at least 50 training and 20 test bars become folds, each window being that of a segment, and an error if there is none; folds lie in disjoint segments in order. |
| Folds.SegmentsTile | backtest/engine.py:154-161 | The segments cover the series one behind the other, all but the last equally long. |
| Folds.SplitShape | backtest/engine.py:157-164 | A fold trains from the start of its segment on the whole part of train_ratio times its length, and tests from exactly purge + embargo bars later to its end. |
| Folds.BuildFolds | backtest/walk_forward.py:202-214 | The number of folds and each of their windows, anchored or rolling. |
| Folds.NoTestBarsNoEnd | backtest/walk_forward.py:206-213 | With zero test bars and enough bars for one window the guard holds after any number of rounds. |
| Folds.ValidatorTiles | backtest/walk_forward.py:202-214 | Each bar from the first test bar to the last is tested by exactly one fold, and fewer than test_periods bars are left over. |
| Folds.ValidatorKeepsApart | backtest/walk_forward.py:202-214 | Training ends exactly the embargo before testing starts, inside the series. |
| Folds.MakeFolds | backtest/walk_forward_optimizer.py:192-202 | The number of folds and each of their windows. |
| Folds.OptimizerShape | backtest/walk_forward_optimizer.py:192-202 | Each fold starts one step behind the last, a missing or zero step being a test window, tests the bars right behind those it trains on, and lies inside the series. |
| Folds.OptimizerOverlaps | backtest/walk_forward_optimizer.py:192-202 | Two test windows share a bar if and only if the step is smaller than a test window. |
| Folds.OptimizerGaps | backtest/walk_forward_optimizer.py:192-202 | A bar between the first and the last test bar is never tested if and only if the step is larger. |
| Folds.FitsIffCounted | backtest/walk_forward.py:205-206 | A window fits into the series exactly when it is among the counted ones: no further fold fits. |
| Folds.GridIsAllPicks | backtest/walk_forward_optimizer.py:204-208 | The grid holds exactly the ways to pick one value of each list. |
| Folds.GridInOrder | backtest/walk_forward_optimizer.py:204-208 | The picks come in the order of the lists, the last list varying fastest. |
| Folds.GridHasNoRepeats | backtest/walk_forward_optimizer.py:204-208 | No combination occurs twice when no list repeats a value. |
| Pagers.DownloadBackward | data/bybit_fetcher.py:179-256 | Against a server that returns the newest 200 bars of a range, newest first, the pager ends and returns every bar of start..end exactly once, ascending; it fails only if a request raises. |
| Pagers.DownloadForward | data/historical_fetcher.py:192-249 | Against a server that returns the oldest 1000 bars, the pager ends and returns every bar opening in [start, end) exactly once, ascending, and then the bar opening exactly at end unless the range is empty or the bars before it fill whole pages and close right before it. |
| Pagers.NewestPageIs | data/bybit_fetcher.py:187-239 | A page is the end of its range; what is before its oldest bar is still to come. |
| Series.TidyIsSeries | data/bybit_fetcher.py:250 | Sorting and dropping repeats turns any list of exactly the bars of an ascending series into that series. |
| Series.SameBarsSameSeries | data/bybit_fetcher.py:250-255 | Two ascending series with the same bars are equal. |
| MarketDataCaches.Download | data/market_data_cache.py:226-253 | A failing request ends the download with a gap-free prefix of the series from since on, of exactly a thousand bars for each request that came back; without failures it is all of it. |
| MarketDataCaches.MergeReplacesLast | data/market_data_cache.py:268-270 | Merging a download that starts at the newest cached bar replaces that bar and appends the rest. |
| MarketDataCaches.MarketDataCache.Refresh | data/market_data_cache.py:107-125 | A refresh writes and returns the merged series and touches no other file. |
| MarketDataCaches.MarketDataCache.Load | data/market_data_cache.py:92-105 | A file is refreshed only if asked for and stale or empty, a missing one is downloaded, and otherwise nothing is written. |
| MarketDataCaches.RefreshKeepsStretch | data/market_data_cache.py:255-273 | Cut short at any request or not, a refresh leaves an unbroken stretch of the exchange's series that starts at the same bar: unchanged if the first request fails, with a thousand bars for each request before a later one that fails or all there are, and everything without a failure. |
| MarketDataCaches.EvolutionKeepsSynced | data/market_data_cache.py:255-273 | While the exchange appends bars and revises its newest one, only the newest cached bar can be out of date. |
| MarketDataCaches.RefreshIsFullDownload | data/market_data_cache.py:107-125 | An error-free refresh leaves what one full download from the first cached bar would return. |
| MarketDataCaches.RunThenRefreshIsComplete | data/market_data_cache.py:107-125 | After any sequence of growth and refreshes, with any failures, the next error-free refresh leaves the complete series from the first cached bar on, which never changes. |
| MarketDataCaches.RefreshedAscends | data/market_data_cache.py:185-188 | From an ascending cache a refresh, cut short or not, makes an ascending one without repeats, so that tidying it before the write changes nothing. |
| Series.TidyAscends | data/market_data_cache.py:185-188 | Whatever is written, keeping the last bar of each time and sorting gives an ascending series of exactly the last bars. |
| MarketDataCaches.MarketDataCache.Write | data/market_data_cache.py:185-188 | Only the written file changes, and every file stays ascending and free of repeats. |
| Persistence.ConfirmedIsLastReached | core/volatility_regime.py:197-214 | For any labels, the confirmed one is the label of the most recent run that reached the required length, the initial one if there was none. |
| Persistence.LastReachedIsUnique | core/volatility_regime.py:197-214 | There is only one such label. |
| Persistence.CounterCountsRun | core/volatility_regime.py:197-209 | The candidate counter is the length of the run that ends the labels. |
| Persistence.SwitchesAreApart | core/volatility_regime.py:197-214 | Two switches are at least the required number of labels apart. |
| VolatilityRegimes.VolatilityRegime.Update | core/volatility_regime.py:85-111 | The regime after each return is a function of the whole history of returns, although only a window is kept. |
| VolatilityRegimes.VolatilityRegime.UpdateFromPrices | core/volatility_regime.py:113-135 | The return fed to it is the relative change of the spread, zero without a usable previous one. |
| VolatilityRegimes.VolatilityRegime.Reset | core/volatility_regime.py:175-181 | A reset leaves no trace of the history. |
| VolatilityRegimes.RegimeIsLastReached | core/volatility_regime.py:85-111 | The regime is the label of the most recent run of hysteresis_bars equal labels. |
| VolatilityRegimes.LabelledFromTenth | core/volatility_regime.py:100-101 | Every return from the tenth on is classified, but none ever with a lookback below ten: then the regime stays NORMAL. |
| VolatilityRegimes.LabelSays | core/volatility_regime.py:103-195 | A classified return that reaches m of the n earlier returns in the window is EXTREME if and only if 100 m >= extreme_pct n, HIGH if and only if it is not that and 100 m >= high_pct n, LOW if and only if it is neither and 100 m <= low_pct n, and else NORMAL. |
| VolatilityRegimes.ExtremesBlock | core/volatility_regime.py:152-214 | When each of the last hysteresis_bars returns reaches extreme_pct, the regime is EXTREME and entries are blocked under every blocking level. |
| VolatilityRegimes.LabelIsMonotone | core/volatility_regime.py:103-195 | Of two returns ranked against the same samples the larger never gets the calmer label, whatever the thresholds. |
| VolatilityRegimes.AlternationIsNeverConfirmed | core/volatility_regime.py:197-214 | Labels that never repeat are never confirmed when two bars are needed: alternating HIGH and EXTREME leaves the initial regime. |
| VolatilityRegimes.BlockedIffLastReached | core/volatility_regime.py:152-158 | Which of the four labels of the most recent run of hysteresis_bars equal labels, NORMAL before there is one, allow entries under each of the four blocking levels. |
| VolatilityRegimes.AlternationLeavesEntriesOpen | core/volatility_regime.py:152-214 | So labels that never repeat leave entries open when two bars are needed and NORMAL does not block. |
| TrendRegimes.TrendRegimeDetector.Update | core/regime_detector.py:144-162 | Each answer is a function of the bars since the last reset, UNKNOWN during the warm-up. |
| TrendRegimes.TrendRegimeDetector.ClassifySeries | core/regime_detector.py:103-127 | The batch answer for each bar is the online one for the bars up to it, whatever the object saw before. |
| TrendRegimes.RegimeIsLastReached | core/regime_detector.py:266-312 | Although each raw label depends on the regime confirmed before it, the regime is the label of the most recent run of min_persistence equal raw labels. |
| TrendRegimes.NeverUnknownAgain | core/regime_detector.py:266-312 | A confirmed regime never gives way to UNKNOWN without a reset. |
| TrendRegimes.SwitchesAreApart | core/regime_detector.py:266-312 | Two changes of the answer are at least min_persistence bars apart. |
| TrendRegimes.ChallengerBeatsBonus | core/regime_detector.py:266-302 | A raw label other than the confirmed regime scores at least the bonus more than that, and as much as any other; if every other regime scores less than the bonus more, the confirmed one is kept; while nothing is confirmed the highest score wins. |
| TrendRegimes.ScoreParts | core/regime_detector.py:276-296 | What each indicator adds to which score: with positive thresholds, the three scores are made of nothing but how far adx, autocorrelation, the Hurst exponent and the volatility rank lie above or below their levels, and 1.5 for a breakout when both its thresholds are reached. |
| TrendRegimes.ScoresMove | core/regime_detector.py:276-296 | Stronger indicators never raise the ranging score and never lower the trending and breakout scores; autocorrelation and the Hurst exponent leave the breakout score alone, the volatility rank the other two. |
| TrendRegimes.LabelledFromWarmUp | core/regime_detector.py:157-158 | Raw labels start with the bar that ends the warm-up, one for each bar from there on. |
| SpreadMonitors.SpreadMonitor.Update | core/spread_monitor.py:118-225 | Alerts and counters after each bar are functions of the whole history since the last reset. |
| SpreadMonitors.SinceCrossIsDistance | core/spread_monitor.py:242-253 | The counter recursion gives the distance to the last zero crossing in the unbounded history. |
| SpreadMonitors.DistanceIsUnique | core/spread_monitor.py:242-253 | No other number is that distance. |
| SpreadMonitors.CounterIsDistance | core/spread_monitor.py:242-253 | The monitor's counter is that distance exactly when its window holds two bars, or the newest bar crosses or is the first. |
| SpreadMonitors.BreakIffExtremeFor | core/spread_monitor.py:141-175 | A cointegration break is reported if and only if the last cointegration_break_bars bars were all past the warm-up and outside the control limit. |
| SpreadMonitors.BreakCountsRun | core/spread_monitor.py:152-175 | The number a break carries is the length of the whole run of such bars. |
| SpreadMonitors.NewestBarAlerts | core/spread_monitor.py:152-193 | Past the warm-up a drift is reported if and only if the z-score is outside the control limits, a slow half-life and a divergence if and only if the value exceeds its limit, each with that value. |
| SpreadMonitors.StuckIff | core/spread_monitor.py:195-205 | For every window size: a stuck position is reported if and only if the warm-up is over and, with a window of two bars or more, there are more than stuck_bars_threshold bars and none of the last that many crosses zero; with a narrower window, if the threshold is not positive. |
| SpreadMonitors.NarrowWindowMissesStuck | core/spread_monitor.py:242-253 | Past the warm-up the alert is right if and only if the window holds two bars, or the threshold is not positive, or the spread is not stuck. |
| Drawdowns.DrawdownFigures | backtest/multi_strategy_backtester.py:234-258 | One pass computes the maximum of eq[i] - eq[j] over all i <= j, the percentage of the first day that attains it, and the largest number of days below the peak in any stretch without a strict new high. |
| Drawdowns.PctIsLargestIff | backtest/multi_strategy_backtester.py:250-254 | On every curve: the reported percentage is the largest of all days if and only if no day under a lower positive peak than that of the first worst day falls by a larger share of it (no day falls from a positive peak at all, when that of the worst day is not positive). |
| Drawdowns.PctIsLargestWithoutNewHigh | backtest/multi_strategy_backtester.py:250-254 | So it is on a curve that starts above zero and sets no new high between its first fall and the first worst day. |
| Drawdowns.PctIsNotLargest | backtest/multi_strategy_backtester.py:250-253 | The reported percentage need not be the largest one. |
| AlignBars.Align | execution/bybit_warmup_fetcher.py:226-257 | The pairs are those of the exact match, else the first bar of the dictionary within 30 seconds, in the order of the first feed. |
| AlignBars.MatchedIffNear | execution/bybit_warmup_fetcher.py:226-251 | A bar is matched if and only if the other feed has one within 30 seconds, with one that is, at the same time if there is one, and the last of its time. |
| AlignBars.MatchIsFirst | execution/bybit_warmup_fetcher.py:237-249 | Without a bar of the same time the match has the time of the first bar of the other feed within 30 seconds. |
| AlignBars.PairsAreMatched | execution/bybit_warmup_fetcher.py:240-251 | Exactly the matched bars of the first feed are in the pairs, each with its match. |
| AlignBars.IndexHoldsLast | execution/bybit_warmup_fetcher.py:238 | The dictionary holds each time once, with its last bar. |
| AlignBars.ApartIsOneToOne | execution/bybit_warmup_fetcher.py:226-251 | If the bars of the first feed are more than 60 seconds apart, the pairs keep the order and use no bar twice. |
| AlignBars.OneToOneIffApart | execution/bybit_warmup_fetcher.py:226-251 | More than 60 seconds is the exact bound: closer neighbours can be matched with the same bar. |
| AlignBars.OnlyCandidate | execution/bybit_warmup_fetcher.py:243-249 | If the bars of the other feed are more than 60 seconds apart, the match is the only bar within the tolerance. |
| JobStores.JobStore.EvictDone | core/store.py:424-445 | Below max_total nothing happens; otherwise exactly the oldest finished jobs beyond keep_last are deleted, and their number is returned. |
| JobStores.EvictionIsSafe | core/store.py:424-445 | A queued or running job is never deleted; of the jobs that are done or have failed none is deleted that is newer than one that stays, and exactly min(keep_last, their number) stay. |
| MemoryStores.MemoryStore.Get | core/store.py:109-114 | A read answers from the entry and deletes it when it has run out. |
| MemoryStores.MemoryStore.All | core/store.py:123-128 | A listing deletes what has run out and shows the rest. |
| MemoryStores.LazyIsIdeal | core/store.py:99-134 | Whether and when expired entries are deleted cannot be told from any answer: the store answers like an ideal timed map, for any history of reads, stores, deletions, listings and clears. |
| MemoryStores.ListingIsIdeal | core/store.py:123-128 | A listing shows exactly the keys that would answer, with their answers. |
| MemoryStores.WithoutTtlStays | core/store.py:116-118 | An entry stored without a time to live, or with zero, answers until it is replaced or removed. |

## Left out

- Floating-point rounding and the `round(...)` calls: arithmetic is over reals, so `KalmanObject` and `Backtest` prove what exact arithmetic does.
- An object for the controller itself: its fields change across the awaits of many requests at once, so `request` is a machine over values with one action per await, while its four mechanisms are classes. What is lost is the form, not a behaviour: the machine allows every order of actions.
- The locks inside the token bucket and the cache: an operation under its lock is one action.
- Cancellation of a task inside `request`, the counters of `TrafficStats`, and the hashing of cache keys (keys are taken as given and do not collide).
- The order in which the semaphore wakes its waiters: the machine allows every order.
- The `state` text of the breaker: the model keeps the two flags it is made from.
- Backtest.SimulateTrades: the standard deviation behind the position size is a parameter of each bar; the signal generator and the spread engine that make the bars are not part of this model.
- BacktestRun.WalkForwardEngine.Run: folds are given with their signals; how they are fitted, and the Sharpe, Sortino, Calmar and omega figures, are left out.
- Folds.BuildFolds: with zero test bars and enough data the source does not terminate (`Folds.NoTestBarsNoEnd`); the precondition excludes exactly that.
- The best-parameter tables of the optimizer and the Monte Carlo resampling of the validator.
- Pagers.DownloadBackward: the exchange's series does not change while one range is downloaded, and a page holds the newest bars of its range.
- MarketDataCaches.Download: the series does not change during one download; between downloads it may grow and its newest bar may change.
- MarketDataCaches.MarketDataCache.Load: staleness is a parameter, and a file is a map entry; parquet, paths and time zones are left out.
- TrendRegimes.ScoreParts: thresholds that are not positive, for which the code divides all the same, are not described.
- TrendRegimes.TrendRegimeDetector.Update: ADX, autocorrelation, Hurst exponent and volatility rank are uninterpreted functions of the bars, and missing highs and lows are filled in by the caller.
- SpreadMonitors.SpreadMonitor.Update: alert callbacks, texts and time stamps.
- JobStores.JobStore.EvictDone: every job is stored under its own id, and creation times are integers.
- The SQLite and Redis stores.
- Order routers, web sockets, the live runner, dashboards, notifications, reports and statistical tests.
