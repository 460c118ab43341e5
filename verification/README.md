# Trading core, modelled and proved

A Dafny model of the stateful core of an automated trading system: building price bars from ticks, sharing state
between processes, caching, rate limiting, a simulated broker, the order pipeline, stream reading and backtest metrics.
Objects the program updates in place are classes here; each method is proved to do to the object's value what a
specification function says, and the theorems are about those functions over every run.

| file | what it models |
|---|---|
| BarWindow, BarSummary | time windows and the grouping of summaries by window |
| MinuteBarCollector, DataAggregator | the online and the offline bar builder, and their agreement |
| Indicators | exponential averages, the MACD line and the relative strength index |
| SharedState | optimistic updates under a short Redis lock, as atomic steps of many processes |
| TimeSeriesCache | the byte-budgeted cache with its separate bounded time index |
| RateLimiter, SlidingWindowLog, TokenBucket | the local limiter and the two Lua scripts |
| Ledger, KiwoomSimulator | the simulator's money as values, and its objects |
| OrderBatch, OrderBatchAggregator | batches and the account of where every order goes |
| OrderWorkerPool, CircuitBreaker, OrderExecutor | retries, the gate in front of the pipeline, the pending map |
| RedisStreamManager | chunked reading and per-stock conflation |
| BacktestResult | one-pass maximum drawdown |
| Wrappers, Sequences | an optional value; counting facts |

Time is an integer, prices and Decimals are exact reals. `dafny verify dfyconfig.toml` checks everything.

## Where the code differs from what it says

Each of these is kept as the code has it, and stated by the member named.

- The circuit breaker is documented to count consecutive failures; it counts all failures since its last recovery
  (`CircuitBreaker.NotConsecutive`).
- The batch timer drops the first batch it makes (`OrderBatchAggregator.OrderBatchAggregator.TimerFires`,
  `OrderBatchAggregator.TimerDiscardsIff`); simple batching drops the orders of the other side
  (`OrderBatchAggregator.LosesNothingIff`).
- The cache is documented to evict the least recently used entry; reading an entry in a range and overwriting it do not
  count as use (`TimeSeriesCache.OrderIsByUse`).
- Lowering a local limit and raising it again forgets grants; the window bound survives exactly the sequences of limits
  without that (`RateLimiter.BoundKeptIff`).
- Position "$" is documented as reading from the newest message on; without blocking it reads nothing, ever
  (`RedisStreamManager.LatestReadsNothing`).
- When every worker waits to put a retry into a full queue, the pool stands still until the scaling loop adds a worker,
  and for good once it has its maximum of workers or does not scale (`OrderWorkerPool.StuckIff`,
  `OrderWorkerPool.HaltedIff`); when submissions can bring that about is `OrderWorkerPool.DeadlockIff` and
  `OrderWorkerPool.HaltIff`.
- A refused request renews the token bucket's key, which for windows above a minute postpones admissions
  (`TokenBucket.RejectionsInvisibleIff`).
- What an execution event reports as unfilled has no influence on when an order leaves the pending map
  (`OrderExecutor.UnfilledNeverMatters`); trying a pending order's id again drops that order as it is
  (`OrderExecutor.LeaveTerminalIff`).
- One pass over an equity curve that falls below zero understates the maximum drawdown
  (`BacktestResult.OnePassRightIff`).
- The relative strength index at a bar leaves out that bar's own change (`Indicators.RsiLagsOneBar`).
- A buy at a negative price that cannot open a position keeps the cash it took (`Ledger.SubmitConserves`).

## Model

| member | source | states |
|---|---|---|
| DataAggregator.AggregationMatchesCollector | src/services/data_aggregator.py:106-247 | For one stock, any time-ordered ticks with any timer checks in between, and any collector interval dividing the target: aggregating the collector's own bars gives the same windows and open/high/low/close/volume as the collector run at the target interval; the two independently written builders agree |
| BarSummary.RunsCoarsen | src/services/data_aggregator.py:110-143 | Grouping by fine windows and then by coarser ones equals grouping by the coarser ones at once |
| BarSummary.RunsIncrease | src/services/data_aggregator.py:110-143 | Groups of time-ordered items come in strictly increasing windows |
| BarSummary.RunsCover | src/services/data_aggregator.py:110-143 | Every window that holds an item has a group |
| BarSummary.RunSummarisesWindow | src/services/data_aggregator.py:193-247 | Each group carries the first open, last close, extreme high and low, and total volume of exactly its window's items |
| BarSummary.RunsOnce | src/services/data_aggregator.py:110-143 | Groups are exactly the non-empty windows, in order, each summarising precisely its items |
| BarWindow.WindowIsFloor | src/services/data_aggregator.py:168-191 | For intervals dividing an hour, and for a day, aligning the clock fields is rounding down on the whole time line |
| BarWindow.WindowHolds | src/services/data_aggregator.py:168-191 | A window holds its timestamp, windows follow time, and a later stamp shares the window exactly until its end |
| BarWindow.WindowsNest | src/services/data_aggregator.py:168-191 | Fine windows nest in coarse ones: aligning twice is aligning once |
| MinuteBarCollector.MinuteBar.constructor | src/services/minute_bar_collector.py:273-284 | A bar opened by a tick is the summary of that single trade |
| MinuteBarCollector.MinuteBar.Update | src/services/minute_bar_collector.py:64-79 | A trade extends the summary: first open, latest close, extremes, added volume and count |
| MinuteBarCollector.MinuteBarCollector.constructor | src/services/minute_bar_collector.py:125-150 | No bar is active; an empty interval list means 1, 5, 10, 30 and 60 minutes |
| MinuteBarCollector.MinuteBarCollector.UpdateBar | src/services/minute_bar_collector.py:262-310 | One interval of one tick: the slot moves as its own automaton says and every other slot is untouched, no bar object shared |
| MinuteBarCollector.MinuteBarCollector.UpdateBars | src/services/minute_bar_collector.py:259-310 | A tick reaches every configured interval of its stock as often as it is configured, and nothing else |
| MinuteBarCollector.MinuteBarCollector.CheckCompletedBars | src/services/minute_bar_collector.py:312-322 | The timer completes exactly the bars whose end has come |
| MinuteBarCollector.MinuteBarCollector.CompleteBar | src/services/minute_bar_collector.py:324-348 | A completed bar leaves the active ones, is queued once, and disturbs no other slot |
| MinuteBarCollector.MinuteBarCollector.CompleteAllBars | src/services/minute_bar_collector.py:350-354 | Stopping completes every bar |
| MinuteBarCollector.SlotInvHolds | src/services/minute_bar_collector.py:259-354 | After any time-ordered history a slot's bars, the active one included, are the runs of its trades, and completed windows lie in the past |
| MinuteBarCollector.TickStep | src/services/minute_bar_collector.py:262-310 | A trade not older than anything seen either joins the active bar or opens the next window |
| MinuteBarCollector.BarsAfterTick | src/services/minute_bar_collector.py:262-310 | A tick leaves earlier bars as they were and keeps bars aligned, in order and disjoint |
| MinuteBarCollector.TradesInOrder | src/services/minute_bar_collector.py:152-174 | Time-ordered ticks fall into windows in order |
| MinuteBarCollector.CollectorGroupsTrades | src/services/minute_bar_collector.py:259-354 | Whatever the timer does, the flushed bars are exactly the windows that hold trades, each once, in order, each summarising precisely its trades |
| MinuteBarCollector.TicksCounted | src/services/minute_bar_collector.py:259-354 | For any ticks in any order with any timer checks: every tick is counted in exactly one bar, no volume is lost, and every bar has its slot's length |
| MinuteBarCollector.TimerCloses | src/services/minute_bar_collector.py:312-322 | After a timer check no ended bar is active, a bar that has not ended is untouched, and no bar is lost |
| DataAggregator.AggregateBars | src/services/data_aggregator.py:84-146 | The one-pass loop yields one result per group of the sorted bars; nothing for empty input |
| DataAggregator.SortedSorts | src/services/data_aggregator.py:110 | Sorting by start time yields an ordered permutation |
| DataAggregator.OrderedUnique | src/services/data_aggregator.py:110 | With distinct start times the ordered arrangement is unique |
| DataAggregator.SortedStable | src/services/data_aggregator.py:110 | Bars that start together stay in the order given |
| DataAggregator.ChunksPartition | src/services/data_aggregator.py:110-143 | Groups partition the bars in order, none lost or repeated, each inside one window |
| DataAggregator.ChunksAreRuns | src/services/data_aggregator.py:110-143 | The aggregator's groups are the runs of the bars labelled by target window |
| DataAggregator.AggregatedIsRuns | src/services/data_aggregator.py:84-247 | An aggregation of any bars in any order is the runs of the sorted bars |
| DataAggregator.ResultsAreWindows | src/services/data_aggregator.py:84-247 | Results come in strictly increasing windows and each summarises exactly the input bars of its window |
| DataAggregator.ResultDescribed | src/services/data_aggregator.py:84-247 | Each result, whatever the bars and their order, is told from the unsorted input bars of its window: start, open and stock of an earliest, end and close of a latest, tight extremes, their number and volume; the volume-weighted price is given exactly for a positive volume and times the volume is the sum of close times volume; three typical prices are high, low and close together |
| DataAggregator.GroupDescribed | src/services/data_aggregator.py:193-247 | The same of one group, in whatever order its bars come |
| DataAggregator.TurnoverPermutes | src/services/data_aggregator.py:222-229 | The sum of close times volume depends on which bars there are, not on their order |
| DataAggregator.AggregationConserves | src/services/data_aggregator.py:193-247 | Total volume and bar count are conserved, whatever the input |
| DataAggregator.AggregationPermutes | src/services/data_aggregator.py:110 | For distinct start times the result does not depend on the input order |
| DataAggregator.GroupEnveloped | src/services/data_aggregator.py:215-219 | If each bar's range holds its open and close, so does each result's |
| DataAggregator.GroupVwap | src/services/data_aggregator.py:222-229 | The volume-weighted price exists exactly when something traded, and lies between the low and the high when every bar closes inside its range and no volume is negative |
| Indicators.CalculateEma | src/services/data_aggregator.py:295-342 | One value per bar, none before the first full period, then the recursive average |
| Indicators.EmaBetween | src/services/data_aggregator.py:328-341 | An exponential average stays within any bounds of the prices up to its bar |
| Indicators.EmaAffine | src/services/data_aggregator.py:328-341 | Scaling and shifting all prices scales and shifts the average |
| Indicators.EmaWeights | src/services/data_aggregator.py:328-341 | The first average weighs the first period's prices alike; each later one weighs its price twice and the average before it period less one times, out of period plus one |
| Indicators.CalculateMacdLine | src/services/data_aggregator.py:461-475 | The line is the difference of the two averages exactly where both exist |
| Indicators.MacdShiftInvariant | src/services/data_aggregator.py:465-475 | The MACD line does not see a shift of all prices and scales with them |
| Indicators.CalculateRsi | src/services/data_aggregator.py:387-442 | One value per bar, each equal to the index of the smoothed averages of the changes before it |
| Indicators.RsiIsShare | src/services/data_aggregator.py:429-433 | The index is 100 times the share of gains in all changes, between 0 and 100, and 100 when there was no loss |
| Indicators.SmoothedWeights | src/services/data_aggregator.py:421-441 | The first smoothed average weighs the first period's changes alike; each later one weighs its change once and the average before it period less one times, out of period |
| Indicators.ChangesSplit | src/services/data_aggregator.py:405-415 | Each price change is a gain or a loss, neither negative |
| Indicators.RsiInRange | src/services/data_aggregator.py:387-442 | The index is defined from the bar after the first full period of changes on, and lies between 0 and 100 |
| Indicators.RsiLagsOneBar | src/services/data_aggregator.py:428-439 | The value at a bar does not depend on that bar's price: the average is updated only after the value is stored |
| Indicators.AveragesNonNegative | src/services/data_aggregator.py:408-439 | Both smoothed averages are never negative, so the index never divides by zero |
| SharedState.NoLostUpdate | src/cache/shared_data.py:120-164 | Under every interleaving of any number of processes, crashes included, if no lock expires under a live holder: the store is the initial one with the committed updates applied one after another in commit order (so no update is lost, even when values recur), and at most one task per key is between acquire and release |
| SharedState.ExactlyOnce | src/cache/shared_data.py:136-164 | A call that returned took effect exactly once and reports the value it left; a call that raised before its write took no effect |
| SharedState.EndsIff | src/cache/shared_data.py:137-164 | In every run, told from its actions and the stored values alone: a call raises exactly when it has read five times and each of these passes ended without the lock or with another value inside it; it returns exactly when its last pass found the value it had read, and then with that value's update; it is due to read again exactly after fewer than five passes, all failed |
| SharedState.LeftAlone | src/cache/shared_data.py:137-164 | From every reachable state in which the key's lock is free a call about to read, whatever its attempt number, can go on step by step when left alone: it returns the update of the value stored then, stores it, takes effect once and gives the lock back |
| SharedState.CommitsGrow | src/cache/shared_data.py:150-158 | The commit order only ever grows along a run |
| SharedState.RealTimeOrder | src/cache/shared_data.py:136-164 | A call that took effect before another began precedes it in the commit order: the object is linearizable |
| SharedState.InvStep | src/cache/shared_data.py:136-164 | Every atomic step of every process keeps the whole invariant |
| SharedState.OneHolder | src/cache/shared_data.py:374-409 | Two tasks are never both inside the lock of one key |
| SharedState.LocksHeldStep | src/cache/shared_data.py:411-430 | Set-if-absent, the prefix test of release and the separate delete keep holder and stored lock in agreement, without assuming anything of process names |
| SharedState.OnlyReleaseFrees | src/cache/shared_data.py:374-430 | A lock leaves its key only by the release of the task that took it or by expiring; a crash leaves it standing |
| SharedState.WriteApplies | src/cache/shared_data.py:153-157 | The write inside the lock applies the updater to the value stored at that very moment |
| SharedState.EarlyExpiryLosesUpdate | src/cache/shared_data.py:374-430 | The assumption is needed: for every updater that moves a value twice in a row there is a run in which one lock expires under its holder and an update is lost |
| TimeSeriesCache.TimeSeriesCache.constructor | src/services/timeseries_cache.py:82-108 | An empty cache with no hits and misses |
| TimeSeriesCache.TimeSeriesCache.PutSingle | src/services/timeseries_cache.py:190-258 | Storing fails exactly when the item alone exceeds the budget; otherwise the shortest oldest prefix that makes room is gone, an overwritten key keeps its place in the eviction order, the counted bytes stay the sum of the stored sizes and within the budget, and the stamp is indexed |
| TimeSeriesCache.TimeSeriesCache.MakeRoom | src/services/timeseries_cache.py:222-229 | The eviction loop stops, removes exactly the oldest prefix needed, and fits exactly when the item can fit at all |
| TimeSeriesCache.TimeSeriesCache.EvictLru | src/services/timeseries_cache.py:409-423 | Exactly the oldest entry goes, if there is one |
| TimeSeriesCache.TimeSeriesCache.RemoveEntry | src/services/timeseries_cache.py:425-441 | A removed entry gives back exactly its size; its stamp stays indexed |
| TimeSeriesCache.EvictionIsLeast | src/services/timeseries_cache.py:222-229 | The evicted prefix makes room whenever the item alone fits, and no shorter prefix does |
| TimeSeriesCache.TimeSeriesCache.UpdateTimeIndex | src/services/timeseries_cache.py:260-300 | The series' index gains the stamp and no other index changes |
| TimeSeriesCache.InsertStamp | src/services/timeseries_cache.py:273-300 | Inserting into a bounded sorted index keeps it the sorted list of the 10000 largest stamps stored |
| TimeSeriesCache.InsertKeepsLargest | src/services/timeseries_cache.py:281-300 | Placing a new stamp in order and dropping the smallest of a full index is right even for stamps already dropped |
| TimeSeriesCache.LargestUnique | src/services/timeseries_cache.py:273-300 | The index is determined by the set of stamps ever stored since the last clear |
| TimeSeriesCache.TimeSeriesCache.Get | src/services/timeseries_cache.py:302-349 | A hit answers the stored value and makes it newest, an expired entry is removed and missed, a missing one is missed |
| TimeSeriesCache.TimeSeriesCache.Filter | src/services/timeseries_cache.py:383-392 | The early-stopping scan returns the in-range stamps cut to the limit |
| TimeSeriesCache.TimeSeriesCache.Collect | src/services/timeseries_cache.py:394-407 | Each stored, unexpired stamp is answered once and touched, every other lookup is a miss, and the eviction order does not change |
| TimeSeriesCache.TimeSeriesCache.GetRange | src/services/timeseries_cache.py:371-407 | A range query answers the values of exactly the live stamps of the index in range, in time order; hits and misses add up to the stamps looked up, and an unknown series is one miss |
| TimeSeriesCache.InRangeExact | src/services/timeseries_cache.py:383-392 | The selected stamps are exactly the indexed ones within the bounds, in order |
| TimeSeriesCache.LiveExact | src/services/timeseries_cache.py:394-405 | The answered stamps are exactly the selected ones that are stored and unexpired, in order and once each |
| TimeSeriesCache.LimitKeepsFirst | src/services/timeseries_cache.py:383-392 | A limit of n keeps the first n selected stamps; none and zero keep all, a negative one keeps one |
| TimeSeriesCache.UnlimitedAnswer | src/services/timeseries_cache.py:371-407 | Against a plain map: an unlimited query answers in time order and once each exactly the stored, unexpired stamps in range that the index lists; the index lists all stamps while there are at most 10000, and else misses only smaller ones |
| TimeSeriesCache.AllListed | src/services/timeseries_cache.py:273-300 | While no more than 10000 stamps were stored the index lists them all |
| TimeSeriesCache.TimeSeriesCache.Put | src/services/timeseries_cache.py:160-188 | A list leaves what storing its items one after another leaves, and succeeds exactly when each item fits on its own |
| TimeSeriesCache.TimeSeriesCache.CleanupExpired | src/services/timeseries_cache.py:470-490 | Exactly the expired entries go; the rest keep their order |
| TimeSeriesCache.TimeSeriesCache.Clear | src/services/timeseries_cache.py:492-497 | Entries and index are emptied together |
| TimeSeriesCache.HoldsWhatWasPut | src/services/timeseries_cache.py:160-490 | After any run of puts, single and range queries, cleanups and clears: what is stored under a key is what was put there last, with the time and lifetime of that put, exactly while no put has evicted it, no single query or cleanup has found it outlived and nothing was cleared |
| TimeSeriesCache.AnswersIff | src/services/timeseries_cache.py:323-349 | After any run a single query answers a value exactly when that put is still in force and now less its time is at most its lifetime (the default for none or zero); reading changes neither |
| TimeSeriesCache.QueryAnswersIff | src/services/timeseries_cache.py:394-407 | A range query answers, in order, exactly those of the stamps it looks up of which the same holds |
| TimeSeriesCache.OrderIsByUse | src/services/timeseries_cache.py:222-349 | After any run the eviction order lists the stored keys by last use, a use being an answered single query or a put that brings the key in; overwriting in place and range reads do not count |
| TimeSeriesCache.EvictsLeastRecentlyUsed | src/services/timeseries_cache.py:222-423 | So whatever a put evicts was used before everything it leaves |
| RateLimiter.RateLimiter.CheckSlot | src/api/rate_limiter.py:144-159 | The locked check: stale stamps go and the wait is what the specification says |
| RateLimiter.RateLimiter.RecordGrant | src/api/rate_limiter.py:165-167 | The grant is recorded after the sleep |
| RateLimiter.RateLimiter.UpdateRateLimit | src/api/rate_limiter.py:246-258 | Changing the limit keeps the newest stamps that fit the new deque |
| RateLimiter.DecidesLikeUnboundedLog | src/api/rate_limiter.py:142-167 | Over every run, limit changes included, each grant whose look-back the deque still vouches for is given no earlier than an unbounded log would allow, and waits for exactly that time: the later of its check and the limit-th previous grant plus the window |
| RateLimiter.RaisesFirstVouched | src/api/rate_limiter.py:246-254 | As long as no raise comes after a lowering the deque vouches for every grant, and while the limit only rises nothing is lost from it |
| RateLimiter.WindowBound | src/api/rate_limiter.py:142-167 | In a run in which no raise of the limit comes after a lowering, no half-open window of the configured length holds more grants than the limit its last grant was checked against |
| RateLimiter.LowerThenRaiseBreaksBound | src/api/rate_limiter.py:246-258 | For every limit, lower limit and limit raised above that: lowering and raising at once lets limit + raised - lower grants through at one instant, more than either allows |
| RateLimiter.DipBreaksBound | src/api/rate_limiter.py:246-254 | Whatever limits come before and after, requests can use up the limit before a lowering and then what the next raise adds, at one instant |
| RateLimiter.BoundKeptIff | src/api/rate_limiter.py:142-254 | For any sequence of limits: every run through it keeps the window bound exactly when no raise comes after a lowering (or the window is empty) |
| RateLimiter.Burst | src/api/rate_limiter.py:142-167 | While the deque has room any number of grants come at one instant |
| SlidingWindowLog.SlidingWindowLog.Eval | src/cache/distributed_rate_limiter.py:71-92 | The script's new set and answer, key expiry included, are those of the specification |
| SlidingWindowLog.CountsExactly | src/cache/distributed_rate_limiter.py:77-86 | The set counted is the set of admissions still in the window; expiring the key one second after the window changes no decision |
| SlidingWindowLog.AdmitsExactly | src/cache/distributed_rate_limiter.py:71-92 | A call is admitted exactly when fewer different admitted stamps than the maximum lie in its window |
| SlidingWindowLog.AdmissionsSpaced | src/cache/distributed_rate_limiter.py:71-92 | With stamps that never repeat, or a maximum of one, an admission comes at least a window after the one maximum places before it |
| SlidingWindowLog.WindowBound | src/cache/distributed_rate_limiter.py:71-92 | Hence no window (x, x+W] holds more admissions than the maximum, whatever the clients |
| SlidingWindowLog.SameStampBreaksBound | src/cache/distributed_rate_limiter.py:85 | The stamp is also the set member: any number of calls with one stamp are all admitted once the maximum is two or more |
| SlidingWindowLog.BoundKeptIff | src/cache/distributed_rate_limiter.py:71-92 | All calls in order, repeated stamps included, keep the window bound exactly when the maximum is at most one (or the window is empty) |
| TokenBucket.TokenBucket.Eval | src/cache/distributed_rate_limiter.py:95-123 | The script's new hash and answer are those of the specification |
| TokenBucket.LevelInRange | src/cache/distributed_rate_limiter.py:104-110 | The stored level never leaves [0, capacity] |
| TokenBucket.GrantedAndLeft | src/cache/distributed_rate_limiter.py:104-122 | From any call on, tokens handed out plus the level left never exceed capacity plus refill |
| TokenBucket.TokensBounded | src/cache/distributed_rate_limiter.py:104-122 | Over every run and every stretch [s, t]: tokens handed out are at most capacity + rate*(t - s), expiring keys included when they refill in time |
| TokenBucket.DecidesExactly | src/cache/distributed_rate_limiter.py:95-123 | For all ordered calls, with the key's expiry in force too when the window is at most a minute: the script's decisions are the only ones that let each call through exactly when it asks for no more than the maximum and, for every earlier call, the tokens granted from that call on and its own exceed the maximum by no more than comes in since, at the maximum per window |
| TokenBucket.AdmittedIff | src/cache/distributed_rate_limiter.py:111-122 | Call by call: admitted exactly when it fits every stretch that ends with it |
| TokenBucket.LevelExact | src/cache/distributed_rate_limiter.py:104-110 | An amount is in the bucket exactly when it and all that was granted since any earlier call stay within the capacity and the refill since |
| TokenBucket.RefillTwice | src/cache/distributed_rate_limiter.py:107-110 | Refilling in two goes equals refilling once, through the cap |
| TokenBucket.RejectionsInvisible | src/cache/distributed_rate_limiter.py:104-122 | With or without the key's expiry in force (with it, when a minute refills the bucket): without its rejected calls a run leaves the bucket as full at every later time |
| TokenBucket.KeptAllAdmitted | src/cache/distributed_rate_limiter.py:104-122 | The run without its rejected calls admits all its calls, likewise |
| TokenBucket.ExpiryKeepsLevel | src/cache/distributed_rate_limiter.py:115-121 | If the bucket refills within a minute, expiry changes no level |
| TokenBucket.LongWindowNoticesExpiry | src/cache/distributed_rate_limiter.py:115-121 | With a longer window there is a run in which expiry grants tokens the bound forbids |
| TokenBucket.ExpiryUnobservableIff | src/cache/distributed_rate_limiter.py:115-121 | The minute-long key expiry is unobservable, for all ordered calls, exactly when the time window is at most 60 seconds (or nothing is ever allowed) |
| TokenBucket.RejectionPostponesExpiry | src/cache/distributed_rate_limiter.py:118-122 | The reject branch renews the key: with a slow refill a call refused half a minute after the bucket was emptied makes a later call be refused that is admitted without it |
| TokenBucket.RejectionsInvisibleIff | src/cache/distributed_rate_limiter.py:104-122 | Rejected attempts change no later decision, for all ordered calls and with the key's expiry in force, exactly when the time window is at most 60 seconds (or nothing is ever allowed) |
| Ledger.SubmitConserves | src/simulator/kiwoom_simulator.py:108-217 | One order changes cash plus cost basis by exactly what it realises, except exactly when it is an affordable, fillable buy at a negative price in a stock not held: that one keeps the debit and opens nothing |
| Ledger.OpeningFails | src/simulator/kiwoom_simulator.py:139-174 | At a negative price that guard, which can be checked before the call, is exactly when the position cannot be opened |
| Ledger.SellDecided | src/simulator/kiwoom_simulator.py:176-217 | From the caller's data alone: a sell is filled exactly when at least its quantity is held and it is a market order or its limit is given and met; each refusal and the waiting case has its own condition, and changes nothing |
| Ledger.SellMoves | src/simulator/kiwoom_simulator.py:189-208 | A filled sell credits 0.999 times the price (market) or the price (limit) for the quantity, and takes the quantity off the holding, which goes when nothing is left and else keeps its average |
| Ledger.BuyDecided | src/simulator/kiwoom_simulator.py:139-174 | A buy is filled exactly when the cash covers the quantity at the current price, it can be executed, and the stock is held or the price positive; each refusal and the waiting case has its own condition |
| Ledger.BuyMoves | src/simulator/kiwoom_simulator.py:152-171 | A filled buy debits 1.001 times the price (market) or the price (limit) for the quantity and adds the quantity; the new average times the new quantity is what the holding cost in all |
| Ledger.UnknownIff | src/simulator/kiwoom_simulator.py:131-137 | An unpriced stock is refused as unknown, and nothing else is |
| Ledger.CashBounds | src/simulator/kiwoom_simulator.py:139-150 | The cash check uses the current price but a market buy fills at the ask: a buy leaves at worst a thousandth of the cash before missing |
| Ledger.EquityFallsByFee | src/simulator/kiwoom_simulator.py:139-211 | At fixed positive prices an order lowers equity by exactly 0.1% of the traded value per market fill, and not at all otherwise |
| Ledger.MoneyConserved | src/simulator/kiwoom_simulator.py:108-217 | After any run of positive price changes, refreshes and orders: cash plus cost of holdings is the initial balance plus all realised gains, and every holding is positive and equals bought minus sold |
| Ledger.AccountIdentity | src/simulator/kiwoom_simulator.py:66-89 | The reported total assets are the initial balance plus realised plus unrealised gains |
| Ledger.RefreshShowsEquity | src/simulator/kiwoom_simulator.py:66-106 | Right after the positions took the exchange's prices the reported total is the equity at these prices |
| Ledger.LimitOnlySolvent | src/simulator/kiwoom_simulator.py:139-150 | Limit-only runs from a non-negative balance never overdraw |
| Ledger.TradingNeverGains | src/simulator/kiwoom_simulator.py:139-211 | At fixed positive prices no sequence of orders raises equity; it falls by exactly the fees |
| Ledger.SumSplit | src/models/position.py:47-64 | Total value is total cost plus total unrealised gain |
| KiwoomSimulator.Position.constructor | src/models/position.py:12-45 | A position holds what it was opened with |
| KiwoomSimulator.Position.AddQuantity | src/models/position.py:84-96 | Buying more makes the average the cost over the quantity |
| KiwoomSimulator.Position.ReduceQuantity | src/models/position.py:98-110 | Fails, changing nothing, exactly when more would go than is held; the average stays |
| KiwoomSimulator.FakeExchange.SetPrice | src/simulator/fake_exchange.py:34-49 | Both quotes follow the price, a thousandth either side |
| KiwoomSimulator.FakeExchange.Tick | src/simulator/fake_exchange.py:196-211 | Recomputing the quotes leaves them as they are |
| KiwoomSimulator.FakeExchange.ExecuteMarketOrder | src/simulator/fake_exchange.py:79-126 | A buy fills at the ask and a sell at the bid, in full; an unknown stock changes nothing |
| KiwoomSimulator.FakeExchange.ExecuteLimitOrder | src/simulator/fake_exchange.py:159-194 | Fills in full at the current price exactly when that meets the limit, and waits otherwise; a missing price or stock changes nothing |
| KiwoomSimulator.FakeExchange.ExecuteOrder | src/simulator/fake_exchange.py:213-232 | An order in a known stock ends as the ledger's execution rule says, a pending one that rests becoming submitted; an unknown stock changes nothing |
| KiwoomSimulator.KiwoomSimulator.constructor | src/simulator/kiwoom_simulator.py:36-64 | All money is cash and nothing is held |
| KiwoomSimulator.KiwoomSimulator.GetAccount | src/simulator/kiwoom_simulator.py:66-89 | The loop's totals are cash plus the positions' values, and the sum of unrealised gains |
| KiwoomSimulator.KiwoomSimulator.GetPositions | src/simulator/kiwoom_simulator.py:91-106 | Each position takes the exchange's price; quantities and averages stay |
| KiwoomSimulator.KiwoomSimulator.SubmitOrder | src/simulator/kiwoom_simulator.py:108-217 | Objects and dictionaries updated in place do to their values exactly what the ledger does, and record the order when it was executed or rejected |
| KiwoomSimulator.KiwoomSimulator.SubmitBuyOrder | src/simulator/kiwoom_simulator.py:139-172 | The buy branch refines the ledger |
| KiwoomSimulator.KiwoomSimulator.SubmitSellOrder | src/simulator/kiwoom_simulator.py:174-211 | The sell branch refines the ledger |
| KiwoomSimulator.KiwoomSimulator.ApplyBuy | src/simulator/kiwoom_simulator.py:152-170 | A filled buy debits first, then adds to or opens a position |
| KiwoomSimulator.KiwoomSimulator.ApplySell | src/simulator/kiwoom_simulator.py:196-209 | A filled sell credits, reduces, and drops an empty position |
| OrderBatch.OrderBatch.AddOrder | src/services/order_batch_aggregator.py:38-64 | An order of another stock or side is refused and changes nothing; any other is appended; the batch stays of one stock and side with statistics of exactly its orders |
| OrderBatch.OrderBatch.UpdateStatistics | src/services/order_batch_aggregator.py:66-94 | Quantity, least and greatest limit price and the weighted average become those of the orders held; without orders nothing changes |
| OrderBatch.OrderBatch.Merge | src/services/order_batch_aggregator.py:103-113 | Merging gives a new consistent batch of both lists and leaves the two alone |
| OrderBatch.Extremes | src/services/order_batch_aggregator.py:76-78 | The least and the greatest of the prices |
| OrderBatch.StatisticsAdd | src/services/order_batch_aggregator.py:66-94 | Quantity, prices, value and limit quantity add up over lists joined in order |
| OrderBatch.StatisticsOfOne | src/services/order_batch_aggregator.py:66-94 | and for one order are its own |
| OrderBatch.AverageInRange | src/services/order_batch_aggregator.py:79-94 | When every limit order has a price, the average lies between the least and the greatest price |
| OrderBatchAggregator.BatchesConserve | src/services/order_batch_aggregator.py:353-403 | Whatever the strategy, the batches made from a buffer hold each of its orders once, except exactly the lost ones: unpriced limit orders under price grouping, and the other side's orders without smart batching |
| OrderBatchAggregator.LosesNothingIff | src/services/order_batch_aggregator.py:353-403 | A buffer loses nothing exactly when, under smart batching, price grouping is off or every order is a market or priced order, and without it all orders are of one side |
| OrderBatchAggregator.GroupingConserves | src/services/order_batch_aggregator.py:390-403 | Price groups hold every order but the unpriced limit orders, each in the group of its own bucket |
| OrderBatchAggregator.BatchesByCompanions | src/services/order_batch_aggregator.py:353-403 | Under smart batching two orders share a batch exactly when they are of one side and, with price grouping, of one bucket; batches keep the order of their orders, and buys come before sells |
| OrderBatchAggregator.GroupsAreBuckets | src/services/order_batch_aggregator.py:390-403 | There is one group for each bucket, with all its orders in order, and the groups stand in the order of their first orders |
| OrderBatchAggregator.RangeHolds | src/services/order_batch_aggregator.py:405-411 | A bucket starts at a multiple of a hundred and is a hundred wide, in prices reduced by the tolerance; below zero it is rounded towards zero |
| OrderBatchAggregator.SameBucketClose | src/services/order_batch_aggregator.py:405-411 | For a tolerance below one, prices sharing a bucket differ by less than 100/(1 - tolerance) |
| OrderBatchAggregator.GroupOrders | src/services/order_batch_aggregator.py:390-403 | The loop over orders makes the groups of the specification |
| OrderBatchAggregator.SelectSide | src/services/order_batch_aggregator.py:357-359 | The orders of one side, in order |
| OrderBatchAggregator.SidesSplit | src/services/order_batch_aggregator.py:357-359 | Buys and sells together are all orders |
| OrderBatchAggregator.Fill | src/services/order_batch_aggregator.py:383-388 | A batch filled in order takes exactly the orders of the first one's side |
| OrderBatchAggregator.BatchSide | src/services/order_batch_aggregator.py:361-381 | One side's batches are its price groups, or all of it in one |
| OrderBatchAggregator.SmartBatches | src/services/order_batch_aggregator.py:353-381 | Buys before sells, each split by price |
| OrderBatchAggregator.MakeBatches | src/services/order_batch_aggregator.py:333-337 | The batch objects made hold the lists of the specification and are each of one stock and side |
| OrderBatchAggregator.FirstNeverEmpty | src/services/order_batch_aggregator.py:339-346 | No batch is empty: the first one holds an order whenever there is one |
| OrderBatchAggregator.TimerDiscardsIff | src/services/order_batch_aggregator.py:320-422 | A timer on a waiting buffer discards at least one order, except exactly when smart batching groups by price and no waiting order is a market or priced order |
| OrderBatchAggregator.TakeApart | src/services/order_batch_aggregator.py:320-351 | Taking a buffer apart moves each order to the first batch, the queue or the lost ones, and nothing else changes |
| OrderBatchAggregator.OrderBatchAggregator.constructor | src/services/order_batch_aggregator.py:194-222 | Nothing buffered, queued or accepted |
| OrderBatchAggregator.OrderBatchAggregator.AddOrder | src/services/order_batch_aggregator.py:261-297 | Every accepted order is then exactly one of buffered, queued, handed out, discarded or lost; a priority stock's order is a batch of its own, any other waits until its buffer reaches the maximum; buffers stay below the maximum and have a timer each |
| OrderBatchAggregator.OrderBatchAggregator.Collect | src/services/order_batch_aggregator.py:280-297 | The buffering branch keeps the account; the buffer is taken apart exactly when it reaches the maximum |
| OrderBatchAggregator.OrderBatchAggregator.CreateBatch | src/services/order_batch_aggregator.py:320-351 | The first batch is handed back, the others are queued in order, the timer stops |
| OrderBatchAggregator.OrderBatchAggregator.QueueRest | src/services/order_batch_aggregator.py:339-346 | The first batch comes back and exactly the others join the queue, in order |
| OrderBatchAggregator.OrderBatchAggregator.TimerFires | src/services/order_batch_aggregator.py:413-422 | The timer takes the buffer apart and its first batch reaches nobody: the discarded orders grow by exactly it |
| OrderBatchAggregator.OrderBatchAggregator.FlushStock | src/services/order_batch_aggregator.py:449-451 | A flush queues all batches of a stock, the first one last |
| OrderBatchAggregator.OrderBatchAggregator.FlushOldBatches | src/services/order_batch_aggregator.py:435-451 | Exactly the stocks whose first order waited longer than the timeout are flushed; nothing is discarded |
| OrderBatchAggregator.OrderBatchAggregator.Stop | src/services/order_batch_aggregator.py:238-259 | After stopping no order is buffered: each is queued, handed out, lost, or was discarded by an earlier timer |
| OrderBatchAggregator.OrderBatchAggregator.GetReadyBatch | src/services/order_batch_aggregator.py:299-318 | The oldest queued batch moves to the caller |
| OrderBatchAggregator.OrderBatchAggregator.NothingIsLost | src/services/order_batch_aggregator.py:261-458 | With smart batching and market or priced limit orders: accepted = buffered + queued + handed out + discarded, as multisets |
| OrderWorkerPool.EachTaskOnce | src/services/order_worker_pool.py:248-337 | Under any interleaving each submitted task is in exactly one place (queued, with a worker, finished), once, and is executed at most max_retries + 1 = 4 times |
| OrderWorkerPool.ResultsDecide | src/services/order_worker_pool.py:291-337 | Over every run the results of a task's executions decide it: filled exactly when the last is a fill, crashed exactly when the last is an exception, exhausted exactly after four failures, else still on its way; nothing comes after a deciding result |
| OrderWorkerPool.TakesHighest | src/services/order_worker_pool.py:49-61 | What a worker takes is one queued task that no task left in the queue outranks, and an idle worker can take one whenever there is one |
| OrderWorkerPool.CountersAddUp | src/services/order_worker_pool.py:254-274 | Processed = successful + failed; they count executions, not tasks, less those whose retry still waits for room; successes are finished tasks; executions are at most four per submission |
| OrderWorkerPool.InvStep | src/services/order_worker_pool.py:174-337 | Every step of every worker keeps one place per task, attempts equal to retry counts, the counters, and the executions still possible |
| OrderWorkerPool.WorkStep | src/services/order_worker_pool.py:254-337 | Every worker step strictly lowers a measure that only submissions raise |
| OrderWorkerPool.WorkersRunDry | src/services/order_worker_pool.py:254-337 | Finite submissions drain: from any reachable state worker steps are at most the work at hand plus twelve per submission, however workers interleave |
| OrderWorkerPool.TwelveStepsEach | src/services/order_worker_pool.py:254-337 | From the start a run holds at most twelve worker steps per submission |
| OrderWorkerPool.StuckIff | src/services/order_worker_pool.py:254-337 | The workers there are can take no step exactly when there is nothing left, or when all of them wait to put a retry into a full queue: a deadlock |
| OrderWorkerPool.DrainedFinishesAll | src/services/order_worker_pool.py:254-274 | When they stop without it, every submitted task is finished, once |
| OrderWorkerPool.DeadlockNeeds | src/services/order_worker_pool.py:312-320 | A deadlock needs exactly as many unfinished tasks as queue and workers hold together; with fewer there is none |
| OrderWorkerPool.FailuresDeadlock | src/services/order_worker_pool.py:312-320 | A full queue and workers all on retriable tasks lead into it by failures alone |
| OrderWorkerPool.DeadlockReached | src/services/order_worker_pool.py:174-337 | A run from the start into a deadlock, for any bounded queue, any number of workers the pool may grow to, and any number of submissions from one per place on |
| OrderWorkerPool.DeadlockIff | src/services/order_worker_pool.py:174-337 | From its start a pool can deadlock with a number of submissions exactly when its queue is bounded and they fill the queue and give every worker a task |
| OrderWorkerPool.GrowingEndsDeadlock | src/services/order_worker_pool.py:214-225 | A pool that may still grow gets out: a worker added by the scaling loop finds a task, and taking it makes room for the waiting retries |
| OrderWorkerPool.HaltedIff | src/services/order_worker_pool.py:214-320 | Nothing at all can happen any more, submissions included, exactly in a deadlock of a pool that has reached its maximum of workers |
| OrderWorkerPool.HaltIff | src/services/order_worker_pool.py:174-337 | A pool can halt for good with a number of submissions exactly when its queue is bounded and they suffice for the queue and for as many workers as it may grow to |
| OrderWorkerPool.CarriedAlone | src/services/order_worker_pool.py:254-262 | The task a worker carries is nowhere else |
| OrderWorkerPool.OrderWorkerPool.constructor | src/services/order_worker_pool.py:83-147 | The starting workers are idle, no more of them than the maximum |
| OrderWorkerPool.OrderWorkerPool.StartWorker | src/services/order_worker_pool.py:214-225 | A worker is added exactly below the maximum |
| OrderWorkerPool.OrderWorkerPool.SubmitOrder | src/services/order_worker_pool.py:174-212 | A submission enters exactly when the queue has room |
| OrderWorkerPool.OrderWorkerPool.TakeTask | src/services/order_worker_pool.py:256-259 | The task taken has the highest priority of all queued |
| OrderWorkerPool.OrderWorkerPool.ProcessOrder | src/services/order_worker_pool.py:291-337 | A filled order ends the task, an exception ends it without a retry, anything else is retried while retries are left; success without a filled order is a failure |
| OrderWorkerPool.OrderWorkerPool.PutBack | src/services/order_worker_pool.py:312-320 | A waiting retry enters the queue only when there is room, and only then counts as processed |
| CircuitBreaker.StateFromHistory | src/services/order_pipeline_optimizer.py:95-133 | After any history: CLOSED exactly when fewer failures than the threshold (at least one) came since the last recovery, HALF_OPEN exactly when it tripped and a probe passed since the last failure, else OPEN; the count is of all failures since the recovery |
| CircuitBreaker.CountAndState | src/services/order_pipeline_optimizer.py:102-126 | CLOSED means below the threshold, OPEN and HALF_OPEN at or above it, so one more failure always opens it again |
| CircuitBreaker.GateExact | src/services/order_pipeline_optimizer.py:337-342 | With a clock that never runs back an order is refused exactly while the breaker has tripped since its last recovery and the latest failure is no older than the timeout |
| CircuitBreaker.StepExplained | src/services/order_pipeline_optimizer.py:95-133 | Every event keeps fields and history in agreement |
| CircuitBreaker.NotConsecutive | src/services/order_pipeline_optimizer.py:95-108 | Successes while CLOSED do not reset the count: with a success before every failure the breaker trips at the threshold all the same |
| CircuitBreaker.CircuitBreaker.constructor | src/services/order_pipeline_optimizer.py:81-93 | Starts CLOSED with no history |
| CircuitBreaker.CircuitBreaker.RecordSuccess | src/services/order_pipeline_optimizer.py:95-100 | The fields follow the history |
| CircuitBreaker.CircuitBreaker.RecordFailure | src/services/order_pipeline_optimizer.py:102-112 | The fields follow the history |
| CircuitBreaker.CircuitBreaker.IsOpen | src/services/order_pipeline_optimizer.py:114-126 | The fields follow the history and the answer is the gate's |
| CircuitBreaker.CircuitBreaker.ResetBreaker | src/services/order_pipeline_optimizer.py:128-133 | The fields follow the history |
| OrderExecutor.OneLivePerSide | src/services/order_executor.py:150-294 | Over any run of executions, cancellations and execution events in which no broker answer is the submitted order cancelled, the map holds only live orders and at most one per stock and side |
| OrderExecutor.ApplyKeeps | src/services/order_executor.py:150-331 | Each operation on its own keeps that |
| OrderExecutor.CancelledReplyRevives | src/services/order_executor.py:277-283 | The excepted answer, which the client interface allows though neither client gives it, is exactly what spoils it: from every such state it leads, through a second order and a late acceptance event, to two live orders of one stock and side |
| OrderExecutor.SecondRefused | src/services/duplicate_checker.py:46-61 | A duplicate changes nothing, and a stock and side is taken exactly when an order of it is pending; there is then only one |
| OrderExecutor.SubmissionsAccounted | src/services/order_executor.py:212-331 | Over every run each submitted order is pending or has left, each submission exactly once |
| OrderExecutor.DepartedAreTerminal | src/services/order_executor.py:212-331 | Over every run in which no order id is tried twice, every order that has left the map left with a terminal status |
| OrderExecutor.LeaveTerminalIff | src/services/order_executor.py:212-331 | An operation takes an order out with a status that is not terminal exactly when it tries a pending live order's id again and raises in the checks or is submitted |
| OrderExecutor.TriedTwiceDropsLive | src/services/order_executor.py:280-294 | Both happen: the handler of an exception pops whatever is pending under the id, and a submission overwrites it |
| OrderExecutor.UnfilledNeverMatters | src/services/order_executor.py:664-711 | Whatever the events of a run report as unfilled, the same orders enter, stay and leave, and with fresh ids leave with the same status |
| OrderExecutor.ExecutionAlwaysCloses | src/services/order_executor.py:664-701 | After any run an execution event makes a pending order leave as filled, whatever quantity it reports unfilled |
| OrderExecutor.EventsDecide | src/services/order_executor.py:656-717 | After any run an event decides the pending order it names: a cancellation makes it leave as cancelled, a refusal as rejected, an execution as filled; acceptance and confirmation leave it submitted or partly filled; anything else changes nothing |
| OrderExecutor.CancelDecides | src/services/order_executor.py:296-336 | After any run a cancellation makes a live pending order leave as cancelled and changes nothing else |
| OrderExecutor.ReplyDecides | src/services/order_executor.py:212-294 | After any run an admitted order under a new id, its stock and side being free, is decided by the broker's answer: an exception makes it leave as failed, a final answer with its status, any other leaves it pending with the status that answer gives |
| OrderExecutor.AtMostTwoLive | src/services/duplicate_checker.py:63-89 | A stock never has more than two live orders |
| OrderExecutor.CheckDuplicate | src/services/duplicate_checker.py:26-61 | Some pending order of the stock and side that is not terminal is found, exactly when there is one |
| OrderExecutor.GetPendingOrderCount | src/services/duplicate_checker.py:63-89 | The loop counts exactly the live orders of the stock |
| OrderExecutor.OrderExecutor.ExecuteOrder | src/services/order_executor.py:129-294 | Keys stay order ids, no other entry changes, the map changes as the specification says, success is reported exactly for an answer that is no failure, and an order that left the map is terminal |
| OrderExecutor.OrderExecutor.SubmitPending | src/services/order_executor.py:212-294 | The order is in the map while the broker is asked, and stays exactly as the answer says |
| OrderExecutor.OrderExecutor.HandleAnswer | src/services/order_executor.py:223-283 | Finished orders leave, partly filled ones replace the submitted one, other answers change nothing |
| OrderExecutor.OrderExecutor.CancelOrder | src/services/order_executor.py:296-336 | Exactly live orders can be cancelled; they leave the map cancelled |
| OrderExecutor.OrderExecutor.HandleOrderExecutionEvent | src/services/order_executor.py:635-717 | Only the order named changes, and it leaves the map exactly with a terminal status |
| RedisStreamManager.ChunksLoseNothing | src/cache/redis_stream_manager.py:148-203 | Reading in chunks of any sizes while messages are added and trimmed delivers in order and once each exactly the messages past the starting position, but for those trimmed before they were reached and those still waiting |
| RedisStreamManager.ChunkAndRest | src/cache/redis_stream_manager.py:164-198 | One read and the next position split what was waiting exactly in two |
| RedisStreamManager.ReadTakesFirst | src/cache/redis_stream_manager.py:164-181 | A read takes the first messages that wait, as many as asked for or all there are |
| RedisStreamManager.ReadsDrain | src/cache/redis_stream_manager.py:148-203 | Each read shortens what waits by the number asked for, so enough of them deliver all of it |
| RedisStreamManager.InvRun | src/cache/redis_stream_manager.py:148-293 | Additions, trims and reads keep that balance |
| RedisStreamManager.TrimBalanced | src/cache/redis_stream_manager.py:253-293 | Trimming the front loses exactly the unread messages it drops |
| RedisStreamManager.LatestReadsNothing | src/cache/redis_stream_manager.py:164-198 | From "$" no number of non-blocking reads ever delivers anything, whatever is added or trimmed in between, and the position stays "$" |
| RedisStreamManager.NothingPastLast | src/cache/redis_stream_manager.py:164-181 | Resolved at the call to the last id of an ordered stream, "$" has nothing past it, and an empty answer leaves the position as it was |
| RedisStreamManager.ResetToLatestReadsNothing | src/cache/redis_stream_manager.py:326-336 | So after a reset to "$" a run delivers nothing, however many messages it adds |
| RedisStreamManager.LatestIsLast | src/cache/redis_stream_manager.py:227-232 | The per-stock map holds the data of each stock's last message, and no other stock |
| RedisStreamManager.LatestConcat | src/cache/redis_stream_manager.py:227-232 | Conflation is a homomorphism: the map of two chunks is the later one laid over the earlier |
| RedisStreamManager.OverlayIsLatest | src/cache/redis_stream_manager.py:222-232 | Overlaying the per-read maps in order is the last-message-per-stock map of everything read, whatever the chunks |
| RedisStreamManager.ConsumerSeesLatest | src/cache/redis_stream_manager.py:148-251 | Once nothing waits, a consumer that overlays its reads holds each stock's latest surviving message |
| RedisStreamManager.QuotesStaleIff | src/cache/redis_stream_manager.py:234-241 | For converted quotes that holds exactly when no stock whose last message fails to convert was converted in some read; else a stale quote stays |
| RedisStreamManager.RedisStreamManager.XReadLatest | src/cache/redis_stream_manager.py:148-203 | The next chunk is returned and the position moves to its last message; other streams' positions stay |
| RedisStreamManager.RedisStreamManager.GetLatestByStock | src/cache/redis_stream_manager.py:205-251 | One quote per stock from its latest message in the chunk |
| RedisStreamManager.RedisStreamManager.ResetReadPosition | src/cache/redis_stream_manager.py:326-336 | Only the named stream's position changes |
| BacktestResult.OnePassIsMaximum | src/services/backtest_engine.py:143-154 | With a positive initial balance and no negative equity the one-pass result is exactly the maximum of 0 and (e_i - e_j)/e_i*100 over all i <= j with e_i positive, the initial balance prepended |
| BacktestResult.HigherPeakLargerDrop | src/services/backtest_engine.py:148-151 | From a higher peak the drop to a non-negative equity is larger |
| BacktestResult.DropIsShare | src/services/backtest_engine.py:148-151 | A drop of d percent from a peak leaves the rest of the peak |
| BacktestResult.NegativeEquityUnderstated | src/services/backtest_engine.py:143-154 | For all 0 < low < high and x < 0 one pass over low, high, x understates the maximum: it sees the drop from high only, which is smaller than that from low |
| BacktestResult.OnePassRightIff | src/services/backtest_engine.py:143-154 | For curves that start above zero and keep to some level, one pass always gives the maximum over all pairs exactly when that level is not negative |
| BacktestResult.BacktestResult.OnePass | src/services/backtest_engine.py:143-154 | The loop finds the largest drop from the running peak, and fails exactly when a running peak is zero |
| BacktestResult.BacktestResult.RecordEquity | src/services/backtest_engine.py:84-92 | The curve grows by the equity recorded |
| BacktestResult.BacktestResult.CalculateMetrics | src/services/backtest_engine.py:94-154 | Final balance, and a return that leads from the initial balance to it; a failure leaves the drawdown as it was |

## Left out

- SharedState.NoLostUpdate: assumes that no lock expires while its holder is alive and inside it and that all writers use `update_state`; that the first is needed is SharedState.EarlyExpiryLosesUpdate. Redis failures, serialization and the lifetime of the state key are left out. No assumption on process names is needed: a prefix clash could only matter after an expiry.
- MinuteBarCollector.CollectorGroupsTrades: for ticks no older than an earlier tick of the stock or an earlier timer check, and intervals dividing 60; an older tick opens a second bar for its window. Consuming the completed queue, statistics, daylight saving and time zones are left out; a zero interval divides by zero in the program.
- DataAggregator.AggregationMatchesCollector: compares windows and prices, not the start time, which in an aggregate is its first bar's.
- Indicators.CalculateEma: periods of at least one (a zero period divides by zero in the program); prices are the selected price column; floating-point rounding is left out.
- Indicators.CalculateRsi: the same.
- Indicators.CalculateMacdLine: the signal line and the histogram, whose loop fails when the fast period exceeds the slow one, are left out, as are moving averages, Bollinger bands and volume profiles.
- TimeSeriesCache.TimeSeriesCache.PutSingle: a key is the pair of series and stamp, not its text; an entry is a value; one clock reading per call; sizes are given.
- RateLimiter.DecidesLikeUnboundedLog: clocks do not run back; the priority queue in front of the wait, cancellation and wait statistics are left out.
- SlidingWindowLog.AdmitsExactly: clients' calls run in the order of their stamps and within a second of them; Redis failures, on which the program retries or refuses, are left out.
- TokenBucket.TokensBounded: one non-decreasing clock for client and Redis and non-negative requests.
- TokenBucket.ExpiryUnobservableIff: the same.
- TokenBucket.DecidesExactly: the same; with a window above a minute only without the key's expiry, which then admits more (TokenBucket.LongWindowNoticesExpiry).
- Ledger.MoneyConserved: positive prices; injected errors, stop-loss and take-profit thresholds, return rates and 28-digit rounding are left out.
- KiwoomSimulator.KiwoomSimulator.GetAccount: the loop over the dictionary visits positions in any order.
- OrderBatchAggregator.OrderBatchAggregator.FlushOldBatches: visits overdue stocks in any order, not in order of insertion; metrics and batch ids are left out, and so are asynchronous waits inside one operation.
- OrderBatchAggregator.SameBucketClose: for positive prices, which an order must have.
- MinuteBarCollector.MinuteBarCollector.constructor: intervals of at least one minute; the program accepts others and divides by a zero one at the first tick.
- OrderWorkerPool.EachTaskOnce: before `stop`; when the scaling loop adds a worker is left open below the maximum; a take cancelled by its one-second timeout, per-worker metrics and callbacks are left out. Workers are never removed in the program either.
- CircuitBreaker.CircuitBreaker.RecordFailure: reads the clock once, where the program reads it twice in a row.
- OrderExecutor.OneLivePerSide: for calls that do not overlap. The duplicate check and the insertion are separated by awaits, so overlapping calls can both pass. Positions, partial-fill accounting and balance events are left out.
- OrderExecutor.OrderExecutor.ExecuteOrder: the order object is not itself in the map and the broker keeps its id; the real client's renaming of ids is left out. The checks before submission are parameters.
- OrderExecutor.OrderExecutor.HandleOrderExecutionEvent: an exception between the status change and the removal is left out.
- RedisStreamManager.RedisStreamManager.XReadLatest: non-blocking reads, and no failure but a count below one.
- RedisStreamManager.ChunksLoseNothing: ids are integers in stream order; blocking reads, serialization of fields and read failures are left out.
- BacktestResult.BacktestResult.CalculateMetrics: win rate, trade counts and the Sharpe ratio are left out.
- BacktestResult.OnePassIsMaximum: not for negative equities, where it is false (BacktestResult.OnePassRightIff).
- The network clients, notifiers, dashboards, repositories, leader election, heartbeats, pub/sub, the multi-level cache, the risk manager and the backtest loop are not part of this model.
