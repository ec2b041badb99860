# Verified models of the FinOps backend's in-process machinery

The backend keeps its resource control in small pieces of mutable state: rate limiters,
a bounded cache, a circuit breaker, request coalescing and batching, refresh guards,
token and credential stores, a job scheduler's failure accounting. It also has a few
data transformations whose correctness is a statement of its own: a code metric
visitor, the pool hierarchy, a role migration, the expense breakdown. Each module here
models one of these as the code has it, and proves what it guarantees over every run.

Objects the code updates in place are classes. Their methods are proved equal to pure
step functions, and the theorems about whole runs or interleavings are lemmas over those
functions. Time is a real number handed in by the caller. Concurrency is a sequence of
atomic steps: the locked sections, and the stretches between two suspension points.
Where a guarantee holds only under a condition, the condition is proved exact: an
if-and-only-if, or a bound together with a run that reaches it.

| file | what it models |
|---|---|
| Wrappers, Basics | optional values, results and small facts |
| SlidingWindow | window vocabulary shared by the limiters |
| AdmittedLogLimiter | the two limiters that log admitted requests only |
| DenyCountingLimiter | the middleware's in-memory and Redis limiters and its dispatcher |
| DistinctInstants, RedisWindowBound | what the sorted set bounds when timestamps repeat |
| LimiterFallback | the dispatcher thrown between the two stores |
| LimiterComparison | the two window policies side by side |
| LimiterAnswers | what the limiters answer, from the requests made and the configured rates |
| BoundedCache | the least-recently-used cache with expiry |
| CircuitBreaker | the breaker, over interleaved calls |
| RequestCoalescer, BatchExecutor | single flight and batching with futures and a timer |
| ComplexityAnalyzer | the metrics visitor |
| PoolForest, PoolResponses | the pool hierarchy and its tree response |
| SoftDeleteTable, RoleTables, RoleMigration | migration 010 over soft-deleted tables |
| RoleOutcome, BuiltInRoles | what it means for one role and one user, and for the built-in tables |
| SchedulerFailures | the scheduler's tables, registry, requests and executions, read by read and commit by commit |
| SchedulerRules | what single steps of it decide, column by column |
| SchedulerCounts, SchedulerOverlap | what the failure count means, and how far it can go |
| SchedulerRegistry | when every registered job has a configuration that wants it |
| SchedulerHistories | runs that reach the bounds, and runs that break what is broken |
| StableSort, ExpenseBreakdown, ExpenseItems | the expense breakdown in both grouping modes |
| RefreshGuard | one cost refresh per organization |
| TokenRotation, TokenLifetimes, TokenRaces, LogoutRaces | refresh-token chains, with calls one at a time and interleaved |
| CredentialCache, CredentialRaces | the two-level credential cache, with calls one at a time and interleaved |

`dafny verify dfyconfig.toml` checks everything.

Where the code and its documentation differ, the model follows the code:

- The request coalescer speaks of identical requests; its key leaves the function out
  (backend/app/shared/request_coalescing.py:59-62).
- The Redis limiter is described as the same sliding window; it counts distinct
  timestamps (backend/app/middleware/rate_limiter.py:110-117).
- The pool tree is built from live roots; its children relationship does not filter
  deleted pools (backend/app/pools/service.py:105, 133-143).
- Token reuse is detected only while the used record survives, one minute
  (backend/app/auth/token_manager.py:132).
- An account that fails on a record without a date is reported as failed although its
  total stays in the grand total (backend/app/expenses/service.py:285-308).
- The scheduler's tables declare an optimistic-locking column that nothing uses
  (backend/app/shared/models.py:10-13): a run's count goes over whatever was committed
  since it was read. Failures can be lost or resurrected, configurations can pass their
  maximum, and jobs can outlive the configuration that wanted them, in exactly the
  situations the scheduler rows below name.
- The batch executor's waiting items rely on a timer that an uncaught exception leaves
  dead but set (backend/app/shared/request_coalescing.py:270-276, 296).
- An update that sets a scheduler's interval to null is checked as if it kept the stored
  one (backend/app/scheduler/service.py:155-173).
- A refresh token is to be used once; two rotations that overlap both succeed
  (backend/app/auth/token_manager.py:114-132), and one that overlaps a revocation of all
  its user's sessions issues a token that survives it.

## Model

| member | source | states |
|---|---|---|
| `AdmittedLogLimiter.AuthLimiter.Limit` | backend/app/auth/rate_limit.py:16-32 | one request prunes the address's log to the last 60 seconds and is refused exactly when 10 admitted requests remain; refused requests are not logged, clients without an address share one log, other addresses are untouched |
| `AdmittedLogLimiter.SharedLimiter.CheckRateLimit` | backend/app/shared/rate_limit.py:11-31 | the same window for any key, limit and length |
| `AdmittedLogLimiter.LogAgreesWithHistory` | backend/app/auth/rate_limit.py:22-32 | pruning loses nothing that can matter later: the stored log and the full history of admitted requests agree on every window still to come |
| `AdmittedLogLimiter.DecisionFromHistory` | backend/app/shared/rate_limit.py:19-31 | a request is admitted if and only if the full history holds fewer than the limit of admitted requests in the last window |
| `AdmittedLogLimiter.GreedyKeepsLimit` | backend/app/auth/rate_limit.py:22-32 | on every run no window of the given length, ending anywhere, holds more admitted requests than the limit |
| `AdmittedLogLimiter.StaysAhead` | backend/app/shared/rate_limit.py:19-31 | against any policy that respects the limit, the limiter has at least as many admissions and its k-th is never later |
| `AdmittedLogLimiter.GreedyIsOptimal` | backend/app/shared/rate_limit.py:19-31 | no run and no respecting policy admits more than the limiter, if and only if the limit is not zero or the window is positive |
| `AdmittedLogLimiter.GreedyIsOptimalOnPrefixes` | backend/app/shared/rate_limit.py:19-31 | the same on every prefix of a run |
| `AdmittedLogLimiter.KeysAreIndependent` | backend/app/auth/rate_limit.py:10-32 | inside any interleaving of keys each key is decided as if it had the limiter to itself |
| `DenyCountingLimiter.InMemoryRateLimiter.constructor` | backend/app/middleware/rate_limiter.py:27-30 | an empty store, with the sweep clock started |
| `DenyCountingLimiter.InMemoryRateLimiter.CleanupOldEntries` | backend/app/middleware/rate_limiter.py:32-44 | at most every five minutes, every key keeps exactly its entries of the last hour and keys left empty go |
| `DenyCountingLimiter.InMemoryRateLimiter.IsAllowed` | backend/app/middleware/rate_limiter.py:46-84 | after a due sweep: allowed, limit and remaining from the entries of the window, and every request logged, admitted or not |
| `DenyCountingLimiter.RedisRateLimiter.IsAllowed` | backend/app/middleware/rate_limiter.py:93-138 | range removal, insertion, expiry and count on the sorted set; a lost reply still leaves the set changed, and either failure is raised |
| `DenyCountingLimiter.RateLimitMiddleware.Dispatch` | backend/app/middleware/rate_limiter.py:246-254 | Redis when it answers, the in-memory limiter otherwise, and which store is left unchanged in each case |
| `DenyCountingLimiter.SweepIsInvisible` | backend/app/middleware/rate_limiter.py:32-44 | over every run of many keys and tiers with a forward clock, the hourly sweep never changes an answer |
| `DenyCountingLimiter.SameInstants` | backend/app/middleware/rate_limiter.py:99-117 | after every run the sorted set holds exactly the instants of the in-memory log, and the key's expiry drops nothing the window has not dropped |
| `DenyCountingLimiter.CountsCompared` | backend/app/middleware/rate_limiter.py:114-119 | Redis counts the distinct instants of the window, so at most what memory counts and exactly that when timestamps differ |
| `DenyCountingLimiter.RedisNeverStricter` | backend/app/middleware/rate_limiter.py:119 | whatever memory admits Redis admits |
| `DenyCountingLimiter.RedisRefinesMemory` | backend/app/middleware/rate_limiter.py:46-135 | with strictly increasing timestamps both give the same allowed, limit and remaining on every call |
| `DenyCountingLimiter.AgreeExactlyWhenTimesDiffer` | backend/app/middleware/rate_limiter.py:46-135 | they agree at every limit if and only if no two requests of the key carry the same timestamp |
| `DenyCountingLimiter.MemoryKeepsLimit` | backend/app/middleware/rate_limiter.py:63-71 | logging refused requests too, no window admits more than the limit |
| `RedisWindowBound.RedisBoundsInstants` | backend/app/middleware/rate_limiter.py:99-135 | over every run whose requests reach Redis in time order, however timestamps repeat, no window admits more distinct instants than the limit, and the stored set still knows every admitted instant that matters |
| `RedisWindowBound.RedisKeepsLimitPerCopy` | backend/app/middleware/rate_limiter.py:99-135 | when requests reach Redis in time order and no timestamp occurs more than r times, no window admits more than r times the limit |
| `RedisWindowBound.RedisKeepsLimit` | backend/app/middleware/rate_limiter.py:99-135 | with strictly increasing timestamps no window admits more than the limit |
| `RedisWindowBound.RedisBoundIsReached` | backend/app/middleware/rate_limiter.py:110-119 | r times the limit is reached, for every r and every limit |
| `RedisWindowBound.KeepsLimitIffNothingRepeats` | backend/app/middleware/rate_limiter.py:110-119 | every run with at most r requests at any timestamp keeps every limit, if and only if r is at most one |
| `RedisWindowBound.RedisAdmitsAnyBurst` | backend/app/middleware/rate_limiter.py:110 | with repeated timestamps there is no bound at all: any number of requests at one instant pass a limit of one |
| `LimiterFallback.FallbackKeepsInvariant` | backend/app/middleware/rate_limiter.py:246-254 | each request through the dispatcher, on clocks that do not run backwards, keeps what bounds both stores, whether Redis answers, is unreachable or loses its reply |
| `LimiterFallback.SwitchingBound` | backend/app/middleware/rate_limiter.py:246-254 | however the dispatcher is thrown between the stores: when Redis answers at most r requests at any one timestamp, no window admits more than r + 1 times the limit |
| `LimiterFallback.SwitchingAtMostDoubles` | backend/app/middleware/rate_limiter.py:246-254 | when no two of the requests that Redis answers carry one timestamp, no window admits more than twice the limit; requests that never reach Redis, or whose reply is lost, may repeat theirs |
| `LimiterFallback.SwitchingBoundIsReached` | backend/app/middleware/rate_limiter.py:246-254 | r + 1 times the limit is reached, for every r and every limit |
| `LimiterFallback.SwitchingCanDouble` | backend/app/middleware/rate_limiter.py:246-254 | twice the limit is reached, at every limit, with no timestamp of any request repeated on either clock |
| `LimiterFallback.EachStoreSeesItsOwn` | backend/app/middleware/rate_limiter.py:246-254 | on every run each store is what it would be had the requests that reached it been all: Redis those with a lost reply included, memory those that Redis did not answer |
| `LimiterComparison.LoggingDenialsCostsAdmissions` | backend/app/middleware/rate_limiter.py:63-71 | on every run and at every setting, logging only admitted requests admits at least as many as logging all, each no later |
| `LimiterAnswers.MemoryAnswersFromRequests` | backend/app/middleware/rate_limiter.py:63-84 | in memory a request is allowed if and only if fewer requests than the limit, admitted or not, were made in the window before it; what remains is what the limit leaves after it |
| `LimiterAnswers.RedisAnswersFromInstants` | backend/app/middleware/rate_limiter.py:99-135 | in Redis a request is allowed if and only if its window, itself included, has seen no more instants than the limit, and that many fewer remain |
| `LimiterAnswers.TenPerMinute` | backend/app/auth/rate_limit.py:10-32 | from one address a request is admitted if and only if fewer than ten were in the last minute, so no minute admits more |
| `LimiterAnswers.RatesOfTiers` | backend/app/middleware/rate_limiter.py:15-21 | in memory no minute admits more than 30 public, 100 authenticated, 10 expensive or 1000 webhook requests of a key, and no five minutes more than 5 exports; each is allowed as long as fewer were made |
| `LimiterAnswers.EveryAnswerFromRequests` | backend/app/middleware/rate_limiter.py:32-84 | through every run of many keys, each with one tier, swept or not: a request is allowed if and only if fewer than its limit were made with its key in the window before it |
| `LimiterAnswers.StoreForgets` | backend/app/middleware/rate_limiter.py:32-44 | what the sweep is for: after every run each stored key has a request, and none is older than an hour and five minutes |
| `BoundedCache.Cache.constructor` | backend/app/shared/bounded_cache.py:20-27 | an empty cache |
| `BoundedCache.Cache.Get` | backend/app/shared/bounded_cache.py:29-46 | a live entry is returned and becomes the most recent; an expired one is dropped; hits and misses count |
| `BoundedCache.Cache.Set` | backend/app/shared/bounded_cache.py:48-64 | the entry becomes the most recent under its own time to live, and the oldest go until the bound holds; with a negative bound the eviction fails |
| `BoundedCache.Cache.Evict` | backend/app/shared/bounded_cache.py:60-64 | the eviction loop leaves the most recent entries the bound allows |
| `BoundedCache.Cache.Delete` | backend/app/shared/bounded_cache.py:66-72 | exactly that key goes, and whether it was there is told |
| `BoundedCache.Cache.Clear` | backend/app/shared/bounded_cache.py:74-79 | everything goes, counted |
| `BoundedCache.Cache.Cleanup` | backend/app/shared/bounded_cache.py:81-88 | exactly the expired entries go, in order, counted |
| `BoundedCache.RemovingExpiredKeys` | backend/app/shared/bounded_cache.py:85-87 | deleting the listed keys one by one is the same as keeping the unexpired entries |
| `BoundedCache.SmallerIsPartOfLarger` | backend/app/shared/bounded_cache.py:29-88 | on every timed trace the cache of capacity n is an order-preserving part of that of capacity m >= n with equal values and expiries, which holds at most m - n more keys |
| `BoundedCache.LargerNeverMissesMore` | backend/app/shared/bounded_cache.py:29-46 | a bigger cache returns whatever a smaller one returns |
| `BoundedCache.SizeNeverExceedsBound` | backend/app/shared/bounded_cache.py:60-64 | no run leaves more entries than the bound |
| `BoundedCache.CacheIsBacked` | backend/app/shared/bounded_cache.py:29-88 | every entry is the unbounded dictionary's entry for its key |
| `BoundedCache.HitsAreRight` | backend/app/shared/bounded_cache.py:29-46 | every hit is the answer of the unbounded dictionary with expiries |
| `BoundedCache.CacheIsComplete` | backend/app/shared/bounded_cache.py:29-88 | with room for every key set and a forward clock, nothing unexpired is missing |
| `BoundedCache.RoomForAllMeansAgreement` | backend/app/shared/bounded_cache.py:29-88 | then every lookup, hit or miss, is answered as the unbounded dictionary does |
| `BoundedCache.ExpiredLookupRemoves` | backend/app/shared/bounded_cache.py:36-41 | a lookup of an expired entry answers nothing and removes exactly that entry |
| `BoundedCache.LeastRecentlyUsedGoes` | backend/app/shared/bounded_cache.py:29-88 | what the cache holds, exactly, after every run: the entry of a key's last setting is there if and only if nothing has deleted, cleared or replaced it, no lookup or cleanup has found it expired, and at no time since it was last set or hit had n other keys been set or hit; a key that is deleted, or found expired, is no longer among those |
| `BoundedCache.NeverSetIsAbsent` | backend/app/shared/bounded_cache.py:29-88 | a key never set is not there |
| `BoundedCache.RecentEntriesSurvive` | backend/app/shared/bounded_cache.py:36-64 | an unexpired entry is still there as long as at no time n other keys had been used since, as the unbounded dictionary tells: there a key deleted, cleaned or found expired is no longer used |
| `CircuitBreaker.Breaker.constructor` | backend/app/shared/circuit_breaker.py:28-49 | a closed breaker with nothing counted |
| `CircuitBreaker.Breaker.Enter` | backend/app/shared/circuit_breaker.py:54-67 | the locked section before the call: who is admitted in which state, the timed move to half-open, the budget |
| `CircuitBreaker.Breaker.Succeeded` | backend/app/shared/circuit_breaker.py:78-87 | a success closes a half-open breaker once enough were counted, and lowers the failure count, not below zero, otherwise |
| `CircuitBreaker.Breaker.Failed` | backend/app/shared/circuit_breaker.py:89-100 | a failure is timed and counted; it opens a half-open breaker at once and any other at the threshold |
| `CircuitBreaker.Breaker.Reset` | backend/app/shared/circuit_breaker.py:115-121 | back to the initial closed state |
| `CircuitBreaker.BreakerIsReflectedWalk` | backend/app/shared/circuit_breaker.py:78-100 | over every interleaving: closed exactly while no run of consecutive completions since the last reset reached the threshold of failures minus successes; while closed the count is the largest such excess among suffixes, below the threshold |
| `CircuitBreaker.ReflectedWalkIffPositive` | backend/app/shared/circuit_breaker.py:98 | that description fits a breaker if and only if its threshold is positive |
| `CircuitBreaker.EpisodeBudget` | backend/app/shared/circuit_breaker.py:64-67 | every half-open episode admits at most half_open_max_calls calls, and a breaker not closed has a recorded failure time |
| `CircuitBreaker.ClosingIsEarned` | backend/app/shared/circuit_breaker.py:81-84 | it closes if and only if a success in a half-open episode, without failures so far, makes the required number; a failure in it opens the breaker |
| `CircuitBreaker.OpenPeriod` | backend/app/shared/circuit_breaker.py:55-62 | once opened at t nothing is admitted before t + recovery_timeout, whatever late completions arrive |
| `CircuitBreaker.AdmittedExactly` | backend/app/shared/circuit_breaker.py:54-107 | after every run: a closed breaker admits every call; an open one admits a call if and only if recovery_timeout has passed since the last failure reported by a call in flight, and half-open calls are allowed at all; a half-open one if and only if its episode has admitted fewer than half_open_max_calls |
| `CircuitBreaker.BudgetInvariantStep` | backend/app/shared/circuit_breaker.py:54-100 | every step keeps: each spent unit of budget is a success counted, a probe still out, or a probe of the same episode lost to an uncaught exception |
| `CircuitBreaker.NeverWedgedIffBudgetCoversEscapes` | backend/app/shared/circuit_breaker.py:64-76 | with at most k uncaught exceptions among the probes of each half-open episode, no reachable half-open state has its budget spent and no probe out, if and only if half_open_max_calls >= max(1, success_threshold) + k |
| `CircuitBreaker.NeverWedgedIffBudgetSuffices` | backend/app/shared/circuit_breaker.py:64-67 | when every call ends in success or an expected exception, the same with half_open_max_calls >= max(1, success_threshold) |
| `CircuitBreaker.EscapesWedge` | backend/app/shared/circuit_breaker.py:74 | with an exception the handler does not catch, every setting can be wedged |
| `CircuitBreaker.WedgedForever` | backend/app/shared/circuit_breaker.py:64-67 | once wedged with nothing in flight no later event changes anything |
| `RequestCoalescer.Coalescer.Join` | backend/app/shared/request_coalescing.py:87-105 | a caller is attached to the pending request of its key, or starts one |
| `RequestCoalescer.Coalescer.Begin` | backend/app/shared/request_coalescing.py:122-124 | the task looks its request up under the key, and would return early without one |
| `RequestCoalescer.Coalescer.Finish` | backend/app/shared/request_coalescing.py:126-138 | the outcome goes to the future of the request found, unless that is already done |
| `RequestCoalescer.Coalescer.CleanUp` | backend/app/shared/request_coalescing.py:139-142 | the key is freed |
| `RequestCoalescer.StepKeepsInvariant` | backend/app/shared/request_coalescing.py:85-142 | every step of callers, of tasks, of callers that time out or are cancelled, and of uncaught task failures keeps: pending keys and unfinished executions one to one, each task serving its own request, each caller hearing its request |
| `RequestCoalescer.SingleFlight` | backend/app/shared/request_coalescing.py:87-105 | at most one execution per key is ever in flight |
| `RequestCoalescer.JoinsOrStarts` | backend/app/shared/request_coalescing.py:85-105 | a call joins the unfinished execution of its key if there is one, and starts one for its own function if and only if there is none |
| `RequestCoalescer.TaskRunsItsCourse` | backend/app/shared/request_coalescing.py:122-142 | a task begins on its own request, hands its outcome to a future nobody has cancelled, and frees its key: no unfinished execution of the key is left |
| `RequestCoalescer.WaitersCountCallers` | backend/app/shared/request_coalescing.py:91-99 | the count kept with a request is the number of callers attached to it |
| `RequestCoalescer.NoTaskIsSkipped` | backend/app/shared/request_coalescing.py:123-124 | the early return is never taken |
| `RequestCoalescer.CallersGetTheirExecution` | backend/app/shared/request_coalescing.py:107-112 | a caller receives exactly the outcome of the execution it was attached to; it hears of a cancellation only if another caller of it gave up, by timeout or by being cancelled |
| `RequestCoalescer.AttachmentIsForGood` | backend/app/shared/request_coalescing.py:88-105 | a caller stays attached to the execution registered when it called |
| `RequestCoalescer.QuiescentIffEmpty` | backend/app/shared/request_coalescing.py:139-142 | the map is empty if and only if no execution is unfinished |
| `RequestCoalescer.NobodyWaitsInVain` | backend/app/shared/request_coalescing.py:126-142 | where no caller gives up and no failure is uncaught, once executions are done every caller has its outcome or can be woken to it |
| `RequestCoalescer.WaitsInVainIffAborted` | backend/app/shared/request_coalescing.py:126-142 | over every run, once executions are done: a caller is left waiting on a future nobody will complete if and only if its execution died of an exception the code does not catch and no caller of it has given up |
| `RequestCoalescer.TransparentIffKeyDeterminesAnswer` | backend/app/shared/request_coalescing.py:59-62 | coalescing gives every caller the answer of the function it passed, if and only if functions sharing a key give the same answer |
| `RequestCoalescer.SharedKeyMixesAnswers` | backend/app/shared/request_coalescing.py:85-105 | two functions under one key: the second caller receives the first one's outcome |
| `BatchExecutor.Executor.Submit` | backend/app/shared/request_coalescing.py:256-266 | the item joins the queue; a full batch is processed at once, otherwise a timer is armed if none is |
| `BatchExecutor.Executor.TimerCallback` | backend/app/shared/request_coalescing.py:270-276 | what waits is processed and the timer is reset; an exception that is not caught skips the reset and leaves a timer whose task has ended |
| `BatchExecutor.Executor.ProcessBatch` | backend/app/shared/request_coalescing.py:278-300 | the first batch leaves the queue and its futures get their results in order, or all the error, or nothing when the exception is not caught |
| `BatchExecutor.BatchesAreSafe` | backend/app/shared/request_coalescing.py:247-300 | with batch_size >= 1, over every run: batches are consecutive pieces of the submission order of size 1 to batch_size, each future holds its own place's word, fewer than batch_size wait, and only with a timer that is set, live or dead |
| `BatchExecutor.SettledOnce` | backend/app/shared/request_coalescing.py:293-300 | no future changes once settled or withdrawn |
| `BatchExecutor.EachPlaceGetsItsOwn` | backend/app/shared/request_coalescing.py:289-300 | over every run, the future at place i of a processed batch holds result i of the processor, or nothing if there is none, or the exception raised, or nothing after an uncaught one, unless it was withdrawn |
| `BatchExecutor.BatchingIsTransparent` | backend/app/shared/request_coalescing.py:250-300 | over every run whose processor answers each item it is handed by itself, every submitter has the answer to its own item, has withdrawn, or is pending with its own item |
| `BatchExecutor.SubmissionWaitsUnlessFull` | backend/app/shared/request_coalescing.py:256-266 | a submission hands over a batch if and only if the queue is then full, and that batch is the queue in order; otherwise it only joins the queue |
| `BatchExecutor.LiveTimerIffNoneDied` | backend/app/shared/request_coalescing.py:262-276 | over every run: items that wait have a timer that will fire if and only if no timer's task has ended by an uncaught exception or a cancellation |
| `BatchExecutor.FiringEmptiesQueue` | backend/app/shared/request_coalescing.py:270-276 | a live timer empties the queue when it fires, and waiting items have one as long as none has died |
| `BatchExecutor.LeftWaitingIffUnreached` | backend/app/shared/request_coalescing.py:289-300 | with nothing pending, a submitter is left waiting if and only if it has not withdrawn and its batch's reply does not reach its place |
| `BatchExecutor.EveryoneIsServed` | backend/app/shared/request_coalescing.py:289-295 | with nothing pending and one result per item, nobody is left waiting |
| `BatchExecutor.TimerGuaranteeIffPositive` | backend/app/shared/request_coalescing.py:262-276 | on every run waiting items have a timer that will fire, if and only if the batch size is positive and no timer dies, or the batch size is one |
| `BatchExecutor.StrandedAfterEscape` | backend/app/shared/request_coalescing.py:270-276 | a run in which an exception escapes a firing: its item is never answered, and the next one waits for a timer that never fires |
| `ComplexityAnalyzer.Analyzer.constructor` | backend/scripts/analyze_complexity.py:35-42 | nothing recorded, counters at zero |
| `ComplexityAnalyzer.Analyzer.Visit` | backend/scripts/analyze_complexity.py:94-117 | a visit adds the tree's decisions and records and raises the depth to the deepest nesting, and leaves the other running values |
| `ComplexityAnalyzer.Analyzer.VisitNested` | backend/scripts/analyze_complexity.py:119-124 | the children are visited one level deeper |
| `ComplexityAnalyzer.Analyzer.GenericVisit` | backend/scripts/analyze_complexity.py:123 | the children are visited in order |
| `ComplexityAnalyzer.Analyzer.CountArguments` | backend/scripts/analyze_complexity.py:64-68 | named, keyword-only and starred arguments, positional-only ones not counted |
| `ComplexityAnalyzer.Analyzer.AnalyzeFunction` | backend/scripts/analyze_complexity.py:50-92 | the records of nested functions and then its own are appended; all five running values come back as they were |
| `ComplexityAnalyzer.AnalyzeFile` | backend/scripts/analyze_complexity.py:140-142 | a file yields the specified records |
| `ComplexityAnalyzer.RecordsFollowFunctions` | backend/scripts/analyze_complexity.py:73-85 | exactly one record per function definition, in post-order: its name, its length, one more than its body's decisions, its body's nesting, and all its arguments but the positional-only ones |
| `ComplexityAnalyzer.DecisionSites` | backend/scripts/analyze_complexity.py:94-108 | the decision count is the number of places reachable without entering a nested function that hold a decision node |
| `ComplexityAnalyzer.DepthIsGreatestNesting` | backend/scripts/analyze_complexity.py:119-124 | the depth is the greatest number of nested blocks along any path that enters no nested function |
| `PoolForest.PoolTable.CreatePool` | backend/app/pools/service.py:112-130 | a pool is added under a live parent of its organization, or refused for exactly the reason that holds |
| `PoolForest.PoolTable.UpdatePool` | backend/app/pools/service.py:158-173 | the given fields of a live pool change and the forest stays |
| `PoolForest.PoolTable.HandOver` | backend/app/pools/service.py:187-188 | the listed children get the new parent, other rows stay |
| `PoolForest.PoolTable.DeletePool` | backend/app/pools/service.py:176-191 | a live pool is marked deleted and its live children get its parent; otherwise not found and nothing changes |
| `PoolForest.EveryRunIsAForest` | backend/app/pools/service.py:112-191 | over every sequence of creations and deletions: distinct ids, every parent an older pool of the organization, live parents for live pools |
| `PoolForest.NoPoolIsItsOwnAncestor` | backend/app/pools/service.py:112-191 | the hierarchy is acyclic |
| `PoolForest.DeletionKeepsForest` | backend/app/pools/service.py:176-191 | deletion keeps the forest |
| `PoolForest.DeletionPreservesAncestry` | backend/app/pools/service.py:187-190 | a deletion leaves the ancestor relation of the surviving live pools exactly as it was |
| `PoolForest.CreationExtendsAncestry` | backend/app/pools/service.py:120-128 | a new pool's ancestors are its parent and that one's ancestors; no other ancestry changes |
| `PoolForest.TreeListsEachOnce` | backend/app/pools/service.py:86-143 | the recursive tree of an organization ends, lists every live pool of it exactly once, and none of another organization |
| `PoolForest.DeletedChildIsStillShown` | backend/app/pools/service.py:105 | the children relationship does not filter: a deleted child of a live root still appears |
| `PoolResponses.TreeShowsTheTable` | backend/app/pools/service.py:65-101 | after every sequence of creations and deletions the tree shows the organization's live roots and below each pool, at every depth and in order of creation, the pools that name it as parent; each with its row's fields and its owner's name if the owner is an employee |
| `PoolResponses.DeletionChangesLittle` | backend/app/pools/service.py:175-191 | a deletion marks the pool, hands its live children to its parent, and changes nothing else |
| `RoleMigration.Database.SyncRolePermissions` | backend/alembic/versions/010_redesign_builtin_rbac_roles.py:147-231 | afterwards the role's live permissions are exactly the wanted ones in upper case, other roles' are untouched, uniqueness is kept, and nothing is written when nothing differs |
| `RoleMigration.Database.ReviseRows` | backend/alembic/versions/010_redesign_builtin_rbac_roles.py:168-197 | the role's existing rows are revived where wanted and marked deleted where not, with the time |
| `RoleMigration.Database.InsertMissing` | backend/alembic/versions/010_redesign_builtin_rbac_roles.py:197-231 | each wanted permission without a row gets one |
| `RoleMigration.Database.UpsertSystemRole` | backend/alembic/versions/010_redesign_builtin_rbac_roles.py:234-293 | the role of that name is live with the specified description and permissions, under its old identifier if it had one |
| `RoleMigration.Database.MigrateAssignments` | backend/alembic/versions/010_redesign_builtin_rbac_roles.py:296-405 | live assignments of the old role move to the new one, keeping one already held; uniqueness is kept through the loop |
| `RoleMigration.Database.RetireAssignments` | backend/alembic/versions/010_redesign_builtin_rbac_roles.py:393-405 | every live assignment of the old role in the organization is marked deleted, no other |
| `RoleMigration.Database.SoftDeleteRole` | backend/alembic/versions/010_redesign_builtin_rbac_roles.py:408-433 | the role and its permissions go, nothing else |
| `RoleMigration.Database.SoftDeletePermissions` | backend/alembic/versions/010_redesign_builtin_rbac_roles.py:408-420 | exactly the role's live permissions are marked deleted |
| `RoleMigration.Database.SoftDeleteRoleRow` | backend/alembic/versions/010_redesign_builtin_rbac_roles.py:422-433 | exactly the role's row is marked deleted, identifiers stay distinct |
| `RoleMigration.Database.SetUpRoles` | backend/alembic/versions/010_redesign_builtin_rbac_roles.py:457-463 | every specified role holds its specification, other roles and permissions stay, and a second time changes only update times |
| `RoleMigration.Database.ReplaceLegacyRole` | backend/alembic/versions/010_redesign_builtin_rbac_roles.py:465-475 | a live legacy role hands its assignments to the target and is deleted; an absent one changes nothing |
| `RoleMigration.Database.ReplaceLegacyRoles` | backend/alembic/versions/010_redesign_builtin_rbac_roles.py:465-475 | all live legacy roles are replaced, each by the role bearing its target name |
| `RoleMigration.Database.UpgradeOrg` | backend/alembic/versions/010_redesign_builtin_rbac_roles.py:457-475 | one organization is settled; run again it changes only update times |
| `RoleMigration.Database.UpgradeNext` | backend/alembic/versions/010_redesign_builtin_rbac_roles.py:457-475 | one more organization takes the tables one step along the trail the whole outcome is read from, and writes only update times if all were settled at the start |
| `RoleMigration.Database.Upgrade` | backend/alembic/versions/010_redesign_builtin_rbac_roles.py:436-475 | every organization is settled, everything else is as before, the assignments are the prior ones renamed, and on settled organizations only update times change |
| `RoleTables.EveryGrantMoves` | backend/alembic/versions/010_redesign_builtin_rbac_roles.py:296-405 | no assignment is lost: each is there under the name its role has afterwards |
| `RoleTables.EveryGrantContinues` | backend/alembic/versions/010_redesign_builtin_rbac_roles.py:296-405 | no assignment appears: each continues a prior one with the same grantor and times, its own if it was already held |
| `RoleTables.SettledSurvives` | backend/alembic/versions/010_redesign_builtin_rbac_roles.py:457-475 | migrating another organization does not undo one |
| `RoleTables.UpgradedStep` | backend/alembic/versions/010_redesign_builtin_rbac_roles.py:457-475 | one more organization extends the outcome: roles, permissions and assignments of all organizations so far |
| `RoleTables.TrailUpgrades` | backend/alembic/versions/010_redesign_builtin_rbac_roles.py:457-475 | taking distinct organizations one after the other gives the whole outcome |
| `BuiltInRoles.BuiltInPlanIsOk` | backend/alembic/versions/010_redesign_builtin_rbac_roles.py:24-126 | the built-in tables meet what the theorems ask: distinct names, each rename from an unspecified to a specified role |
| `BuiltInRoles.AdminsManageOrganizations` | backend/alembic/versions/010_redesign_builtin_rbac_roles.py:24-41 | with the built-in tables every organization's administrator role carries MANAGE on ORGANIZATION |
| `RoleOutcome.UpperLetterByLetter` | backend/alembic/versions/010_redesign_builtin_rbac_roles.py:148-151 | upper case pairs the letters of the alphabet and leaves every other character |
| `RoleOutcome.RolesCarryTheirPermissions` | backend/alembic/versions/010_redesign_builtin_rbac_roles.py:147-217 | after the migration a specified role carries a permission if and only if its specification lists that action and resource, each in upper case |
| `RoleOutcome.OtherRolesAreKept` | backend/alembic/versions/010_redesign_builtin_rbac_roles.py:436-475 | no legacy role is left; roles neither specified nor legacy, and other organizations', are as they were |
| `RoleOutcome.OtherPermissionsAreKept` | backend/alembic/versions/010_redesign_builtin_rbac_roles.py:436-475 | permissions change only of specified and of legacy roles |
| `RoleOutcome.LegacyHoldersAreHandedOver` | backend/alembic/versions/010_redesign_builtin_rbac_roles.py:281-405 | who held a legacy role holds the role of its target name, and the legacy role no more |
| `RoleOutcome.OtherHoldersStay` | backend/alembic/versions/010_redesign_builtin_rbac_roles.py:281-405 | every other assignment stays, with its grantor and times |
| `RoleOutcome.NobodyElseGains` | backend/alembic/versions/010_redesign_builtin_rbac_roles.py:281-405 | whoever gains an assignment held the legacy role that the role replaces, and has its grantor and times |
| `SchedulerFailures.Scheduler.ScheduleJob` | backend/app/scheduler/executor.py:72-130 | a job is registered exactly if the configuration handed in is enabled, below its maximum, not past its end and has a trigger |
| `SchedulerFailures.Scheduler.UnscheduleJob` | backend/app/scheduler/executor.py:133-141 | the job is dropped |
| `SchedulerFailures.Scheduler.CreateConfig` | backend/app/scheduler/service.py:29-73 | invalid selections and schedules are refused; otherwise a creation is under way |
| `SchedulerFailures.Scheduler.UpdateConfig` | backend/app/scheduler/service.py:132-175 | validation against new values or the ones read; otherwise an update is under way, from what was read |
| `SchedulerFailures.Scheduler.DeleteConfig` | backend/app/scheduler/service.py:188-192 | a deletion is under way, or the configuration is not found |
| `SchedulerFailures.Scheduler.Toggle` | backend/app/scheduler/service.py:201-209 | an enabling or disabling is under way, from what was read, or the configuration is not found |
| `SchedulerFailures.Scheduler.TriggerManual` | backend/app/scheduler/service.py:230-273 | a run is recorded if the configuration is enabled; the overrides of what to collect are set and taken back, and leave nothing |
| `SchedulerFailures.Scheduler.RetryLetter` | backend/app/scheduler/service.py:564-582 | a retry is under way, or refused: the letter is unknown, or abandoned |
| `SchedulerFailures.Scheduler.AbandonLetter` | backend/app/scheduler/service.py:609-619 | the letter is abandoned |
| `SchedulerFailures.Scheduler.ChangeRegistry` | backend/app/scheduler/service.py:176-218 | the registry changes as the request wants, before its transaction ends: enabling and creating schedule, disabling and deleting drop, updates only when schedule fields are among them, retries not at all |
| `SchedulerFailures.Scheduler.Commit` | backend/app/database.py:71-75 | the columns whose values the request changed go over what is stored by then; a configuration deleted meanwhile stays deleted |
| `SchedulerFailures.Scheduler.Rollback` | backend/app/database.py:76-78 | the tables are as before, the registry stays changed |
| `SchedulerFailures.Scheduler.BeginExecution` | backend/app/scheduler/executor.py:154-183 | the guard: missing, disabled or exhausted configurations do not run |
| `SchedulerFailures.Scheduler.FinishExecution` | backend/app/scheduler/executor.py:362-382 | run and configuration are read, and the verdict on the run is known; without them the run is given up |
| `SchedulerFailures.Scheduler.CrashExecution` | backend/app/scheduler/executor.py:416-430 | after an exception, or a failed commit, they are read again and the run counts as failed |
| `SchedulerFailures.Scheduler.RecordOutcome` | backend/app/scheduler/executor.py:384-409 | the count from the one read goes over what is stored, a dead letter is written where it reaches the maximum read, and the run gets its status |
| `SchedulerFailures.Scheduler.DropExhausted` | backend/app/scheduler/executor.py:412-414 | the job of an exhausted configuration is dropped, after the commit |
| `SchedulerFailures.Scheduler.RereadConfig` | backend/app/scheduler/executor.py:466-471 | after a crash that wrote no dead letter, an enabled configuration below its maximum that does not run once is to be rescheduled |
| `SchedulerFailures.Scheduler.RescheduleAfterCrash` | backend/app/scheduler/executor.py:472 | its job is entered, from what was read |
| `SchedulerFailures.UninterruptedRequest` | backend/app/scheduler/service.py:132-221 | a request that nothing interrupts does to the stored configuration and to the registry what it wants |
| `SchedulerFailures.UninterruptedOutcome` | backend/app/scheduler/executor.py:362-409 | a run whose read and commit nothing interrupts raises or clears the stored count |
| `SchedulerRules.AcceptedExactly` | backend/app/scheduler/service.py:36-162 | which requests are refused: what leaves nothing to collect, names a kind without its interval or expression, is not there, or retries an abandoned letter |
| `SchedulerRules.TriggerLetsRun` | backend/app/scheduler/service.py:230-273 | a manual trigger records a run if and only if the configuration is enabled, and the guard then admits it if the maximum is not reached; nothing else changes |
| `SchedulerRules.AbandonedIsFinal` | backend/app/scheduler/service.py:564-619 | an abandoned letter stays abandoned, but for a retry already under way: no new one is accepted |
| `SchedulerRules.FinishRunsItsCourse` | backend/app/scheduler/executor.py:362-414 | after an uninterrupted end a letter is written and the job dropped if and only if the count comes to the maximum |
| `SchedulerRules.CrashRunsItsCourse` | backend/app/scheduler/executor.py:416-472 | an uninterrupted crash counts as a failure; it writes a letter and drops the job at the maximum, and otherwise enters the job anew if the configuration is enabled and does not run once |
| `SchedulerRules.VerdictByResults` | backend/app/scheduler/executor.py:366-382 | a run counts as failed if and only if some collection left an error and none succeeded; otherwise, a mixed run included, the count is cleared; the status tells completed, partial and failed apart |
| `SchedulerRules.EntersExactly` | backend/app/scheduler/executor.py:72-130 | a job is entered if and only if its configuration is enabled, below its maximum, not past its end, and has a usable trigger of its kind; other jobs stay |
| `SchedulerRules.RequestInColumns` | backend/app/scheduler/service.py:29-221 | what an uninterrupted request leaves of the configuration, column by column: updates change their own columns, enabling and retrying clear the count, deletion takes the runs along |
| `SchedulerRules.RequestInRegistry` | backend/app/scheduler/service.py:176-218 | and whether the job is registered afterwards |
| `SchedulerRules.UpdateKeepsSchedule` | backend/app/scheduler/service.py:155-173 | a creation always leaves a usable schedule; an accepted update of a configuration that has one leaves one if and only if it does not hand in an empty interval or expression for the kind it leaves |
| `SchedulerRules.NullIntervalIsAccepted` | backend/app/scheduler/service.py:155-173 | an interval set to null is validated as the stored one and written as null, so the job goes |
| `SchedulerRules.DisjointUpdatesBothSurvive` | backend/app/scheduler/service.py:168-175 | two updates of different columns that read the same row both survive, in whichever order they commit |
| `SchedulerCounts.AccountsStep` | backend/app/scheduler/executor.py:370-409 | with a fixed maximum >= 1, a step keeps count and dead letters right if and only if its writer is not overtaken: a failed run's count as read is the stored one, a restart's was read other than zero or is zero still |
| `SchedulerCounts.FailuresAreTrailing` | backend/app/scheduler/executor.py:370-400 | over every interleaving with a fixed maximum >= 1 in which no writer is overtaken: the stored count is the number of failed runs since the last completed or partial run, enabling, retry or creation, and the dead letters are the failed runs that found it at the maximum or brought it there |
| `SchedulerCounts.RightThroughoutIffNeverOvertaken` | backend/app/scheduler/executor.py:362-460 | over every interleaving with a fixed maximum >= 1: that holds throughout if and only if no writer is overtaken |
| `SchedulerCounts.NothingBetween` | backend/app/scheduler/executor.py:364-409 | a writer is not overtaken if nobody else commits to the configuration between its read and its commit |
| `SchedulerCounts.GuardWaitsForRestart` | backend/app/scheduler/executor.py:162-170 | where no writer is overtaken, an execution passes the guard if and only if its configuration is enabled and fewer failed runs than the maximum follow the last restart |
| `SchedulerOverlap.OverlapBoundsFailures` | backend/app/scheduler/executor.py:370-400 | with at most k executions overlapping and no writer overtaken, the count stays below the maximum plus k, and so does every dead letter's |
| `SchedulerOverlap.SequentialRunsStopAtMaximum` | backend/app/scheduler/executor.py:384-396 | without overlap the count never exceeds the maximum and every dead letter was written on reaching it, whoever is overtaken; where nobody is, the count is the trailing failures |
| `SchedulerHistories.OverlapBoundIsReached` | backend/app/scheduler/executor.py:370-400 | the bound of k overlapping executions is reached from the empty system with no writer overtaken, for every maximum >= 1 and every k >= 1: the count comes to the maximum less one plus k, with k dead letters |
| `SchedulerHistories.OverlapPassesMaximum` | backend/app/scheduler/executor.py:376-396 | for every maximum >= 1, a run from the empty system in which two overlapping failing executions pass it and write two letters |
| `SchedulerHistories.MaximumHoldsIffSequential` | backend/app/scheduler/executor.py:376-396 | no history with at most k overlapping executions, whoever is overtaken in it, passes a maximum >= 1, if and only if k is at most one |
| `SchedulerHistories.LostFailure` | backend/app/scheduler/executor.py:364-378 | at any maximum >= 2, a run from the empty system in which two overlapping failing executions both read zero: two runs have failed, the count is one, no letter is written and the guard admits the next execution |
| `SchedulerHistories.OvertakenCountsHaveNoBound` | backend/app/scheduler/executor.py:364-409 | where writers are overtaken there is no bound: with at most two executions overlapping, any count is reached at any maximum >= 1 |
| `SchedulerHistories.RolledBackCreation` | backend/app/scheduler/service.py:72-79 | a creation that schedules its job and fails to commit leaves a job without a configuration |
| `SchedulerHistories.ReenteredJob` | backend/app/scheduler/executor.py:466-472 | a crashed run that reads the configuration after a deletion or disabling has dropped the job and before it commits enters the job again, and it stays |
| `SchedulerRegistry.HealthStep` | backend/app/scheduler/service.py:176-218 | a registry in which every job belongs to an enabled configuration below its maximum, or has something under way that will make that so or drop it, stays so at a step if and only if the step is not one that spoils it |
| `SchedulerRegistry.SpoilingAlone` | backend/app/scheduler/executor.py:466-472 | which steps these are when nothing else is under way on the configuration: a job entered from what is good no more, a commit that disables, deletes or exhausts while the job is registered, a rollback after scheduling, a count below the maximum read and at the stored one, a death before the drop |
| `SchedulerRegistry.FreshEntryIsFine` | backend/app/scheduler/executor.py:72-130 | a job entered from a configuration that is still as it was read never spoils it |
| `SchedulerRegistry.SoundThroughoutIffNeverSpoilt` | backend/app/scheduler/executor.py:82-128 | over every interleaving the registry is right in that sense throughout, if and only if no step spoils it |
| `SchedulerRegistry.RegisteredJobsAreHealthy` | backend/app/scheduler/executor.py:82-128 | so over every interleaving without such a step, whenever no request is open and no drop is due, every job belongs to an enabled configuration below its maximum |
| `ExpenseBreakdown.Round2` | backend/app/expenses/service.py:297 | rounding to cents moves an amount by at most half a cent |
| `ExpenseBreakdown.RoundsToNearestCent` | backend/app/expenses/service.py:297 | the result is the one whole number of cents nearest to the amount, the even one of two |
| `ExpenseBreakdown.SumOf` | backend/app/expenses/service.py:285 | the sum, or the failure of a record without a cost |
| `ExpenseBreakdown.AddAccountDays` | backend/app/expenses/service.py:288-291 | the days of one account, up to the first record without a date |
| `ExpenseBreakdown.BreakdownByAccount` | backend/app/expenses/service.py:274-308 | the report by account, including what accounts that fail half way leave behind |
| `ExpenseBreakdown.FileAll` | backend/app/expenses/service.py:322-324 | the records of one account join the groups of their keys, new keys at the end |
| `ExpenseBreakdown.GatherByKey` | backend/app/expenses/service.py:311-332 | the records filed by group key in order of appearance, and the accounts that failed |
| `ExpenseBreakdown.AddDays` | backend/app/expenses/service.py:339-342 | one group's days and the overall days, or the failure of a record without a date |
| `ExpenseBreakdown.AddGroup` | backend/app/expenses/service.py:334-356 | one group's total, days and item |
| `ExpenseBreakdown.AddGroups` | backend/app/expenses/service.py:334-356 | all groups |
| `ExpenseBreakdown.BreakdownByGroup` | backend/app/expenses/service.py:309-356 | the report by group, or the error of a malformed record, which is not caught in this mode |
| `ExpenseBreakdown.GetBreakdown` | backend/app/expenses/service.py:274-382 | which of the two modes applies, and the sorted and rounded report |
| `ExpenseBreakdown.AccountBalance` | backend/app/expenses/service.py:274-308 | by account, for every input: grand total and days are the shown accounts' totals plus exactly what half-counted accounts left |
| `ExpenseBreakdown.HalfCountedAccount` | backend/app/expenses/service.py:285-308 | an account whose second record has no date: both costs are in the grand total and the first on its day, while the account is shown as failed and has no item |
| `ExpenseBreakdown.NothingHalfCounted` | backend/app/expenses/service.py:277-300 | when every fetched record has a cost and a date nothing is half counted |
| `ExpenseBreakdown.GroupBalance` | backend/app/expenses/service.py:334-356 | by group: grand total, groups and days each add up to everything fetched |
| `ExpenseBreakdown.GroupingDoesNotMatter` | backend/app/expenses/service.py:274-356 | the displayed grand total does not depend on the grouping when the fetched costs are the same |
| `ExpenseBreakdown.DisplayedTotalsAgree` | backend/app/expenses/service.py:358-382 | the displayed total differs from the sum of n displayed items, or days, by at most (n + 1) / 2 cents |
| `ExpenseBreakdown.DaysAreRight` | backend/app/expenses/service.py:361-364 | each day's figure is the sum of the costs fetched for that day: by group always, by account when every fetched record has a cost and a date |
| `ExpenseBreakdown.GroupsAreRight` | backend/app/expenses/service.py:334-356 | the groups shown are exactly the keys that occur, each once, with the sum of its records |
| `ExpenseBreakdown.DisplayIsOrdered` | backend/app/expenses/service.py:358-364 | items by falling total, days by rising date, nothing lost or added by sorting |
| `ExpenseItems.AccountItemsAreRight` | backend/app/expenses/service.py:274-308 | by account the items are, in order, the accounts fetched with a cost and a date in every record, each with its own records day by day and their sum to the cent; all others are listed as failed |
| `ExpenseItems.GroupItemsAreRight` | backend/app/expenses/service.py:334-356 | by group an item shows the days on which its key occurs, each once, with the sum of the key's records of the day to the cent |
| `ExpenseItems.DisplayedDaysAreRight` | backend/app/expenses/service.py:361-364 | the days displayed are those that occur, each once, with the sum fetched for it to the cent: by group always, by account when every fetched record has a cost and a date |
| `StableSort.SortOrders` | backend/app/expenses/service.py:359 | sorting gives an ordered permutation |
| `StableSort.SortIsStable` | backend/app/expenses/service.py:359 | elements that tie keep their order |
| `RefreshGuard.CostCache.ScheduleBackgroundRefresh` | backend/app/cost_cache/service.py:55-63 | a task is created and entered in the table unless a running one is there |
| `RefreshGuard.CostCache.EnterRefresh` | backend/app/cost_cache/service.py:228-240 | a call is let in, and entered, unless another running task is in the table |
| `RefreshGuard.CostCache.LeaveRefresh` | backend/app/cost_cache/service.py:331-333 | the entry goes if it is the task's own |
| `RefreshGuard.CostCache.TaskEnded` | backend/app/cost_cache/service.py:55-63 | a task that ends is done from then on, wherever it stood; the table keeps its entry |
| `RefreshGuard.CostCache.IsRefreshing` | backend/app/cost_cache/service.py:377-380 | whether a running task is in the table |
| `RefreshGuard.TableStaysRight` | backend/app/cost_cache/service.py:55-63 | over every interleaving the table is, among running tasks, the inverse of who refreshes or is created to refresh which organization |
| `RefreshGuard.OneRefreshPerOrganization` | backend/app/cost_cache/service.py:228-240 | at most one task per organization is inside the refresh or waiting to enter it |
| `RefreshGuard.RefusedOnlyWhileRefreshing` | backend/app/cost_cache/service.py:232-237 | a call is turned away if and only if another task refreshes the organization or has been created to |
| `RefreshGuard.BackgroundTaskEnters` | backend/app/cost_cache/service.py:232 | a background task is never turned away |
| `RefreshGuard.LeavingRemovesOwnEntry` | backend/app/cost_cache/service.py:331-333 | the conditional removal always finds the task's own entry and never removes another's |
| `RefreshGuard.StatusIsRight` | backend/app/cost_cache/service.py:377-380 | the reported refreshing status is true if and only if some task is at it |
| `RefreshGuard.IdleOrganizationIsOpen` | backend/app/cost_cache/service.py:228-240 | no organization is locked out: with no task at it the next call is let in |
| `RefreshGuard.CreatedIffUnattended` | backend/app/cost_cache/service.py:55-63 | a background refresh is created if and only if no task is at the organization; it then waits there, in the table, and nobody else moves |
| `RefreshGuard.EnteredIffAlone` | backend/app/cost_cache/service.py:228-240 | a call goes inside if and only if no other task is at the organization, and is over otherwise; nobody else moves |
| `TokenRotation.TokenManager.CreateTokenPair` | backend/app/auth/token_manager.py:52-101 | a fresh token is stored unused for seven days; without Redis, or when it fails, it is issued unstored |
| `TokenRotation.TokenManager.RotateRefreshToken` | backend/app/auth/token_manager.py:103-141 | unknown, used and unused tokens: refused, all the user's tokens revoked, or marked used for a minute and succeeded by a new one |
| `TokenRotation.TokenManager.RevokeAllUserSessions` | backend/app/auth/token_manager.py:152-183 | the scan removes exactly the user's live records, but those whose delete raises, which is swallowed, and counts what it removed |
| `TokenRotation.OneLiveTokenPerChain` | backend/app/auth/token_manager.py:103-141 | over every run of calls that do not interleave, each chain started by a pair creation has at most one token that can be rotated |
| `TokenRotation.OneSuccessorPerToken` | backend/app/auth/token_manager.py:130-141 | no token is rotated twice over a whole run of calls that do not interleave |
| `TokenRotation.ReuseLeavesNothing` | backend/app/auth/token_manager.py:124-128 | presenting a used token while its record survives leaves its user, of all tokens Redis would return, exactly those whose delete failed |
| `TokenRotation.RevocationIsFinal` | backend/app/auth/token_manager.py:152-183 | once a user's tokens are revoked, none issued before is ever rotated again, unless it could be rotated then and its delete failed |
| `TokenRotation.RevocationIsFinalIffDeleted` | backend/app/auth/token_manager.py:170-178 | however the run goes on a revoked token is never rotated, if and only if it could not be rotated then or its delete did not fail |
| `TokenRotation.ReuseIsDetectedForAMinute` | backend/app/auth/token_manager.py:130-132 | a rotated token presented again, its record not deleted meanwhile, is detected if and only if less than sixty seconds have passed, and never rotates |
| `TokenLifetimes.RotatableForSevenDays` | backend/app/auth/token_manager.py:81-183 | which tokens can be rotated, exactly, after every run of calls that do not interleave: those stored when issued, less than seven days before, not rotated since, and not deleted by a revocation of their own user |
| `TokenLifetimes.OthersKeepTheirTokens` | backend/app/auth/token_manager.py:170-178 | a revocation, requested or by reuse, leaves every other user's tokens as they were |
| `TokenLifetimes.IssuedToSomebody` | backend/app/auth/token_manager.py:52-141 | every issued token has one owner: the user who logs in, or its predecessor's |
| `TokenRaces.UninterruptedRotation` | backend/app/auth/token_manager.py:114-139 | the read, the mark and the storing of the successor with nothing in between are the rotation of one step |
| `TokenRaces.RotationsOfOneTokenOverlap` | backend/app/auth/token_manager.py:114-132 | over every interleaving of those calls with anything else: whoever rotates a token has read it before anybody marked it, so two rotations of one token overlap |
| `TokenRaces.ApartRotationsAreLinear` | backend/app/auth/token_manager.py:103-141 | where rotations of one token do not overlap, whatever else interleaves: no token is rotated twice, and each chain has at most one token that can be |
| `TokenRaces.OverlapForksChain` | backend/app/auth/token_manager.py:114-132 | a run in which two rotations of one token overlap: it has two successors, and both can be rotated on |
| `LogoutRaces.LogoutIsFinalIffQuiet` | backend/app/auth/token_manager.py:114-183 | after a revocation that deletes all of a user's records: through every interleaving without another login the user cannot rotate any token, if and only if no rotation of the user is under way at the revocation |
| `LogoutRaces.CompletionLogsIn` | backend/app/auth/token_manager.py:130-141 | a rotation under way marks its token anew and issues a successor that can be rotated |
| `CredentialCache.SecureCredentialCache.CleanupExpired` | backend/app/cloud_accounts/credential_cache.py:45-59 | exactly the expired memory entries go, counted |
| `CredentialCache.SecureCredentialCache.GetCredentials` | backend/app/cloud_accounts/credential_cache.py:61-142 | memory, then Redis with a refill for a minute, then decryption |
| `CredentialCache.SecureCredentialCache.CacheCredentials` | backend/app/cloud_accounts/credential_cache.py:144-170 | both levels get the credentials with their own lifetimes; a Redis failure is swallowed |
| `CredentialCache.SecureCredentialCache.Invalidate` | backend/app/cloud_accounts/credential_cache.py:183-217 | which levels forget the account, and the reported result |
| `CredentialCache.SecureCredentialCache.InvalidateAll` | backend/app/cloud_accounts/credential_cache.py:219-255 | memory is emptied; Redis fully, or up to a failure |
| `CredentialCache.LevelsAreBacked` | backend/app/cloud_accounts/credential_cache.py:75-161 | over every run each cached value goes back to a configuration supplied for the account and not cleared since |
| `CredentialCache.CredentialsAreRecent` | backend/app/cloud_accounts/credential_cache.py:75-142 | a call returns the decryption of a configuration supplied by it or less than ttl_seconds + 60 before, however often memory was refilled |
| `CredentialCache.InvalidationIsRespected` | backend/app/cloud_accounts/credential_cache.py:183-205 | over every run of calls that do not interleave: after an invalidation that succeeded on both levels the next answer comes from a configuration supplied later |
| `CredentialCache.BoundIsReached` | backend/app/cloud_accounts/credential_cache.py:104-114 | every age below the bound occurs, after an invalidation that did not reach Redis |
| `CredentialCache.CachedForAMinute` | backend/app/cloud_accounts/credential_cache.py:75-170 | what a call had to decrypt is answered for a minute, with Redis or without, whatever configuration is handed in, unless the account is invalidated; invalidating others does not matter |
| `CredentialRaces.UninterruptedCall` | backend/app/cloud_accounts/credential_cache.py:61-170 | a call whose lookups and writes nothing interrupts is the call of one step |
| `CredentialRaces.QuietInvalidationIsRespected` | backend/app/cloud_accounts/credential_cache.py:183-205 | over every interleaving: once an invalidation has cleared both levels with no call at the account, every later call is answered from a configuration that it or another later call supplied |
| `CredentialRaces.CleanIffNoCall` | backend/app/cloud_accounts/credential_cache.py:183-205 | clearing both levels leaves nothing to come back if and only if no call is at the account |
| `CredentialRaces.StraddlingCallSurvives` | backend/app/cloud_accounts/credential_cache.py:131-142 | a run in which a call has decrypted before the invalidation and writes memory after it: the next call is answered with the previous credentials |

## Left out

- Floating point: times, costs and limits are reals or integers; `retry_after` and `reset` values, which are truncated, are not modelled.
- Hashing, JWT, Fernet and random identifiers: keys are taken as injective, new identifiers as fresh, and what is encrypted is read back as it was. Access tokens, `decode_access_token` and `revoke_session` are not part of this model.
- Logging, metrics, statistics and health-check formatting.
- Rate limiting: which tier, key and path apply to a request, the on/off switch, and several servers whose clocks disagree; Redis time is the caller's time.
- DenyCountingLimiter.RedisRateLimiter.IsAllowed: the extra range read after a refusal only feeds `retry_after`; if it raises, the request is counted as a lost reply.
- Circuit breaker: the remaining-time figure in its error, and the decorator.
- Request coalescing: the default coalescers and the decorator.
- Batch executor: a processor that never returns.
- ComplexityAnalyzer.AnalyzeFile: reading and parsing the file, whose errors give an empty list, are not modelled; trees keep of a node only what the visitor looks at, so decorators and default values of a function, which it never visits, are absent.
- Pools: policies, the `spent` placeholder (always zero), and timestamps; rows are kept in order of creation and `created_at` has no other use.
- RoleMigration.Database.Upgrade: the check that the tables exist, and the choice of the live organizations, come as input; row identifiers of permissions and assignments and `created_at` are not kept. Upper-casing covers ASCII letters, as the enumerated names need.
- Foreign keys are modelled only where a request can violate one (a pool created with an empty parent id).
- Scheduler: the bodies of the three collections (their outcomes are inputs), run logs, names and time zones, the organization filter of lookups, malformed cron expressions, and loading all schedulers at start-up.
- SchedulerFailures.Scheduler.Commit: a transaction reads committed rows and writes at its commit the columns whose values it changed, as PostgreSQL and the mapper do by default; row locks only take interleavings away. A retry's two commits are one step, so a letter whose retry fails after the first is not modelled as still pending.
- SchedulerFailures.Scheduler.BeginExecution: the guard's read and the run's record are one step, and so are a manual trigger's; a configuration deleted between them ends the run without effect, as one deleted right after does.
- Expenses: fetching, caching of the finished report, currencies, and rounding of the binary value behind a decimal figure.
- ExpenseBreakdown.GetBreakdown: dates and group keys are compared as strings, and a record's absent group key counts as "Unknown"; start and end dates only select what is fetched.
- Cost cache: the contents, totals and status rows of a refresh; only the guard around its body is modelled. A call outside any task is not modelled.
- TokenRotation.TokenManager.RotateRefreshToken: one rotation is one atomic step here, as are revocations; rotations call by call are in TokenRaces. Corrupted records and a failing read or mark, which raise without effect, are not modelled.
- TokenRotation.TokenManager.RevokeAllUserSessions: a read that raises inside the scan, or a malformed reply to it, ends the revocation early. Its effect on the store is modelled, the records not reached being among those not deleted; that a raising read also replaces the error reported is not.
- CredentialCache.SecureCredentialCache.GetCredentials: each call is one step at one instant here; calls that interleave are in CredentialRaces, there without clearing everything at once. A Redis value that cannot be decrypted counts as unreadable.
- Key rotation, idempotent request replay, cloud adapters, mail, the other migrations and the frontend: no property here depends on them.
