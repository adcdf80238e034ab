# Verified model of ratelimiter-redis

A Dafny model of the concurrent protocols, the rate-limiting algorithms and the timed state machines
of the Go middleware toolkit `ratelimiter-redis`, with proofs over every interleaving, every run or
every input.

## How to read it

* **Protocols** (`Coalescing`, `Quotas`, `Throttle`, `Pause`, `Hedging`, the middleware part of
  `CircuitBreaker`): a `State`, a `Step` per mutex region, channel operation or store operation, and
  `Enabled`/`Apply`. A run is a sequence of states `tr` under an interleaving `sched` of any number of
  requests. A class beside it holds the source's fields, and each of its methods is one atomic region,
  proved to take the step (`QuotaManager` and `Circuit` have whole methods instead). Requests are the
  positions of `pcs` (`calls` in `Quotas`); any finite number is allowed.
* **Limiters** (`TokenBucket`, `LeakyBucket`, `SlidingWindow`, `AlignedWindows`, `Stores`): the effect of
  one call on one key as a function, runs as sequences of clock readings, and a counter class over the
  stored entries whose `Allow` is proved to have that effect and to leave other clients alone.
* **State machines and arithmetic** (`CircuitBreaker`, `Dedup`, `Adaptive`, `Text`).

Conventions: one clock, read once per call (the duplicate filter has both of its readings and the sweep's
earlier one); an entry has expired once the clock is *past* its expiry, which is both `time.After` and the
rule of Redis; arithmetic is exact. The Redis client sends `Expire` and `ExpireAt` in whole seconds, which
`SlidingWindow`, `AlignedWindows` and `Stores` follow. Where an equivalence depends on how readings fall on
the clock's seconds or milliseconds, it is stated for runs that begin as late as one likes. The files of the
repository do not form one compilable package, so each is modelled on its own; `Decrement`, which `quota.go`
calls and no store offers, is taken as subtracting one.

## What turned out differently from the documentation

* **Token bucket.** Keys are dropped after `2 * window`. That is harmless, and the usual bound of `burst`
  plus refill holds, exactly when `burst * window <= (2 * window + 1) * rate` (which any `burst` up to
  `2 * rate` satisfies); otherwise two full bursts fit into `2 * window + 1` ms.
* **Leaky bucket.** One window can admit twice `rate` requests: the admission bound is attained. It holds
  on every interleaving of reads and writes with at most `c` calls between the two exactly when `c <= 1`:
  two overlapping calls already let through twice the rate at one instant, and any number of calls that
  read before one of them writes are all admitted. A client called `k:last` shares a stored key with the
  client `k`.
* **Sliding window.** Scores are whole milliseconds, so the limit holds for spans of stamps measured in
  milliseconds; on the nanosecond scale it holds exactly for spans up to `window - 1` ms (or shorter than
  `max` ns). Attempts in the same nanosecond count once: the counts of a run are right exactly when its
  stamps all differ, and any number of calls with one stamp is admitted.
* **Aligned windows.** Each window admits exactly its first `limit` calls on every run exactly when windows
  last at least a second (burst counter) or whole seconds (fixed window), or the limit is not positive:
  shorter burst windows share a key, and a fixed window that ends between seconds loses its key early.
* **Throttle.** A queued request is never run, whatever slots come free; it can only time out or be cancelled.
* **Hedging.** At most one hedge is launched, because the timer is never re-armed. The handler may return
  on the loser's completion before the winner has forwarded anything, and a status without a body is never
  forwarded: both are guaranteed to arrive exactly for requests that the predicate exempts from hedging.
* **Circuit breaker.** A half-open circuit never re-opens on blocked requests; a threshold below one acts
  as one; a return to closed from open fires no reset callback.
* **Redis store.** `Increment` renews the expiry on every call, against its comment, so it counts the
  unbroken series of calls and not the window. It is never laxer than the memory store exactly for windows
  of less than a second or of whole seconds, since the client shortens all others.
* **Quotas.** A call refused by one quota keeps its increment in the earlier ones. Whatever the quotas are
  called, none lets more than its limit through; but counts are right on every interleaving exactly when no
  quota that a call can get to has a name that, with its colon, begins that of another or is begun by it.

## Model

| member | source | states |
|---|---|---|
| Coalescing.OneLeaderPerKey | request_coalescing.go:31-47 | in every reachable state of every interleaving a key has at most one leader between insertion and deletion, and the map entry is that leader's call |
| Coalescing.DeleteIsOwn | request_coalescing.go:45-47 | a delete removes exactly the deleting leader's own entry, whose waiters have been released, and leaves the key without a leader |
| Coalescing.FollowerSharesLeadersOutcome | request_coalescing.go:28-36 | every follower returns the value and error that its leader's `fn` produced, and joined while that leader's entry was still in the map |
| Coalescing.LeaderReturnsItsOutcome | request_coalescing.go:42-49 | a leader returns what its own `fn` produced |
| Coalescing.FnRunsOncePerLeader | request_coalescing.go:42 | no call runs `fn` twice |
| Coalescing.CallsAreConserved | request_coalescing.go:30-50 | when all calls have returned, `fn` runs plus coalesced calls equal the calls made |
| Coalescing.NeverStuck | request_coalescing.go:31-49 | while a call has not returned, some step is possible |
| Coalescing.RunsAreBounded | request_coalescing.go:30-50 | every interleaving of k calls has at most 5k steps, and one that cannot go on has every call returned |
| Coalescing.StepKeepsInv | request_coalescing.go:30-50 | every atomic step keeps the invariant tying map entries, call records and callers together |
| Coalescing.CoalescingGroup.constructor | request_coalescing.go:22-26 | a new group has no calls in flight |
| Coalescing.CoalescingGroup.Join | request_coalescing.go:31-40 | the locked lookup-or-insert region takes the `Enter` step and says who leads |
| Coalescing.CoalescingGroup.Store | request_coalescing.go:42 | the outcome of `fn` goes into the caller's own call record |
| Coalescing.CoalescingGroup.Done | request_coalescing.go:43 | the wait group of the caller's call is released |
| Coalescing.CoalescingGroup.Delete | request_coalescing.go:45-47 | the locked delete takes the `Unlink` step |
| Coalescing.CoalescingGroup.Wait | request_coalescing.go:34 | a follower passes its wait only once the call is done |
| Coalescing.CoalescingGroup.Leave | request_coalescing.go:35-49 | the returned value, flag and error are those of the call record |
| TokenBucket.RefinesReferenceIff | token_bucket.go:49-69 | the verdicts of every run equal those of a bucket that refills and writes on every call and never expires, exactly when `burst * window <= (2 * window + 1) * rate` |
| TokenBucket.AdmissionBoundIff | token_bucket.go:23-69 | every stretch of every run admits at most `burst` plus the refill over its span, under exactly the same condition |
| TokenBucket.AdmitsWhatFitsIff | token_bucket.go:49-69 | on every run a call is admitted exactly when that keeps the bound over every stretch ending with it, so none is refused without need, under exactly the same condition |
| TokenBucket.BurstUpToTwiceRateIsHarmless | token_bucket.go:69 | a burst of at most twice the rate satisfies the condition |
| TokenBucket.DrainTwiceBreaksBound | token_bucket.go:58-69 | otherwise a concrete run admits two full bursts within `2 * window + 1` ms |
| TokenBucket.RefBound | token_bucket.go:12-13 | the reference bucket meets the admission bound unconditionally |
| TokenBucket.StoredTokensStayWithin | token_bucket.go:55-64 | stored tokens stay between 0 and `burst - 1` on every run, whatever the clock does |
| TokenBucket.RemainingIsPromise | token_bucket.go:81-92 | as many further calls as `Remaining` reports are all admitted, at any later times, also when the keys expire in between |
| TokenBucket.RemainingIsExact | token_bucket.go:82-92 | of calls at the time of the last admission, or now when nothing is stored, exactly as many as `Remaining` reports are admitted; the refill since is not reported |
| TokenBucket.KeysAreDistinct | token_bucket.go:38-39 | the two stored keys of all clients are distinct |
| TokenBucket.TokenBucketCounter.constructor | token_bucket.go:23-31 | a counter starts with nothing stored |
| TokenBucket.TokenBucketCounter.Allow | token_bucket.go:35-79 | the script admits and writes as the bucket function says, and touches no other client |
| TokenBucket.TokenBucketCounter.Remaining | token_bucket.go:82-92 | whole stored tokens, or the burst when nothing live is stored |
| LeakyBucket.LeakRate | leaky_bucket.go:22-29 | the leak interval is the longest of which `rate` fit into the window, at least one nanosecond |
| LeakyBucket.LevelIsLeaked | leaky_bucket.go:49-61 | on every run the level a call finds is the stored count less one for every whole `window / rate` elapsed, down to zero, and the call is admitted exactly when it is below the rate |
| LeakyBucket.NothingStoredIff | leaky_bucket.go:65-67 | a bucket is stored exactly once a call has been admitted |
| LeakyBucket.StoredIsLastAdmission | leaky_bucket.go:63-67 | what is stored is one more than the level the last admitted call found, at the time of that call |
| LeakyBucket.LevelStaysWithin | leaky_bucket.go:49-66 | the stored level stays between 1 and `rate` on every run |
| LeakyBucket.WindowLeaksAll | leaky_bucket.go:27-50 | a window leaks a full bucket however the interval was rounded |
| LeakyBucket.ExpiryIsUnobservable | leaky_bucket.go:43-67 | every run passes through the same buckets and levels as in a store that never drops keys |
| LeakyBucket.LevelCoversExact | leaky_bucket.go:49-66 | at every call of every run the level is at least that of an exact continuously leaking bucket fed the same admitted calls |
| LeakyBucket.ExactNeverOverflows | leaky_bucket.go:59-63 | what the code admits never overflows the exact bucket |
| LeakyBucket.AdmissionBound | leaky_bucket.go:31-73 | every serialised stretch spanning D ns admits at most `rate + D / leakRate` calls |
| LeakyBucket.AdmissionBoundIsTight | leaky_bucket.go:20-63 | for every configuration and every number of leak intervals there is a run that attains the bound |
| LeakyBucket.SerialisedRunIsBucketRun | leaky_bucket.go:38-67 | on every run of read and write transactions in which no two calls overlap, whatever time passes between the two, the store holds the bucket of the admitted calls, and a call finds room exactly when that bucket admits it |
| LeakyBucket.BoundNeedsSerialisationIff | leaky_bucket.go:33-73 | the admission bound holds on every run with at most `c` calls between their read and their write exactly when `c <= 1` |
| LeakyBucket.PairsBreakBound | leaky_bucket.go:38-67 | a run with never more than two overlapping calls admits twice the rate at one instant |
| LeakyBucket.OverlapAdmitsAll | leaky_bucket.go:38-67 | any number of calls on an empty key that all read before one writes are all admitted, and leave a count of one |
| LeakyBucket.ClientsCollideIff | leaky_bucket.go:35-36 | two clients share a stored key exactly when one is the other followed by `:last` |
| LeakyBucket.LeakyBucketCounter.constructor | leaky_bucket.go:22-29 | a counter starts with nothing stored |
| LeakyBucket.LeakyBucketCounter.Allow | leaky_bucket.go:33-74 | one serialised call leaks, admits, writes and reports what remains, as the bucket function says while the client's two entries are its own, and touches no client whose keys do not collide |
| SlidingWindow.SetIsRecentLog | sliding_window.go:25-43 | after every call of every run the pruned, expiring set holds exactly the attempts, admitted or not, of the window that ends with it |
| SlidingWindow.KeyLivesForWindow | sliding_window.go:42-43 | after an attempt the key lives for the next whole number of seconds above the window |
| SlidingWindow.AdmittedIffStampsFit | sliding_window.go:34-55 | on every run a call is admitted exactly when the distinct stamps among the attempts of its window, itself included, number at most `max` |
| SlidingWindow.CountIsExactIff | sliding_window.go:34-40 | the count of a call never exceeds the attempts of its window, and equals them exactly when no two of them have the same stamp |
| SlidingWindow.CountsAreExactIff | sliding_window.go:34-40 | every count of a run is the number of attempts in its window exactly when all stamps of the run differ |
| SlidingWindow.AdmittedIffWindowFits | sliding_window.go:39-55 | with distinct stamps a call is admitted exactly when the attempts of its window, itself included, number at most `max` |
| SlidingWindow.AdmissionBound | sliding_window.go:22-55 | every span of `window` milliseconds of every run with distinct stamps has at most `max` admissions |
| SlidingWindow.StampBound | sliding_window.go:25-55 | on every run, ties or not, the admissions in such a span have at most `max` distinct stamps |
| SlidingWindow.TiesBreakBoundIff | sliding_window.go:34-55 | when stamps may tie, the limit is kept on every run, however late it begins, exactly when it admits nothing at all |
| SlidingWindow.NanosecondBoundIff | sliding_window.go:31-37 | the exact span lengths for which the limit also holds on the nanosecond scale, on runs that begin however late |
| SlidingWindow.SameInstantCountsOnce | sliding_window.go:34-37 | any number of calls with the same stamp are all admitted, under every positive limit |
| SlidingWindow.SlidingWindowCounter.constructor | sliding_window.go:18-20 | a counter with nothing stored |
| SlidingWindow.SlidingWindowCounter.Allow | sliding_window.go:24-56 | prune, add, count and renew as the log function says, for this key only |
| Quotas.RunConserves | quota.go:37-54 | whatever the names, in every interleaving of calls with any request keys each stored count is the increments that the calls have passed or are about to compensate under that key |
| Quotas.NeverMoreThanLimitPass | quota.go:37-54 | whatever the names, in every interleaving a quota lets no more than its limit of calls through for any request key |
| Quotas.CountsAreRightIff | quota.go:37-54 | for every quota and request key the stored count is the calls that passed plus the pending compensations, on all interleavings exactly when no quota that a call can get to has a name colliding with another |
| Quotas.DistinctColonFreeNamesAreSeparate | quota.go:40 | distinct colon-free names meet that condition |
| Quotas.RefusedOnlyWhenFull | quota.go:42-50 | with such names, concurrent overshoot refuses nobody wrongly: a call is refused only once exactly the limit of calls with its request key has passed |
| Quotas.QuiescentCounts | quota.go:37-54 | with such names, when all calls have finished, a quota stores for each request key exactly the smaller of its limit and the calls that reached it |
| Quotas.RunsAreBounded | quota.go:36-54 | a call takes at most one step a quota and one to compensate, and a run that cannot go on has all calls finished |
| Quotas.SequentialCheck | quota.go:35-54 | run alone, the first quota without room is reported, the quotas before it gain one, it and everything else keep their counts |
| Quotas.FirstFull | quota.go:36-51 | the first quota, from a position on, whose incremented count exceeds its limit |
| Quotas.NamesSeparateOneRequest | quota.go:40 | for one request key, distinct quota names give distinct stored keys |
| Quotas.QuotasCollideIff | quota.go:40 | two quota names share a stored key for some request keys exactly when one name with its colon begins the other |
| Quotas.ColonFreeNamesSeparate | quota.go:40 | colon-free names never share a stored key |
| Quotas.QuotaManager.constructor | quota.go:24-33 | the quotas in order and no counts |
| Quotas.QuotaManager.CheckAll | quota.go:37-54 | the loop increments, compares and compensates as the recursive check says |
| Quotas.QuotaManager.Remaining | quota.go:57-74 | what is left of the first quota with the name, at least zero, or not found exactly when no quota has it |
| Pause.RunKeepsInv | request_pause.go:34-75 | in every run no channel is closed twice, and every held request holds the current channel of a paused controller or a closed one |
| Pause.PausedIffLastIsPause | request_pause.go:34-52 | in every run the controller is paused exactly when the last pause or resume was a pause |
| Pause.HeldIffArrivesPaused | request_pause.go:61-69 | a request is held, on a channel still open, exactly when it arrives during a pause, and goes straight through otherwise |
| Pause.WaitEnds | request_pause.go:71-74 | a held request that is woken or whose hold runs out is through for good |
| Pause.NeverStuck | request_pause.go:61-75 | a request that is not through can go on, a held one at the latest when its hold runs out |
| Pause.StepUsesRank | request_pause.go:61-75 | and it takes at most two steps |
| Pause.NobodyHeldWhileRunning | request_pause.go:61-75 | while the controller is not paused every held request can go |
| Pause.ResumeReleasesForGood | request_pause.go:43-52 | a resume releases everyone held before it for good, even if `Pause` is called again before they run |
| Pause.WokenByOwnResume | request_pause.go:67-72 | a request is woken only by a later resume of the very pause that held it |
| Pause.PauseController.constructor | request_pause.go:22-30 | a new controller is running, with an unused channel and a positive hold, five seconds unless one is given |
| Pause.PauseController.Pause | request_pause.go:34-41 | a new epoch with a fresh channel, or nothing when already paused |
| Pause.PauseController.Resume | request_pause.go:45-52 | the current channel is closed, never for the second time, or nothing when not paused |
| Pause.PauseController.Enter | request_pause.go:61-69 | the locked part of `wait` |
| Hedging.ServesFitTheChannel | request_hedging.go:72-98 | at most one hedge is ever launched, none for a request that is not hedged, and no serve ever blocks on its send |
| Hedging.ReturnsAfterAServe | request_hedging.go:72-99 | the handler returns only after some serve has finished |
| Hedging.NeverStuck | request_hedging.go:72-99 | until the handler returns some step is possible |
| Hedging.ClientGetsTheFirstWrite | request_hedging.go:49-126 | at most one write of a hedged request reaches the client: the first of any serve, with its bytes, and the client's `WriteHeader` gets exactly the status that serve had last set, if any |
| Hedging.ForwardReachesClient | request_hedging.go:118-124 | a forwarded write is the client's one response, with the bytes claimed and the status last set, and the handler goes on |
| Hedging.ClientServedIff | request_hedging.go:114-126 | at any moment the client has been written to exactly when some serve has written and none still holds the claim, and has been given a status exactly when that write came with one |
| Hedging.DeliveredWithoutHedge | request_hedging.go:91-99 | without a hedge, a written response has reached the client when the handler returns |
| Hedging.HedgeMayReturnEmptyHanded | request_hedging.go:91-125 | with a hedge there is a run in which the handler returns while the winner has forwarded nothing |
| Hedging.StatusAloneIsLost | request_hedging.go:114-125 | a hedged handler that sets a status, writes no body and returns leaves the client with nothing |
| Hedging.BypassForwardsEverything | request_hedging.go:72-75 | for a request that is not hedged every status and every write reaches the client, in order |
| Hedging.BodyDeliveredIffBypassed | request_hedging.go:72-125 | that a write has reached the client by the return is guaranteed exactly for requests that are not hedged, whatever the maximum |
| Hedging.StatusDeliveredIffBypassed | request_hedging.go:72-125 | that a status has reached the client by the return is guaranteed exactly for requests that are not hedged |
| Hedging.Configured | request_hedging.go:26-32 | the last positive maximum among the options, or 1 when there is none |
| Hedging.HedgedRequest.constructor | request_hedging.go:62-91 | the configured maximum, the predicate's answer, and one serve running with nothing written |
| Hedging.HedgedRequest.Claim | request_hedging.go:49-57 | the first claim wins and all later ones lose |
| Hedging.HedgedRequest.SetStatus | request_hedging.go:114-116 | a serve of a hedged request keeps its status to itself |
| Hedging.HedgedRequest.WriteBytes | request_hedging.go:118-125 | a write claims or is dropped |
| Hedging.HedgedRequest.ForwardToClient | request_hedging.go:119-124 | the winner forwards its own status and bytes |
| Hedging.HedgedRequest.Announce | request_hedging.go:80-84 | the send of a finished serve finds room in the channel |
| Hedging.HedgedRequest.ReceiveDone | request_hedging.go:93-99 | a completion ends the handler |
| Hedging.HedgedRequest.Hedge | request_hedging.go:95-96 | the timer launches one more serve and stays drained |
| Throttle.SlotsAndTokensAreConserved | request_throttle.go:40-73 | in every reachable state the slot counter is the number of requests in the handler and within the limit, and the channel holds one token per request that put one there |
| Throttle.WithdrawNeverBlocks | request_throttle.go:64-68 | the receive that returns a queue token always finds one and never blocks |
| Throttle.QuiescentIsEmpty | request_throttle.go:40-73 | when all requests have finished every slot is free and the channel is empty |
| Throttle.ServedIffSlotOnArrival | request_throttle.go:42-72 | a request is served exactly when a slot was free on its arrival |
| Throttle.OutcomeHasItsCause | request_throttle.go:43-71 | a slot on arrival leads to being served, a full queue or the timer to refusal, the client going away to neither |
| Throttle.QueuedIffRoom | request_throttle.go:60-71 | a request without a slot is queued exactly when fewer requests than the channel holds have a token |
| Throttle.InHandlerUntilRelease | request_throttle.go:42-53 | a request is in the handler exactly when fewer than the maximum were there on its arrival, until its release |
| Throttle.TokenUntilWithdrawal | request_throttle.go:60-68 | a queued request holds its token until it takes it back |
| Throttle.OutcomeIsFinal | request_throttle.go:51-71 | a finished request keeps its one outcome |
| Throttle.RunsAreBounded | request_throttle.go:40-73 | a request takes at most four steps, and a run that cannot go on has all requests finished |
| Throttle.RequestThrottle.constructor | request_throttle.go:28-34 | no slot taken and an empty channel |
| Throttle.RequestThrottle.TryAcquire | request_throttle.go:42-54 | the locked attempt to take a slot |
| Throttle.RequestThrottle.Leave | request_throttle.go:46-50 | the deferred release |
| Throttle.RequestThrottle.TryQueue | request_throttle.go:60-71 | the non-blocking send of a queue token, or refusal when the channel is full |
| Throttle.RequestThrottle.StopWaiting | request_throttle.go:63-67 | the wait ends by the timer or by the client going away |
| Throttle.RequestThrottle.Dequeue | request_throttle.go:64-69 | the token is taken back and the outcome is fixed |
| CircuitBreaker.StateIsHistory | circuit_breaker.go:75-108 | `failures` is the trailing run of blocked records and the state is determined by the history: closed exactly below the threshold, half-open exactly after an old enough check with nothing allowed since |
| CircuitBreaker.TransitionsAreHistory | circuit_breaker.go:83-107 | trips, recoveries and reset callbacks are counted by the history alone |
| CircuitBreaker.TripsBalance | circuit_breaker.go:88-106 | trips minus recoveries is one exactly when not closed, and reset callbacks never exceed trips |
| CircuitBreaker.HalfOpenLeavesOnlyByAllowed | circuit_breaker.go:86-102 | over any stretch of checks and blocked records a half-open circuit stays half-open and trips no more, until the first allowed record closes it |
| CircuitBreaker.OverlappingRequestsAreSerialised | circuit_breaker_middleware.go:30-46 | in every interleaving of overlapping requests the breaker is where its history puts it, with one record per finished forwarded request |
| CircuitBreaker.HistoryIsTold | circuit_breaker_middleware.go:32-45 | the history is a check per arrival and per response a blocked record exactly when the last status its handler wrote, 200 by default, is 429 |
| CircuitBreaker.TurnedAwayIff | circuit_breaker_middleware.go:32-36 | exactly which requests are turned away, in terms of the records before them |
| CircuitBreaker.NeverStuck | circuit_breaker_middleware.go:30-46 | a request that has not been answered can be checked, or recorded, whatever the breaker does |
| CircuitBreaker.Configured | circuit_breaker.go:36-64 | the last option of a kind decides, over a threshold of 5 and thirty seconds |
| CircuitBreaker.Circuit.constructor | circuit_breaker.go:56-65 | a new breaker is closed with an empty history, configured by its options |
| CircuitBreaker.Circuit.CurrentState | circuit_breaker.go:68-80 | the state returned is the one the history determines |
| CircuitBreaker.Circuit.RecordBlocked | circuit_breaker.go:83-94 | the fields follow the history extended by a blocked record |
| CircuitBreaker.Circuit.RecordAllowed | circuit_breaker.go:97-108 | the fields follow the history extended by an allowed record |
| Stores.LazyExpiryIsUnobservable | memory_store.go:25-86 | over every run of operations each reply is the one of a store that drops entries the moment they expire |
| Stores.ReadsDropExpired | memory_store.go:25-32 | looking a key up leaves it stored exactly when it is live |
| Stores.SetIsReadBack | memory_store.go:46-79 | a value set, or set because nothing live was there, is read back, whatever sets fail meanwhile, until its time to live has passed and not after, with the remaining time reported |
| Stores.CountIsReadBack | memory_store.go:34-79 | a count is read back, and counted on from, until its entry expires, and a live entry keeps its expiry |
| Stores.DeleteIsReadBack | memory_store.go:81-86 | a deleted key reads as absent until something is written to it |
| Stores.MemoryCountsEpoch | memory_store.go:34-44 | the memory count is the position in the epoch, which ends once `window` has passed since its first call |
| Stores.EpochCountsUp | memory_store.go:34-44 | within an epoch 1, 2, 3, ... are returned, and exactly when the count starts again |
| Stores.EpochsAreApart | memory_store.go:37-40 | epochs of a key start more than `window` apart |
| Stores.RedisTtl | redis_store.go:25 | the window rounded down to whole seconds, and one second for a shorter one |
| Stores.RedisCountsSeries | redis_store.go:22-31 | the Redis count is the length of the series of calls without a pause longer than the time to live that the client sends |
| Stores.RedisIsNeverLaxer | redis_store.go:22-31 | on the same timed increments the Redis count is at least the memory count at every call, when the client does not shorten the window |
| Stores.RedisIsNeverLaxerIff | redis_store.go:22-31 | that holds on every run exactly for windows of less than a second or of whole seconds |
| Stores.StoresAgreeIff | redis_store.go:21-25 | the two stores return the same count exactly when the memory epoch began with the Redis series; unless the client shortens the window, exactly when the call comes within a window of that beginning or is itself it |
| Stores.MemoryStore.constructor | memory_store.go:21-23 | an empty store |
| Stores.MemoryStore.Find | memory_store.go:25-32 | found exactly when live; otherwise the entry is gone afterwards |
| Stores.MemoryStore.Increment | memory_store.go:34-44 | count and new contents of an increment |
| Stores.MemoryStore.Get | memory_store.go:46-53 | the live value or 0 |
| Stores.MemoryStore.Set | memory_store.go:55-60 | the entry is replaced |
| Stores.MemoryStore.SetNX | memory_store.go:62-70 | set exactly when nothing live was there |
| Stores.MemoryStore.TTL | memory_store.go:72-79 | the remaining time or -1 |
| Stores.MemoryStore.Delete | memory_store.go:81-86 | the entry is removed |
| Stores.RedisStore.constructor | redis_store.go:17-19 | an empty store |
| Stores.RedisStore.Increment | redis_store.go:22-31 | increment, and renew the expiry, in whole seconds, on every call |
| Dedup.SweepIsUnobservable | request_dedup.go:30-53 | in every interleaving of sweeps and requests each answer is that of a store that never evicts |
| Dedup.SweepKeepsIff | request_dedup.go:44-51 | after a sweep, when sweeps are in order, exactly the fingerprints of requests accepted at most `ttl` before it are stored |
| Dedup.DuplicateIff | request_dedup.go:28-38 | a request is a duplicate exactly when an accepted one with its fingerprint was recorded less than `ttl` before |
| Dedup.AcceptedAreApart | request_dedup.go:30-38 | accepted occurrences of one fingerprint are at least `ttl` apart |
| Dedup.DedupStore.constructor | request_dedup.go:19-26 | an empty store with its time to live |
| Dedup.DedupStore.IsDuplicate | request_dedup.go:30-38 | the answer and the new entries |
| Dedup.DedupStore.Evict | request_dedup.go:44-51 | one sweep, in any order, removes exactly the expired entries |
| AlignedWindows.UnixCountsFrom1970 | fixed_window.go:36 | windows are named by the whole seconds from the year 1970 to their start |
| AlignedWindows.WindowsHaveOwnSecondsIff | fixed_window.go:33-36 | the start of a window in whole seconds identifies it exactly when windows last at least a second |
| AlignedWindows.KeysSeparate | fixed_window.go:36 | for windows of a second or more, two pairs of client and window have the same stored key exactly when they are the same pair |
| AlignedWindows.StoreCountsWindow | fixed_window.go:38-47 | over every run the entry of a window counts its calls and does not expire before the window is over |
| AlignedWindows.AdmittedIffAmongFirst | burst.go:31-49 | a call is admitted exactly when it is among the first `limit` of its window |
| AlignedWindows.VerdictsAreRightIff | fixed_window.go:33-57 | that holds on every run, however late it begins, exactly when burst windows last at least a second, fixed windows whole seconds, or the limit is not positive |
| AlignedWindows.WindowAdmitsItsFirst | fixed_window.go:47-57 | each window of each client admits exactly the smaller of `limit` and its calls |
| AlignedWindows.StretchBound | fixed_window.go:29-57 | any stretch spanning D admits at most `(D / window + 2) * limit` calls of a client |
| AlignedWindows.StretchBoundIsTight | fixed_window.go:29-57 | for every positive limit and every number of whole windows there is a stretch that attains the bound |
| AlignedWindows.FixedWindowCounter.constructor | fixed_window.go:21-27 | a counter with nothing stored |
| AlignedWindows.FixedWindowCounter.Allow | fixed_window.go:31-58 | verdict, remaining count, reset time and stored entry of one call |
| AlignedWindows.BurstCounter.constructor | burst.go:20-27 | the effective limit is the limit plus the burst |
| AlignedWindows.BurstCounter.Allow | burst.go:31-49 | verdict, remaining count and stored entry of one call over `MemoryStore` |
| Adaptive.WithinAndFallingIff | adaptive_limit.go:60-71 | the limit stays within its bounds at every load, and never rises with the load, exactly when `MinLimit <= MaxLimit`, whatever the load marks |
| Adaptive.Interpolates | adaptive_limit.go:65-70 | between the load marks the limit lies below the maximum by the load's share of the span of the limits, rounded toward zero |
| Adaptive.LimitAtMarks | adaptive_limit.go:60-63 | the lowest limit from the high mark on, and otherwise the highest up to the low mark |
| Adaptive.AdaptiveLimiter.constructor | adaptive_limit.go:26-43 | the defaults and the initial limit |
| Adaptive.AdaptiveLimiter.Recalculate | adaptive_limit.go:53-72 | the new limit, unchanged without a load function, within the bounds when they are in order |
| Text.NumeralParses | adaptive_limit.go:86-96 | parsing undoes the numeral, which has no leading zeros |
| Text.ParsedNumeral | adaptive_limit.go:86-96 | the numeral undoes parsing on every canonical decimal string |
| Text.DecimalParses | fixed_window.go:36 | the decimal text of a number in a key parses back to it, with a minus sign for a negative one |
| Text.Itoa | adaptive_limit.go:86-96 | the loop produces the numeral, and the empty string for a negative number |

## Left out

- TokenBucket.AdmissionBoundIff: floating-point rounding in the script is not modelled; amounts are exact, the window is a whole number of milliseconds and the rate is not negative.
- LeakyBucket.AdmissionBound: only for atomic calls on a key; BoundNeedsSerialisationIff is about the two transactions of the source.
- LeakyBucket.ExpiryIsUnobservable: the Redis client sends the expiry of the two keys in whole milliseconds; this and the other leaky-bucket results are about windows that it does not shorten.
- SlidingWindow.SetIsRecentLog: only for clock readings that do not fall and are not before 1970, and windows of whole milliseconds.
- AlignedWindows.VerdictsAreRightIff: windows of zero or less, for which every instant is its own window, are not covered.
- Stores.RedisIsNeverLaxerIff: windows of zero or less, which Redis answers by deleting the key, are not covered.
- Adaptive.WithinAndFallingIff: exact arithmetic instead of floating point.
- The hold deadline of the pause controller, the hedge delay and the queue timeout as durations: their timers may fire at any time.
- Redis itself, contexts, networking, store failures and the fail-open path of the limiter: an atomic timed map stands in for the backend.
- The panic of a handler or of `fn`, and `fn` calling the same group again.
- HTTP headers shared between hedged serves, and all other middleware (logging, tracing, tagging, correlation, signing, sampling, mirroring, shadowing, caching, size limits, filters, options): it would only add easy members.
- `RedisStore` beyond `Increment`, `header_rewrite.go`, `request_timeout.go`, `strategy.go` and `per_route_config.go`.
