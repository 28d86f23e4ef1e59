# A verified model of the gRPC plugin's resilience core

The plugin keeps gRPC clients and servers healthy with four stateful mechanisms: a two-level
connection pool, a circuit breaker, retry loops around it, and a gate that checks required
services at startup. This project models them in Dafny and proves what they promise, over every
interleaving where the code is concurrent.

| module | models |
|---|---|
| Basics | notions several parts share |
| Errors | how the breaker and the two retry loops classify an error |
| Breaker | the circuit breaker: its transition functions and the class whose methods take them |
| BreakerRuns | runs of one breaker: admissions and completions of unboundedly many requests, as a log |
| BreakerLimits | for every configuration, runs that reach the bounds proved of all runs |
| Retry | the programmatic retry handler and the backoff formula |
| RetryOverBreaker | the unary client chain, retry delays, and a call retried through the breaker |
| ServerOptions, ServerChain | the server's options, interceptor chain, and any number of concurrent calls through it |
| StartupGate | dispatcher, workers, channels and cancellation of the required-service check |
| ServicePool, ServicePoolRuns | the pool of one service: its methods, then every interleaving of their critical sections |
| SweepRuns, SweepLimits | the idle sweep in its separate phases, interleaved with all that, and runs that reach its limits |
| ConnectionPool, Lru | the pool of pools: its methods, then the recency list they implement |
| LockOrder | the locks each pool operation takes, and threads running them under writer-preferring mutexes |
| PortCheck | the health check's port probe and its cache |
| HashSelector | the hash of the consistent-hash selector and the choice of a node |

An object the code updates in place is a class; each of its methods states its whole new state in
terms of the old one, and what the code promises is proved over whole runs. The clock, random factors, health readings, map iteration order, `createFunc`, handlers and the wire
are parameters, so every theorem quantifies over them. Durations are exact: integers, or reals
where a multiplier is involved.

Where the code differs from its own description, the model follows the code:

- `MaxConcurrentRequests` is documented as the half-open maximum (circuit_breaker.go:52-53). No
  configuration keeps it: the first probe is not counted, and completions of older requests free
  slots. `PeakIsExact` gives the true maximum over all runs, which is 1 without slots and
  otherwise MaxConcurrentRequests + max(1, SuccessThreshold).
- A breaker can reject requests for longer than its recovery timeout. `LastOneIsAdmittedExactlyWhen`
  says when a breaker that has admitted nothing for two recovery timeouts still rejects: exactly
  when a failure was recorded within the last one. `StragglerLocksOut` has such a run for every
  configuration with a positive recovery timeout.
- A retry delay is said to be possibly negative at the jitter floor (client.go:1092-1094). With
  exact durations `DelayBounds` shows it never is, for a positive base and cap. The fallback can
  only be taken when the conversion to a duration overflows, at high attempt numbers.
- `ExecuteWithRetry` caps its backoff only after growing it. `LoopAgreesExactlyWhen` states, for
  every multiplier that is not negative, when this agrees with `ExponentialBackoff`.
- With a negative retry budget the handler is never called and success is returned
  (`SuccessMeans`).
- The scan for the least recently used service uses the empty name for "none yet".
  `ScanIsLruExactlyWhen` states when it still finds such a service.
- The idle sweep acts on what it collected under an earlier lock (connection_pool.go:632-646), so
  connections can be left open and forgotten. `RunForgetsNothingExactlyWhen` states when a run
  never does so: exactly when no write-back and no dropping of an idle service finds a connection listed
  that was appended since the collection (a dropped list may still be awaited by a closer), nothing
  is appended to a pool that is out of the map and that no closer will visit, and CloseAll does not
  take a list out of the map while nobody is about to close an open connection in it. `WriteBackCanForget` and `DropCanForget` show that
  both kinds of sweep do forget one. CloseConnection never does (`CloseConnectionForgetsNothing`).

## Model

| member | source | states |
|---|---|---|
| Breaker.CircuitBreaker.constructor | circuit_breaker.go:83-94 | a new breaker is Closed with zero counters |
| Breaker.CircuitBreaker.AllowRequest | circuit_breaker.go:135-184 | who is admitted in which state and at which instant, and every field afterwards: exactly the transition that all runs are built from |
| Breaker.CircuitBreaker.RecordResult | circuit_breaker.go:187-244 | the same for completion: what a failure and what anything else does to the state, both counters and both instants |
| Breaker.CircuitBreaker.Execute | circuit_breaker.go:98-132 | a rejected call runs nothing and gets a plain error; an admitted one is recorded once; a panic is raised again and counts towards the threshold; a call that ends well or by the caller's fault leaves a Closed breaker Closed without failures |
| Breaker.CircuitBreaker.Reset | circuit_breaker.go:311-324 | back to the initial state, except for the instant of the last failure |
| Breaker.CircuitBreaker.UpdateConfig | circuit_breaker.go:327-345 | disabling a breaker that is not Closed resets it; otherwise only the configuration changes; a disabled one ends Closed |
| BreakerRuns.Quarantine | circuit_breaker.go:145-157 | after Open is entered no request is admitted for a full recovery timeout |
| BreakerRuns.HalfOpenSpacing | circuit_breaker.go:145-173 | two entries to HalfOpen are at least a recovery timeout apart |
| BreakerRuns.NeverLocksOut | circuit_breaker.go:159-173 | of three requests a recovery timeout apart, with no failure recorded in the last of these timeouts, the span admits one, even if every probe hangs |
| BreakerRuns.LastOneIsAdmittedExactlyWhen | circuit_breaker.go:145-179 | if nothing earlier in that span is admitted, the third request is admitted if and only if no failure was recorded in the last recovery timeout |
| BreakerLimits.StragglerLocksOut | circuit_breaker.go:197-199 | every configuration with a positive recovery timeout has a run in which one late failure of an older request makes all three be rejected |
| BreakerRuns.EraIsOneState | circuit_breaker.go:141-181 | the current era is the longest suffix of the run spent in the current state |
| BreakerRuns.CountersMeanWhatTheySay | circuit_breaker.go:197-240 | in Closed, failures is the length of the trailing run of failures and below max(1, threshold); in HalfOpen, successes counts the era's non-failures, no failure has been recorded, and it is below max(1, threshold) |
| BreakerRuns.ClosesOnlyAfterSuccesses | circuit_breaker.go:229-239 | HalfOpen turns Closed only after exactly max(1, SuccessThreshold) non-failures recorded since it was entered, with no failure among them |
| BreakerRuns.HalfOpenAccounting | circuit_breaker.go:145-195 | the half-open counter stays in its range, and the era's probes in flight number at most MaxConcurrentRequests + 1 + the stale completions recorded in the era |
| BreakerRuns.ProbesBounded | circuit_breaker.go:174-178 | in terms of the configuration alone: at most 1 probe of the era in flight without slots, else at most MaxConcurrentRequests + max(1, SuccessThreshold) |
| BreakerLimits.AccountingIsReached | circuit_breaker.go:145-195 | for every configuration and counter value, and any number of stale completions that keeps the era going if there are slots, a run reaches the accounting bound exactly |
| BreakerLimits.PeakIsExact | circuit_breaker.go:145-195 | some run has that many probes in flight if and only if the number is at most the peak |
| BreakerRuns.RunExtends | circuit_breaker.go:119-129 | a run goes on with any later attempt, and with the completion of any admitted request not completed yet |
| BreakerRuns.ExecuteIsRun | circuit_breaker.go:98-132 | an uninterrupted Execute of an enabled breaker goes on with a run by its admission and, if admitted, one result, a failure exactly when its function panicked or returned an error that counts |
| BreakerRuns.NoFailureStaysClosed | circuit_breaker.go:197-240 | a log without a recorded failure never leaves Closed |
| BreakerRuns.HarmlessCallsKeepClosed | circuit_breaker.go:247-279 | any sequence of Executes that end well, by the caller's context or with a client-fault code leaves the breaker Closed without failures |
| BreakerRuns.PanicsOpenAtThreshold | circuit_breaker.go:118-129 | a sequence of Executes that all panic opens it at the max(1, threshold)-th, and not before |
| Errors.FailureMeans | circuit_breaker.go:247-279 | the breaker counts exactly the errors without a context sentinel whose status, if any, speaks of the server |
| Errors.RetryableMeans | client_retry.go:98-125 | the interceptor retries five status codes; the handler these, OutOfRange, DataLoss and plain errors (with client.go:1058-1090) |
| Errors.ContextErrorMeans | client_interceptors.go:162-164 | an ended context shows as its own sentinel, which is neither retried nor counted as a failure |
| Retry.ExecuteWithRetry | client_retry.go:45-89 | the handler's calls, waits and result are those of the one run the world allows |
| Retry.RunIsDetermined | client_retry.go:45-89 | the run specification leaves no choice |
| Retry.SuccessMeans | client_retry.go:49-56 | success is reported exactly when an attempt within the budget succeeds after only retried failures, or the budget is negative |
| Retry.RunEnds | client_retry.go:49-78 | the call ends with the first attempt that succeeds, fails for good or uses up the budget, or in the wait during which the context ends, after exactly that many calls and waits |
| Retry.WaitsGrow | client_retry.go:47-85 | the first wait is the base, each later one the one before times the multiplier, capped |
| Retry.CapCommutes | client_retry.go:81-85 | capping at every growth step equals capping once at the end |
| Retry.CapCommutesExactlyWhen | client_retry.go:81-85 | for every multiplier that is not negative, capping after every growth equals capping at the end exactly when the first value is within the cap, or it is not the first wait and the multiplier is at least 1, or the growth is the first, or it ends within the cap, or the cap is zero |
| Retry.LoopIsExponential | client_retry.go:81-85 | for every multiplier that is not negative and a base within the cap, the wait after attempt k is ExponentialBackoff(k) |
| Retry.ClosedForm | client_retry.go:164-170 | ExponentialBackoff is repeated multiplication capped once |
| Retry.LoopAgreesExactlyWhen | client_retry.go:47-85 | the wait after attempt k agrees with ExponentialBackoff(k) exactly under that condition |
| Retry.RunOfFailures | client_retry.go:49-86 | a run of retryable failures makes exactly maxRetries + 1 calls; its waits are the first maxRetries exponential backoffs if and only if there are none or the base is within the cap |
| RetryOverBreaker.BuildClientInterceptorChain | client_interceptors.go:174-207 | which interceptors are present, and that any two of them stand in the order tracing, retry, metrics, breaker, logging, each once |
| RetryOverBreaker.ChainInOrder | client_interceptors.go:172-207 | the chain for every configuration: what is in it, and its order by positions |
| RetryOverBreaker.ChainMeansRetry | client_interceptors.go:174-207 | who calls whom: run from the outside in, the chain as built is the retried call, with one admission for every attempt |
| RetryOverBreaker.EffectiveSettings | client_interceptors.go:131-145 | a positive setting of the service wins, else a positive one of the plugin, else 3 and one second |
| RetryOverBreaker.DelayBounds | client.go:1095-1112 | with exact durations the delay is within a quarter of the base doubled attempt times and capped once, within the cap and never negative |
| RetryOverBreaker.NominalDoubles | client.go:1096-1099 | before jitter the delay starts at the base and doubles with each attempt, up to the cap |
| RetryOverBreaker.CappedFrom | client.go:1097-1099 | it is the cap from the attempt on at which the doubled base reaches the cap, and not before |
| RetryOverBreaker.JitterRange | client.go:1101-1112 | the jitter spans exactly a quarter below to a quarter above, as far as the cap allows, and a larger factor never gives a smaller delay |
| RetryOverBreaker.DelaysAre | client_interceptors.go:158 | the interceptor's waits double from the base, give or take a quarter, up to five seconds |
| RetryOverBreaker.Attempt | client_interceptors.go:90-100 | one attempt through the breaker: what reaches the wire, what comes back, what the breaker becomes |
| RetryOverBreaker.RetryLoop | client_interceptors.go:146-169 | the attempts, result and breaker state of the loop are those of the recursive specification |
| RetryOverBreaker.RetryUnary | client_interceptors.go:131-170 | the same for one call with the budget and delays the interceptor derives from the settings |
| RetryOverBreaker.RetryableCountsAsFailure | client.go:1058-1090 | a retryable error counts as a breaker failure exactly when it carries no context sentinel |
| RetryOverBreaker.OpenEndsTheCall | circuit_breaker.go:145-157 | a breaker inside its recovery timeout ends the call at once: nothing reaches the wire and the rejection is not retried |
| RetryOverBreaker.AttemptsOnTheWire | client_interceptors.go:146-169 | with a failing upstream exactly min(attempts left, max(1, threshold) - failures) attempts reach the wire, with the final error and whether the breaker ends Open |
| RetryOverBreaker.ChainAttempts | client_interceptors.go:181-201 | the attempts, the final error and the final breaker state for the configuration the chain builds, whatever the settings: 30 s recovery, 5 s delay cap |
| RetryOverBreaker.BudgetKept | client_interceptors.go:148-168 | in any world the budget is kept and success means the last wire attempt succeeded |
| RetryOverBreaker.RetryEnds | client_interceptors.go:148-166 | when the breaker does not interfere, which attempt ends the call and with what |
| RetryOverBreaker.LongWaitsReachTheWire | client_interceptors.go:158-166 | if each wait is as long as the recovery timeout, every attempt of a failing call reaches the wire |
| RetryOverBreaker.LastFailureIsStamped | client_interceptors.go:148-166 | each wait follows its own attempt: a failing call below the threshold stamps its last failure after all its attempts and the waits between them |
| RetryOverBreaker.ClientBreakerLimits | client_interceptors.go:191-199 | the settings of a client breaker, and that at most 13 probes of one half-open era are in flight |
| ServerOptions.BuildServerOptionsFromConfig | runtime_config.go:12-53 | which limiter, semaphore and breaker exist, and that every breaker setting is the configured one if positive, else its default |
| ServerChain.GetServerInterceptorChain | monitoring.go:207-229 | recovery first, then exactly the enabled interceptors, each once, any two of them in the order rate limit, in-flight, breaker, metrics, logging |
| ServerChain.InvAlways | monitoring.go:166-201 | what every execution of concurrent calls keeps: breaker log, admissions, semaphore and answers |
| ServerChain.NoPanicEscapes | monitoring.go:233-243 | what leaves the chain is never a panic: Internal if anything panicked, else the handler's own answer, else an error, and Unavailable for a call the breaker refused |
| ServerChain.InflightIsExact | monitoring.go:171-178 | the semaphore equals the number of calls inside it and never exceeds its capacity |
| ServerChain.SlotGivenExactlyWhen | monitoring.go:171-178 | a call can enter past the semaphore if and only if a slot is free |
| ServerChain.AdmittedHoldSlots | monitoring.go:210-218 | every call between the breaker's admission and its result holds a slot, so there are no more of these than slots |
| ServerChain.NoCallIsStuck | monitoring.go:166-201 | in every reachable state every unfinished call can go on |
| ServerChain.OneResultPerAdmission | monitoring.go:183-201 | the breaker is driven through a legal run; an admitted call that has left records exactly one result, one inside none, and the result is a failure exactly when something panicked or the handler returned an error that counts (with circuit_breaker.go:118-129) |
| StartupGate.SelectRequired | client.go:966-971 | collects the required services in order |
| StartupGate.RequiredKeepsExactly | client.go:966-971 | each required service is collected as often as it is listed, any other not at all |
| StartupGate.RequiredInOrder | client.go:966-971 | and in the order of the list |
| StartupGate.StepKeepsInv | client.go:982-1012 | every step keeps each dispatched job in one place and each error sent once |
| StartupGate.GateSound | client.go:1002-1022 | nil is returned if and only if every required service was dispatched and passed and the caller did not cancel; an error is a failed check's |
| StartupGate.ServicesAreChecked | client.go:958-1022 | in terms of the configured services: nil means every required one was checked and found available, an error that the check of some required one failed |
| StartupGate.FirstErrorIsReturned | client.go:1012-1018 | the error returned is the first one sent |
| StartupGate.ErrorsCancel | client.go:993-997 | once an error has been sent, the other checks are cancelled or its sender is about to cancel them, and they are before the gate returns |
| StartupGate.ErrorChannelHasRoom | client.go:986-996 | a worker about to send its error always finds room |
| StartupGate.GateNeverStuck | client.go:989-1011 | until the gate returns, some step other than the caller's cancellation is possible |
| StartupGate.ChecksBounded | client.go:976-990 | there are exactly min(8, n) workers, so at most that many checks run at once |
| StartupGate.GateTerminates | client.go:989-1022 | no run is longer than 4n + min(8, n) + 3 steps |
| ServicePool.PooledConnection.Close | connection_pool.go:437-443 | a closed connection is in Shutdown |
| ServicePool.FilterKeeps | connection_pool.go:302-314 | pruning keeps exactly the healthy connections |
| ServicePool.FilterAppend | connection_pool.go:302-314 | pruning distributes over concatenation, so what stays keeps its order |
| ServicePool.FilterKeepsOrder | connection_pool.go:302-314 | any two connections that stay were in the same order before |
| ServicePool.PickIndex | connection_pool.go:260-292 | least-used picks the first position of minimal count, first-available the first healthy one; nothing is picked only from an empty list or when no position is healthy under first-available |
| ServicePool.RoundRobinTakesTurns | connection_pool.go:266-268 | of as many consecutive turns on an unchanged list as there are connections, exactly one picks each |
| ServicePool.RandomReaches | connection_pool.go:269-270 | every connection has a random value that picks it |
| ServicePool.LeastIndex | connection_pool.go:321-332 | the result is the first position of minimal count |
| ServicePool.LeastIsFirst | connection_pool.go:321-332 | there is only one such position |
| ServicePool.FirstTrue | connection_pool.go:282-288 | first-available is the first healthy position, or none |
| ServicePool.ServiceConnectionPool.CleanupUnhealthyLocked | connection_pool.go:302-314 | the list keeps exactly the healthy, any two in the order they had; the rest is handed back |
| ServicePool.ServiceConnectionPool.LeastUsedIndex | connection_pool.go:272-280 | finds the first connection of minimal use count |
| ServicePool.ServiceConnectionPool.EvictLeastUsedLocked | connection_pool.go:316-338 | removes a connection of minimal use count and leaves the others in order |
| ServicePool.ServiceConnectionPool.SelectConnection | connection_pool.go:260-292 | each strategy's pick: the first least-used, the first healthy, the one whose turn it is, the random one, the first; null exactly when there is none; only round robin advances its index |
| ServicePool.ServiceConnectionPool.ClosePooledConnections | connection_pool.go:437-443 | closes all the given connections |
| ServicePool.ServiceConnectionPool.PickConfirmed | connection_pool.go:229-239 | only a pick that is still healthy is handed out, its use count and instant updated and no other's |
| ServicePool.ServiceConnectionPool.Prune | connection_pool.go:218-225 | the pool is stamped and keeps exactly the healthy connections, any two in the order they had |
| ServicePool.ServiceConnectionPool.SelectReusableConnection | connection_pool.go:217-241 | what is pruned is closed and nothing else is; the rest stays in order; what is handed out is the strategy's confirmed choice |
| ServicePool.ServiceConnectionPool.PrepareForCreate | connection_pool.go:243-257 | a list at max(1, maxConns) loses exactly its first least-used connection, any other nothing |
| ServicePool.ServiceConnectionPool.CloseAllConnections | connection_pool.go:420-435 | empties the list and closes everything that was in it |
| ServicePool.ServiceConnectionPool.Create | connection_pool.go:179-214 | room is made, what leaves is closed, and a success appends the one created connection; capacity is kept |
| ServicePool.ServiceConnectionPool.ReuseOrCreate | connection_pool.go:172-214 | under createMu the selection is repeated first, and only its failure creates |
| ServicePool.ServiceConnectionPool.GetConnection | connection_pool.go:167-215 | the first selection's choice is reused, else the repeated one's, else a connection is created or an error returned; the exact list left, the use counts, and nothing leaves it unclosed |
| ServicePool.ServiceConnectionPool.ReusedIsBest | connection_pool.go:217-241 | what a whole call reuses under least-used is the first least-used connection left in the list, under first-available the first that read healthy |
| ServicePool.ServiceConnectionPool.MustReuse | connection_pool.go:217-241 | a call must reuse when some connection survives pruning and the survivors read healthy, whatever the strategy |
| ServicePool.ServiceConnectionPool.RoomIsMade | connection_pool.go:243-257 | a call that reuses nothing leaves a list below its limit as it is and takes the first least-used connection from a full one |
| ServicePoolRuns.StepKeepsMu | connection_pool.go:172-173 | one thread at a time is between taking and releasing createMu (and 353-354) |
| ServicePoolRuns.StepConserves | connection_pool.go:167-257 | while no sweep finds the whole service idle, every step of every thread moves connections between list, pending closes and Shutdown without losing or duplicating one (with 300-338 and 420-443) |
| ServicePoolRuns.NoConnectionLost | connection_pool.go:167-257 | in every interleaving in which no sweep finds the whole service idle and each sweep is one step, an appended connection is in exactly one place: list, one thread's pending closes, or Shutdown (with 300-338 and 420-443) |
| ServicePoolRuns.PendingIsOpen | connection_pool.go:437-443 | in these interleavings a connection waiting to be closed is not closed yet, so each is closed once |
| ServicePoolRuns.StepBounded | connection_pool.go:243-257 | room made under createMu is still there when the new connection is appended |
| ServicePoolRuns.CapacityKept | connection_pool.go:172-206 | in these interleavings the list never exceeds max(1, maxConns) |
| ServicePoolRuns.FinishedCloseMeans | connection_pool.go:353-368 | in these interleavings, when a closer is done the list is empty, no creation is in flight, and every appended connection is closed or pending in another thread (with 420-435) |
| ServicePoolRuns.OnlyChoice | connection_pool.go:260-292 | every strategy picks the only connection there is |
| ServicePoolRuns.SingleFlight | connection_pool.go:163-215 | while connections stay healthy and nothing is closed, any number of callers cause at most one successful creation, and all who succeed get it (promised by connection_pool_test.go:14-47) |
| ServicePoolRuns.SelectionPrunes | connection_pool.go:217-227 | in every interleaving a selection keeps exactly the open connections read as healthy, in order, and sends exactly the others to be closed |
| ServicePoolRuns.SelectionHandsOut | connection_pool.go:229-239 | it hands out at most one of those, confirmed, whose use count alone grows: the first least-used or first healthy one under these strategies |
| ServicePoolRuns.EvictionTakesLeastUsed | connection_pool.go:243-257 | a full list loses its first least-used connection, any other nothing |
| ServicePoolRuns.OthersKeepOrder | connection_pool.go:167-257 | no step but an append adds to the list or reorders it |
| ServicePoolRuns.ErrorsComeFromCreate | connection_pool.go:187-193 | a caller gets an error only if its own createFunc failed; any other that has finished got a connection that was listed |
| SweepRuns.MoveKeepsInv | connection_pool.go:592-648 | every step of a thread and every phase of the sweep keeps what the sweep holds apart from what was appended meanwhile, and keeps all that may be listed under a closer on its way out |
| SweepRuns.CollectionMeans | connection_pool.go:592-624 | a collection takes all of a service idle as a whole, and otherwise exactly the idle connections, leaving the others in order |
| SweepRuns.OpenIsInOnePlace | connection_pool.go:592-630 | with sweeps that find the whole service idle, and as long as no list has been written back, an open connection is in exactly one place: list or one thread's pending closes; a closed one may still be listed |
| SweepRuns.ThreadForgetsNothingExactlyWhen | connection_pool.go:167-257 | a thread's step forgets a connection if and only if it appends to a pool that is out of the map and that no closer will visit |
| SweepRuns.EndForgetsNothingExactlyWhen | connection_pool.go:632-646 | writing back, or dropping a service idle as a whole, forgets nothing if and only if no connection appended since the collection is listed; a closer on its way also saves a dropped list |
| SweepRuns.MoveForgetsNothingExactlyWhen | connection_pool.go:592-648 | for every step of threads, closers and sweep, exactly when it forgets nothing |
| SweepRuns.RunForgetsNothingExactlyWhen | connection_pool.go:592-648 | no state of a run has a connection open and forgotten if and only if every step met its condition |
| SweepRuns.CloseConnectionForgetsNothing | connection_pool.go:353-362 | CloseConnection takes the pool out of the map safely, whatever a sweep writes back meanwhile |
| SweepRuns.LostStaysLost | connection_pool.go:632-639 | what a write-back has dropped from every place is never found again |
| SweepRuns.OrphanedStaysOpen | connection_pool.go:641-642 | an open connection listed in a pool out of the map is never closed once all threads have left |
| SweepRuns.SweptCapacity | connection_pool.go:632-639 | the list exceeds max(1, maxConns) by at most one connection for every write-back |
| SweepLimits.WriteBackCanForget | connection_pool.go:632-639 | with every configuration some run drops an open connection from every place |
| SweepLimits.DropCanForget | connection_pool.go:641-642 | with every configuration some run without a write-back drops the service that lists one |
| SweepLimits.SweptCapacityIsExact | connection_pool.go:632-639 | with a given number of write-backs some run has a list of that length if and only if it is at most max(1, maxConns) plus that number |
| Lru.ScanIsLru | connection_pool.go:560-573 | in any iteration order the scan finds a least recently used service, unless the empty name hides it |
| Lru.ScanMissesAll | connection_pool.go:567-570 | a hidden map met in an order that ends with the empty name yields no service to evict |
| Lru.ScanIsLruExactlyWhen | connection_pool.go:560-573 | all iteration orders succeed if and only if no empty name is strictly the least recently used |
| Lru.ScanTakesFirst | connection_pool.go:560-573 | of several services used equally long ago it finds the one it meets first |
| Lru.RecentMeans | connection_pool.go:121-146 | the recency list contains exactly the names requested |
| Lru.RecentDistinct | connection_pool.go:121-146 | and each once |
| Lru.RecentOrder | connection_pool.go:121-146 | and earlier in the list means requested later |
| Lru.TouchIsTake | connection_pool.go:123-145 | dropping what does not fit at every request equals dropping it once at the end |
| Lru.RequestTouches | connection_pool.go:121-145 | a request on the map is a touch of the bounded recency list |
| Lru.RecencyStep | connection_pool.go:121-160 | one later request keeps the map equal to the most recently requested names |
| Lru.MapIsRecent | connection_pool.go:121-160 | after any sequence of requests the map holds exactly the most recently requested distinct names, all of them or as many as max(1, maxServices) (with 560-573) |
| ConnectionPool.ConnectionPool.constructor | connection_pool.go:80-100 | a new pool is empty and agrees with the empty history |
| ConnectionPool.ConnectionPool.GetLRUServiceNameLocked | connection_pool.go:560-573 | one pass over the map computes the scan |
| ConnectionPool.ConnectionPool.CloseConnection | connection_pool.go:341-368 | closes and removes one service; every other keeps its pool, list and instant |
| ConnectionPool.ConnectionPool.MakeRoom | connection_pool.go:124-131 | a map at capacity loses the scanned service, whose connections are closed; every other service keeps its pool, list and instant |
| ConnectionPool.ConnectionPool.AddAndServe | connection_pool.go:137-160 | a new service ends with exactly the connection created for it, if any, and no other service changes |
| ConnectionPool.ConnectionPool.ServeMissing | connection_pool.go:123-160 | the whole path of a request for a service not in the map |
| ConnectionPool.ConnectionPool.Serve | connection_pool.go:160 | serving one service restamps it, hands out what its own pool decides, and leaves the others alone |
| ConnectionPool.ConnectionPool.GetConnection | connection_pool.go:104-161 | a request is a recency-cache request on the usage map, whether or not the creation succeeds; evicted services' connections are closed; a known service hands out what its own pool decides, a new one what was created |
| ConnectionPool.ConnectionPool.GetKnown | connection_pool.go:121-160 | the request for a service in the map |
| ConnectionPool.ConnectionPool.GetMissing | connection_pool.go:123-160 | the request for one that is not |
| ConnectionPool.ConnectionPool.RecencySurvives | connection_pool.go:121-160 | that contract keeps the map equal to the most recently requested names, up to max(1, maxServices) |
| ConnectionPool.ConnectionPool.Request | connection_pool.go:104-161 | one request of a run keeps that agreement, with whatever order the map is iterated in |
| ConnectionPool.ConnectionPool.Session | connection_pool.go:80-161 | a new pool that serves any sequence of non-overlapping requests holds exactly the most recently requested distinct names, and every connection it ever listed is still listed or closed |
| ConnectionPool.ConnectionPool.FootprintGrows | connection_pool.go:203-206 | a request leaves nothing in the pool but what was there and what is new |
| ConnectionPool.ConnectionPool.UnlistedIsShut | connection_pool.go:124-131 | what leaves the pool during a request is closed |
| ConnectionPool.StampIsRequest | connection_pool.go:121-147 | evicting what the scan finds, adding and stamping compose to one recency-cache request |
| ConnectionPool.ConnectionPool.Partition | connection_pool.go:608-620 | splits a list into exactly the recently used, any two in the order they had, and exactly the idle |
| ConnectionPool.ConnectionPool.Inspect | connection_pool.go:600-622 | an idle service has only idle connections, so the whole-pool shortcut closes no active one |
| ConnectionPool.ConnectionPool.CollectIdle | connection_pool.go:593-624 | the first phase finds exactly the idle services, the idle connections and the lists to keep |
| ConnectionPool.ConnectionPool.WriteBack | connection_pool.go:632-647 | the last phase installs the kept lists and drops the idle services |
| ConnectionPool.ConnectionPool.CleanupIdleConnections | connection_pool.go:592-648 | the connections closed are exactly those idle past the timeout; exactly the others stay, any two in the order they had |
| ConnectionPool.ConnectionPool.CloseAll | connection_pool.go:371-418 | the map ends empty and every connection is closed |
| LockOrder.TasksAreDisciplined | connection_pool.go:121-400 | every pool operation takes its locks in the order createMu, pool, service, connection, never two of a class, closes under createMu at most, and releases what it took (and the sweep and readers, 446-675) |
| LockOrder.ClosesHoldNoMutex | connection_pool.go:223-227 | no operation closes a connection under a service's or the pool's mutex: createMu is all it holds then, if anything |
| LockOrder.KeepingThePoolLockFails | connection_pool.go:124-132 | an eviction that kept the pool's lock while closing would ask for the lock it holds |
| LockOrder.CloseConnectionBalanced | connection_pool.go:346-362 | CloseConnection, from no lock held |
| LockOrder.LookUpBalanced | connection_pool.go:121-153 | eviction unlocks the pool before closing and locks it again after |
| LockOrder.ServiceGetBalanced | connection_pool.go:167-215 | the double-checked creation |
| LockOrder.CloseServicesBalanced | connection_pool.go:394-400 | the loop of CloseAll |
| LockOrder.SweepsBalanced | connection_pool.go:592-648 | the idle sweep's three locked sections |
| LockOrder.PoolWideBalanced | connection_pool.go:446-459 | the readers that visit every service under the pool lock (and 651-675) |
| LockOrder.SomeoneCanStep | connection_pool.go:172-184 | following who blocks whom climbs the order and ends at a thread that can step |
| LockOrder.PoolIsDeadlockFree | connection_pool.go:121-400 | for any number of threads, in every reachable state with an unfinished one some thread can step (and the sweep, 592-648) |
| LockOrder.PoolTerminates | connection_pool.go:109-160 | every execution is finite |
| PortCheck.PortCheckCache.CheckPortAvailability | service.go:545-608 | the answer and the new cache of one call, and that nothing but TCP is probed |
| PortCheck.CacheIsLastDial | service.go:590-605 | the cache holds exactly the most recent dial |
| PortCheck.AnswersAgree | service.go:577-607 | every answer is that of the most recent dial, made at the call or less than its window before |
| PortCheck.DialsExactlyWhen | service.go:577-587 | a call dials if and only if there has been no dial or the window of the last one's result has passed |
| PortCheck.DialsSpaced | service.go:577-585 | consecutive dials are at least the window of the first one's result apart |
| HashSelector.DefaultHash | load_balancer.go:444-451 | the loop computes the fold of the byte step |
| HashSelector.XorCancels | load_balancer.go:447 | what exclusive or mixes in can be taken out, from either side |
| HashSelector.SpreadInvertible | load_balancer.go:448 | multiplication by the FNV prime has an inverse modulo 2^32 |
| HashSelector.StepBijective | load_balancer.go:446-449 | each byte step is a bijection on 32-bit states |
| HashSelector.TailInjective | load_balancer.go:446-449 | different states stay different through any common tail |
| HashSelector.HashAppend | load_balancer.go:446-449 | hashing a concatenation continues from the hash of its first part |
| HashSelector.OneByteMatters | load_balancer.go:444-451 | keys that differ in one position only share a hash exactly when they do not differ there |
| HashSelector.KnownHashes | load_balancer.go:444-451 | the hash of the empty key and of "a" are the values published for 32-bit FNV-1a |
| HashSelector.HashDecides | load_balancer.go:425-427 | every node is chosen by some hash, and two hashes choose the same of distinct nodes exactly when they are congruent modulo their number |
| HashSelector.ConsistentHashSelector.Apply | load_balancer.go:436-441 | the nodes are a copy of the given ones |
| HashSelector.ConsistentHashSelector.Select | load_balancer.go:410-434 | a node is returned if and only if there is one, it is one of the nodes, and the nodes and the key (the clock reading if the key is empty) determine it |

## Left out

- ServicePoolRuns: an idle sweep is one step there, and one that finds the whole service idle is not among the steps: it closes connections that stay listed (connection_pool.go:601-606), so a later caller can close them a second time. What holds of those is SweepRuns.OpenIsInOnePlace. In ConnectionPool a sweep is an uninterrupted call.
- SweepRuns: has both kinds of sweep in their phases, for one service pool. A sweep whose last phase meets another pool, created meanwhile under the same name, is not modelled.
- SweepRuns.RunForgetsNothingExactlyWhen: counts a connection as forgotten when nobody is bound to close it, although a caller already past the lookup may still evict it.
- The number of services under concurrency: capacity is not checked again after the eviction window, so max(1, maxServices) is claimed for calls that do not overlap.
- Reachability under concurrency: in ServicePoolRuns conservation is per service pool. That a caller may create in a pool already removed from the map is covered by SweepRuns.
- The re-read and bounded retry of GetConnection (connection_pool.go:149-158): nothing can be removed in between when calls do not overlap. LockOrder includes the rounds.
- ConnectionPool.CloseAll in the sequential model: does not stop the ticker or wait for the cleanup thread. LockOrder includes the wait.
- LockOrder: leaves out the client plugin's own mutex, which a createFunc may take and a live reconfiguration holds while closing the pool.
- LockOrder.PoolTerminates: assumes finitely many operations per thread and that createFunc and Close return.
- Live reconfiguration: BreakerRuns and ServerChain fix the configuration. Reset and UpdateConfig are modelled as steps that begin a new run.
- Breaker.CircuitBreaker.Execute: does not model the timeout put on the context, which only changes the outcome the function returns.
- StartupGate: does not model a check's own look at the context or its dial; a check ends either way at any time.
- ServerChain: does not model stream interceptors. A logging, metrics or rate-limiting interceptor may pass or end a call as far as its code allows.
- Retry: the handler's settings are a value fixed for one call; durations are reals, so conversion to whole nanoseconds and overflow are not modelled.
- RetryOverBreaker.DelayBounds: leaves out the overflow of the conversion to a duration, from attempt 34 on with a base of one second.
- RetryOverBreaker.ChainAttempts: one caller, with nobody else using the breaker; overflow of very large delays is not modelled.
- PortCheck: does not parse addresses. Its calls do not overlap; the cache is read and written under separate locks.
- HashSelector: bytes and words are integers with explicit reduction modulo 2^32. The index conversion is that of a 64-bit int.
- ServicePool.ServiceConnectionPool.SelectConnection: the round-robin counter does not wrap.
- Close errors, metrics, logging and tracing.
- Real dialling, TLS loading, plugin registration and generated protobuf files.
- The other selectors of the load balancer, node filters, configuration validation and client integration: independent checks and filters.
