# DashFabric kernels in Dafny

DashFabric has two Go programs, the Fabric Manager (`src/FM`) and the Weaver
gateway (`src/Weaver`). This project models the small stateful kernels both
rest on and proves what holds over whole runs of them.

| file | kernel |
|---|---|
| `Pool.dfy`, `PoolProgress.dfy` | worker pool and DPU manager: submitters, workers, bounded queue, one-shot result channels, shutdown; what it can still answer |
| `Lru.dfy`, `Pipeline.dfy` | LRU deduplication cache (map plus linked list) and the event pipeline on top of it |
| `Ordering.dfy`, `Splitting.dfy`, `Canonical.dfy` | string order, cutting at a separator, and the canonical payload text that fingerprints are computed from |
| `Registry.dfy`, `VnetRegistry.dfy`, `Ownership.dfy` | reference-counted registry with ready channels; the VNET registry on the heap, with in-place sort and dedup; a hostile client of it |
| `DispatchSpec.dfy`, `Resilience.dfy`, `ConcurrentDispatch.dfy` | the dispatcher as a pure reference run; Fabric Manager circuit breaker, retry policy and plugin dispatcher; concurrent dispatches |
| `RateLimit.dfy` | token bucket and multi-dimensional limiter |
| `Balancing.dfy` | round robin, weighted, least connections, resource aware, sticky |
| `Reliability.dfy` | attempt-time budgeting and the Weaver circuit breaker |
| `Health.dfy` | health hysteresis and panic mode; interleaved checks |
| `Common.dfy`, `Tallies.dfy` | an option type, the elements of a sequence, one fact about products; counting over a sequence |

Conventions. What runs under a mutex is one atomic step; where a source method
takes its lock several times or not at all, each locked part is a step of its own.
The clock, the scheduler, the plugin, the validator and the map iteration order
are arbitrary inputs. Histories are sequences with the newest event first. Each object that
the source updates in place is a class whose methods are proved against
functions of the old state or of a ghost history; the theorems are about those
functions. The pool, concurrent dispatches, the limiter's requests, sticky
selections, health checks and the pipeline's shutdown are step systems: a run is any sequence of enabled steps, so
a theorem about runs covers every interleaving.

Where the code does less than is written about it, the model follows the code:

- `next_plan.md:195` describes recovery of an open vendor breaker after 30
  seconds. The dispatcher refuses on the open state before the breaker can turn
  half-open, so in sequential use an open vendor stays open until it is reset
  (`Dispatching.NeverRecovers` is such a run from a new dispatcher). With several
  callers it can close again exactly when one of them passed the check before it
  opened (`ConcurrentDispatch.RecoversExactly`).
- The retry policy retries every error; the classification at
  `src/FM/pkg/dal/dispatcher.go:137-143` only moves a counter.
- `Submit` sends outside the lock, so `Shutdown` can close the queue under it.
  `WorkerPool.PanicExactlyWithSender` says exactly when that can panic and
  `WorkerPool.PanicRun` is a run that does.
- A shutdown can leave queued jobs unanswered: exactly when the closed queue
  holds more jobs than there are idle workers (`WorkerPool.StrandedExactly`,
  with the run `WorkerPool.StrandRun`).
- The pipeline's `Stop` closes the output channel without waiting for its loop.
  `PipelineShutdown.StopPanicsExactly` says exactly when that can panic and
  `PipelineShutdown.PanicRun` is a run that does.
- Panic mode lags behind the trackers while a check is between its tracker update
  and its panic update (`ConcurrentChecks.PanicMayLag`); whenever none is, it is
  exact (`ConcurrentChecks.PanicExactAtRest`).
- A `Release` by a client that holds nothing can strand another client for good
  (`RegistrySpec.StrayReleaseStrandsHolder`); `RegistrySpec.ChannelCurrentExactly`
  says exactly when a holder's channel is still the current one.
- No two string-valued payloads without `:` in keys and `;` in values share a
  canonical text (`Canonical.PlainTextsDistinct`), but one of them may share it with
  a payload outside that class: among all string-valued payloads a text determines its payload exactly when it holds at most one `:`,
  that is, only for the empty payload and for single entries without `:`
  (`Canonical.DeterminedExactly`, `Canonical.DeterminedExactlyWhenLone`). It does
  not see value types either (`Canonical.TextBlindToTypes`).
- Sticky selection can compute a negative index (`StickySelection.LongClientFails`);
  `StickySelection.IndexInRangeExactly` says for which hashes it does not.

## Model

| member | source | states |
|---|---|---|
| `WorkerPool.EveryRun` | src/FM/pkg/dal/pool.go:31-149 | In every interleaving of callers, workers and one shutdown: each job is in exactly one place (with its sender, queued, with one worker, answered, closed); its channel got one value or one close at most, never both; Dispatch ran at most once for it; the queue stays within twice the worker count; a caller returns exactly the value sent on its own job's channel, which is what Dispatch gave for its goal, and returns none only if that channel was closed instead; succeeded counts exactly the callers that returned a successful result, failed those that returned an unsuccessful one or none, and submitted = succeeded + failed + pending + abandoned |
| `PoolProgress.AnswerReachable` | src/FM/pkg/dal/manager.go:79-122 | From every state a run reaches before a context is done, for every caller that has not returned and every outcome the dispatcher may still give, some continuation ends with the caller returning that outcome's result, counted as a success exactly if it is one |
| `PoolProgress.QueueFills` | src/FM/pkg/dal/pool.go:31-41 | The queue's bound is attained: twice the worker count of jobs can wait in it |
| `WorkerPool.FirstInFirstOut` | src/FM/pkg/dal/pool.go:117-128 | Over any run the queue loses jobs at the front and gains them at the back only, and the front job goes to the worker that took it |
| `WorkerPool.QueueStep` | src/FM/pkg/dal/pool.go:117-128 | One step leaves the queue, adds a job at the back, or gives the front job to the worker that takes it |
| `WorkerPool.FlagsAlways` | src/FM/pkg/dal/manager.go:57-76 | The manager's context is never done without the pool's, both are done together before Stop, and both by its end |
| `WorkerPool.StopShutsTheDoor` | src/FM/pkg/dal/manager.go:57-76 | While Stop holds the lock no counter moves; once it began nobody enters and no job is made |
| `WorkerPool.PlacesKept` | src/FM/pkg/dal/pool.go:82-149 | No step of anyone loses, duplicates or hides an existing job |
| `WorkerPool.NewJobPlaced` | src/FM/pkg/dal/pool.go:111-115 | A job that Submit creates starts in exactly one place |
| `WorkerPool.OnlyWithWorker` | src/FM/pkg/dal/pool.go:127-149 | A job held by a worker has no reply yet and is with no other worker, sender or queue slot |
| `WorkerPool.WorkerKeepsWorkersHonest` | src/FM/pkg/dal/pool.go:127-149 | Workers compute and send only the dispatcher's answer to the job's own goal, one Dispatch per job |
| `WorkerPool.CallerKeepsCallersHonest` | src/FM/pkg/dal/manager.go:79-122 | A caller waits on a job carrying its own goal, returns the first value of that job's channel, and returns none only from a closed one |
| `WorkerPool.StatsExactKept` | src/FM/pkg/dal/manager.go:79-122 | Every caller step keeps the manager's counters equal to the numbers of callers that succeeded, failed, are pending or gave up |
| `WorkerPool.CountersMeaning` | src/FM/pkg/dal/manager.go:107-116 | In terms of what callers returned: succeeded counts the successful results, failed the unsuccessful ones and the closed channels |
| `WorkerPool.InvAlways` | src/FM/pkg/dal/pool.go:31-149 | The whole invariant holds after every run |
| `WorkerPool.WorkerCount` | src/FM/pkg/dal/pool.go:31-41 | The requested number when that is positive, else four |
| `WorkerPool.PanicsOnlyAtEnqueue` | src/FM/pkg/dal/pool.go:82-149 | The only step of any run that can panic is an enqueue on the closed queue; result channels are never closed twice or sent to after close |
| `WorkerPool.CleanRunsNeverPanic` | src/FM/pkg/dal/pool.go:64-124 | If no caller is between check and send when the queue closes, no run panics |
| `WorkerPool.PanicExactlyWithSender` | src/FM/pkg/dal/pool.go:64-124 | After any run from Start that has come to closing the queue, nothing has panicked yet, and some continuation panics if and only if a caller is at the enqueueing select |
| `WorkerPool.PanicRun` | src/FM/pkg/dal/pool.go:64-124 | A run from Start, with one caller and one worker, that panics |
| `WorkerPool.UnclosedRunsAreClean` | src/FM/pkg/dal/pool.go:64-79 | A run that has not closed the queue satisfies the condition of the previous rows |
| `WorkerPool.NothingStranded` | src/FM/pkg/dal/pool.go:64-149 | After any clean run from Start to the exit of all workers, one of which left by draining, every job has exactly one reply |
| `WorkerPool.StrandedExactly` | src/FM/pkg/dal/pool.go:64-149 | After any run from Start that closed the queue, some continuation ends with every worker gone and a job still queued if and only if the queue holds more jobs than there are idle workers |
| `WorkerPool.StrandRun` | src/FM/pkg/dal/pool.go:127-149 | A clean run from Start, two programs and one worker, after which a job can be stranded |
| `WorkerPool.EnoughAlways` | src/FM/pkg/dal/pool.go:127-149 | With an idle worker for every job of the closed queue, it stays so to the end |
| `WorkerPool.StrandingRun` | src/FM/pkg/dal/pool.go:142-147 | With more jobs than idle workers, a continuation in which every worker takes at most one job and quits |
| `LruSpec.HitExactlyWhenRemembered` | src/FM/pkg/cm/cache.go:43-84 | For every access history the cache list holds a fingerprint exactly when it occurred and fewer than maxSize distinct others were accessed since |
| `LruSpec.CachedIsRecentPrefix` | src/FM/pkg/cm/cache.go:43-84 | The stack property: every cache is a prefix of one recency list that does not depend on capacity |
| `LruSpec.LargerCacheExtendsSmaller` | src/FM/pkg/cm/cache.go:43-84 | On one history a larger cache holds, in the same order, all a smaller one holds |
| `LruSpec.HitsGrowWithCapacity` | src/FM/pkg/cm/cache.go:43-84 | So no capacity increase loses a hit |
| `LruSpec.AheadIsSince` | src/FM/pkg/cm/cache.go:43-73 | What stands before a fingerprint in the recency list is what was accessed since its last occurrence |
| `LruCache.Cache.constructor` | src/FM/pkg/cm/cache.go:30-39 | Empty, with the default capacity for values that are not positive |
| `LruCache.Cache.CheckAndStore` | src/FM/pkg/cm/cache.go:43-73 | Answers the history-based definition of a duplicate and keeps map, list and counters in step with the history |
| `LruCache.Cache.MoveToFront` | src/FM/pkg/cm/cache.go:48-52 | The touched element moves to the front, the others keep their order, map and list stay linked |
| `LruCache.Cache.PushFront` | src/FM/pkg/cm/cache.go:55-65 | A new fingerprint is stored in front, map and list stay linked |
| `LruCache.Cache.EvictLRU` | src/FM/pkg/cm/cache.go:77-84 | Exactly the least recent element and its map entry go |
| `LruCache.Cache.Stats` | src/FM/pkg/cm/cache.go:99-117 | misses - evictions = size <= maxSize, hits + misses = accesses, hits as the history defines them, and the hit rate is their share |
| `LruCache.HitRate` | src/FM/pkg/cm/cache.go:103-107 | Between zero and one, and times the accesses it is the hits, before the first access too |
| `LruCache.Cache.Clear` | src/FM/pkg/cm/cache.go:120-129 | Back to the empty history and zero counters |
| `PipelineSpec.ForwardedApart` | src/FM/pkg/cm/pipeline.go:120-183 | Between two received events of one fingerprint, the second forwarded, at least maxSize distinct other fingerprints were received |
| `PipelineSpec.OutputInOrder` | src/FM/pkg/cm/pipeline.go:120-183 | The output is the in-order subsequence of exactly the forwarded events |
| `PipelineSpec.CountersMeaning` | src/FM/pkg/cm/pipeline.go:120-183 | received = duplicated + validation errors + validated at every loop head, and each counter counts its verdicts |
| `PipelineSpec.OutstandingEvents` | src/FM/pkg/cm/pipeline.go:160-175 | validated - forwarded is one exactly when the loop was stopped at the forwarding select, else zero |
| `PipelineSpec.ExactWithinCapacity` | src/FM/pkg/cm/pipeline.go:120-183 | If a stream has at most maxSize distinct fingerprints, a fresh pipeline drops precisely the repeats |
| `PipelineSpec.ProgressExactly` | src/FM/pkg/cm/pipeline.go:120-183 | The output is exactly the events that are not remembered, that the validator accepts and whose sending was not stopped, in order; validation errors are exactly the not remembered, refused ones, duplicates exactly the remembered ones |
| `PipelineSpec.VerdictExactly` | src/FM/pkg/cm/pipeline.go:138-175 | What happens to one event, both directions, from the cache's history, the validator and the forwarding select |
| `PipelineSpec.FirstsWithinCapacity` | src/FM/pkg/cm/pipeline.go:120-183 | Within capacity a fresh pipeline puts out exactly the first occurrences that are valid and sent |
| `PipelineSpec.SinceIsBetween` | src/FM/pkg/cm/cache.go:43-73 | What the cache saw since a fingerprint lies between its occurrences in the stream |
| `PipelineLoop.Pipeline.Process` | src/FM/pkg/cm/pipeline.go:133-175 | One event is dropped if remembered, refused if not valid, else forwarded or stopped, with exactly the counters of that |
| `PipelineLoop.Pipeline.HandleEventLoop` | src/FM/pkg/cm/pipeline.go:120-183 | The loop puts out exactly the not remembered, valid, sent events of the stream and counts exactly the refused and the remembered ones; it ends only at the end of input, a quit signal or a stop while forwarding |
| `PipelineShutdown.StopPanicsExactly` | src/FM/pkg/cm/pipeline.go:80-102 | No run panics before Stop closes the output channel; after that some continuation panics if and only if the event loop has not returned by then |
| `PipelineShutdown.PanicRun` | src/FM/pkg/cm/pipeline.go:80-102 | A run from Start, with an event at the forwarding select when the output closes, that panics |
| `Canonical.RecoveredExactlyWhenPlain` | src/FM/pkg/cm/types.go:133-142 | For string payloads a parser recovers the payload from its text if and only if no key holds ':' and no value ';' |
| `Canonical.PlainTextsDistinct` | src/FM/pkg/cm/types.go:133-142 | Distinct plain payloads have distinct texts |
| `Canonical.TextUnique` | src/FM/pkg/cm/types.go:133-152 | The text depends on the payload alone, not on map iteration order |
| `Canonical.KeyListUnique` | src/FM/pkg/cm/types.go:145-152 | A payload has one sorted key list |
| `Canonical.SortedKeys` | src/FM/pkg/cm/types.go:145-152 | In whatever order the map yields its keys, the result is exactly the keys, strictly increasing |
| `Canonical.CanonicalJSON` | src/FM/pkg/cm/types.go:133-142 | What the loop builds is the one canonical text of the payload |
| `Canonical.TextBlindToTypes` | src/FM/pkg/cm/types.go:155-166 | Payloads that agree after conversion to text share their canonical text |
| `Canonical.SingleTexts` | src/FM/pkg/cm/types.go:155-177 | A value shows in the text as itself if a string, as formatted if a number, by its name if a boolean, and not at all otherwise |
| `Canonical.PlainTextsShowValues` | src/FM/pkg/cm/types.go:133-177 | Payloads of any values that are plain as shown: equal texts mean equal keys and values that show the same, so one differing string, number or boolean gives another text |
| `Canonical.ColonCollision` | src/FM/pkg/cm/types.go:133-142 | Every ':' in a key yields two different payloads with one text |
| `Canonical.DeterminedExactly` | src/FM/pkg/cm/types.go:133-142 | Among string-valued payloads the text of a payload determines it if and only if the text holds at most one ':' |
| `Canonical.DeterminedExactlyWhenLone` | src/FM/pkg/cm/types.go:133-142 | In terms of the payload: if and only if it is empty or a single entry without ':' |
| `Canonical.TwoColonsCollide` | src/FM/pkg/cm/types.go:133-142 | Any text with two ':' belongs to another string-valued payload too |
| `RegistrySpec.NextAddWakesEveryHolder` | src/FM/pkg/registry/semantics.go:60-129 | If clients release only what they hold, each holder's channel is that of the current entry, closed exactly when a value is present, and closed by the next Add |
| `RegistrySpec.RefsAreHolders` | src/FM/pkg/registry/semantics.go:60-99 | For such clients the reference count is the number of outstanding holds |
| `RegistrySpec.HoldersCurrent` | src/FM/pkg/registry/semantics.go:60-129 | For such clients the entry of a held key is never replaced |
| `RegistrySpec.ObservedExactly` | src/FM/pkg/registry/semantics.go:60-168 | For arbitrary clients Refcount is acquires minus successful releases and Get is the last value added since the last eviction |
| `RegistrySpec.ReleaseFailsExactlyAtZero` | src/FM/pkg/registry/semantics.go:83-99 | Release fails exactly when that difference is zero and then changes nothing |
| `RegistrySpec.AlwaysWired` | src/FM/pkg/registry/semantics.go:60-129 | In every reachable state entries have channels of their own, closed exactly when a value is present |
| `RegistrySpec.AlwaysOccupied` | src/FM/pkg/registry/semantics.go:83-99 | In every reachable state an entry has a holder or a value |
| `RegistrySpec.ChannelCurrentExactly` | src/FM/pkg/registry/semantics.go:60-129 | For arbitrary clients a channel stays the current one if and only if the key's count never returned to zero |
| `RegistrySpec.StrayReleaseStrandsHolder` | src/FM/pkg/registry/semantics.go:83-129 | A run in which a stray release leaves a holder waiting on a channel that no later operations, whatever they are, close, although the key has a value |
| `RegistrySpec.OrphanedForGood` | src/FM/pkg/registry/semantics.go:60-129 | An open channel that no entry owns stays open and unowned under all later operations |
| `RegistryObject.Registry.Acquire` | src/FM/pkg/registry/semantics.go:60-72 | Creates the entry on demand, counts the holder, returns the current channel |
| `RegistryObject.Registry.Release` | src/FM/pkg/registry/semantics.go:83-99 | Succeeds exactly when the net count is positive, evicts at zero, otherwise changes nothing |
| `RegistryObject.Registry.Add` | src/FM/pkg/registry/semantics.go:114-129 | Stores the value and closes the channel on the first value only; closing twice is impossible |
| `RegistryObject.Registry.Ensure` | src/FM/pkg/registry/refcount.go:13-22 | A missing entry is made with no value, no holder and a fresh open channel |
| `RegistryObject.Registry.Get` | src/FM/pkg/registry/semantics.go:135-145 | The last value added since the last eviction |
| `RegistryObject.Registry.Ready` | src/FM/pkg/registry/semantics.go:149-155 | Agrees with Get |
| `RegistryObject.Registry.Refcount` | src/FM/pkg/registry/semantics.go:159-168 | The net count of the history |
| `RegistryObject.Registry.Snapshot` | src/FM/pkg/registry/semantics.go:182-193 | Agrees with Get on every key |
| `SortDedup.DedupSorted` | src/FM/pkg/registry/vnet/vnet.go:179-186 | The write-pointer loop keeps exactly the input's elements, strictly increasing, although it reads cells it may have overwritten |
| `SortDedup.Normalise` | src/FM/pkg/registry/nic/nic.go:181-196 | The same for the whole routine, short lists included |
| `SortDedup.NormalFormCanonical` | src/FM/pkg/registry/vnet/vnet.go:172-187 | Inputs with equal element sets end as identical lists, so normalising is idempotent |
| `SortDedup.NormalListNormal` | src/FM/pkg/registry/vnet/vnet.go:172-187 | Inserting the elements in order, each once, gives that list |
| `VnetRegistry.NormalFormOnly` | src/FM/pkg/registry/vnet/vnet.go:123-131 | A state has exactly one normalised form |
| `VnetRegistry.SortDedupPeers` | src/FM/pkg/registry/vnet/vnet.go:172-187 | Only the peer list changes, into canonical form with the same elements; nil stays nil |
| `VnetRegistry.StoredFormUnique` | src/FM/pkg/registry/vnet/vnet.go:123-131 | What is stored depends on the peers only as a set |
| `VnetRegistry.NormalisedValid` | src/FM/pkg/registry/vnet/vnet.go:123-131 | Normalising after validation cannot make a state invalid |
| `VnetRegistry.VnetState.Clone` | src/FM/pkg/registry/vnet/vnet.go:50-60 | Equal value, nothing shared |
| `VnetRegistry.VnetState.Validate` | src/FM/pkg/registry/vnet/vnet.go:65-84 | Accepts exactly valid identifiers, a non-zero VNI and valid peers other than the VNET itself |
| `VnetRegistry.ValidateID` | src/FM/pkg/types/ids.go:49-60 | Accepts exactly 1 to 256 characters without blank, tab, line feed, carriage return or NUL |
| `VnetRegistry.Vnets.Add` | src/FM/pkg/registry/vnet/vnet.go:123-131 | Succeeds exactly on valid states; stores the normal form of the state's value under its own identifier, in a private copy; everything it comes to own is newly allocated; no count changes |
| `VnetRegistry.Vnets.Get` | src/FM/pkg/registry/vnet/vnet.go:140-146 | An equal copy, disjoint from everything owned |
| `VnetRegistry.Vnets.Snapshot` | src/FM/pkg/registry/vnet/vnet.go:160-167 | Fresh equal copies of everything stored, no two sharing anything |
| `VnetRegistry.Vnets.Acquire` | src/FM/pkg/registry/vnet/vnet.go:106-108 | Passes through; contents unchanged |
| `VnetRegistry.Vnets.Release` | src/FM/pkg/registry/vnet/vnet.go:113-115 | Passes through; the last release evicts that key and alters no other |
| `Ownership.HostileRun` | src/FM/pkg/registry/vnet/vnet.go:50-167 | For a client that keeps every object it made or got back, overwrites them and makes them share lists at will between calls: contents, counts and all the client's objects are those of a reference run on plain values, in which a valid Add stores the normal form of the value at the call and no write reaches the contents |
| `Ownership.Act` | src/FM/pkg/registry/vnet/vnet.go:94-167 | Any one call or write takes the reference's step and keeps what the client can reach apart from what the registry owns |
| `Ownership.Scribble` | src/FM/pkg/registry/vnet/vnet.go:50-60 | Rewriting fields, poking cells, reslicing, sharing or dropping lists changes the client's objects as described and never the registry |
| `Ownership.CallAdd` | src/FM/pkg/registry/vnet/vnet.go:123-131 | Stores the normal form of the object's value at the moment of the call, exactly if that is valid |
| `Ownership.CallGet` | src/FM/pkg/registry/vnet/vnet.go:140-146 | The client gets a new object of the stored value, with a list of its own |
| `Ownership.CallSnapshot` | src/FM/pkg/registry/vnet/vnet.go:160-167 | The client gets new objects of the stored values it keeps, each with a list of its own |
| `Ownership.CallRelease` | src/FM/pkg/registry/vnet/vnet.go:113-115 | Evicts exactly on the last reference |
| `FmBreakerSpec.CountersAreTrailingRuns` | src/FM/pkg/resilience/circuit_breaker.go:54-118 | In every run both counters are the trailing runs of executed calls since reset, and Open implies at least the threshold of failures in a row |
| `FmBreakerSpec.ThroughOpenExactlyAfterTimeout` | src/FM/pkg/resilience/circuit_breaker.go:54-79 | Rejected calls change nothing; a call passes an open breaker exactly when it starts more than the timeout after the last failure |
| `FmBreakerSpec.ClosesOnlyAfterSuccesses` | src/FM/pkg/resilience/circuit_breaker.go:93-100 | A breaker closes only after a full trailing run of successes |
| `FmBreakerSpec.TransitionsExactly` | src/FM/pkg/resilience/circuit_breaker.go:54-100 | From the executed calls alone: a failure opens exactly when it completes the threshold in a row; a success closes a breaker that was not closed exactly when it completes its threshold |
| `FmBreakerSpec.New` | src/FM/pkg/resilience/circuit_breaker.go:34-51 | Positive arguments are kept, others become 5, 2 and 30 s |
| `Dispatching.CircuitBreaker.Call` | src/FM/pkg/resilience/circuit_breaker.go:54-79 | The object follows the history function the three breaker theorems are about, and runs the function exactly when that history lets it |
| `Dispatching.CircuitBreaker.RecordFailure` | src/FM/pkg/resilience/circuit_breaker.go:82-90 | Extends the trailing run of failures, ends that of successes, opens at the threshold: the failure event of the history |
| `Dispatching.CircuitBreaker.RecordSuccess` | src/FM/pkg/resilience/circuit_breaker.go:93-100 | Extends the trailing run of successes, ends that of failures, closes a half-open breaker at the threshold: the success event of the history |
| `Dispatching.CircuitBreaker.Reset` | src/FM/pkg/resilience/circuit_breaker.go:110-118 | Closed, with nothing remembered |
| `Dispatching.Attempt` | src/FM/pkg/resilience/retry.go:32-59 | Exactly the tries and context checks of the reference retries; at most MaxRetries + 1 tries, all but the last failed, success exactly when the last try succeeded, and without cancellation a failure used every try |
| `DispatchSpec.AttemptedWithin` | src/FM/pkg/resilience/retry.go:32-59 | The reference retries make at most MaxRetries + 1 tries and succeed only by a try that does |
| `Dispatching.Dispatcher.DispatchWithResilience` | src/FM/pkg/dal/dispatcher.go:98-165 | An open vendor is refused without a try; otherwise at most four tries, a success clears and a failure raises the failure count by one, which opens at five; other vendors are untouched, and the counters move exactly so |
| `Dispatching.Dispatcher.Dispatch` | src/FM/pkg/dal/dispatcher.go:52-95 | Primary then every fallback until one succeeds; refuses exactly a missing goal or a done context; dispatched = succeeded + failed afterwards; a failed dispatch moves the vendor one failure closer to open; if all its vendors are open no plugin is tried |
| `Dispatching.Dispatcher.TryFallbacks` | src/FM/pkg/dal/dispatcher.go:76-88 | Every fallback is tried in turn until one succeeds, each counted |
| `Dispatching.Dispatcher.ResetCircuitBreaker` | src/FM/pkg/dal/dispatcher.go:176-183 | Closes that vendor and leaves the others |
| `Dispatching.WorkBounded` | src/FM/pkg/dal/dispatcher.go:98-165 | Between the calls of any run: at most 5 x 4 tries per vendor since its last success or reset, never half-open, counters balance |
| `Dispatching.AnyRun` | src/FM/pkg/dal/dispatcher.go:52-183 | Any run of dispatches and resets from a new dispatcher, under any clock, is the reference run: same outcome of every action, same plugin tries, context checks and failure count. Hence the vendor is open exactly when the last five accepted dispatches since its last success or reset all failed, GoalsDispatched = SuccessCount + FailureCount, and plugin tries are at most 20 x (successes + resets of that vendor + 1) |
| `DispatchSpec.FailuresAreTheRun` | src/FM/pkg/dal/dispatcher.go:98-165 | In every reference run the failure count is the number of failed dispatches since the last success or reset, up to five |
| `DispatchSpec.NoSuccessWhenOpen` | src/FM/pkg/dal/dispatcher.go:109-114 | After five failures in a row no action succeeds or tries the plugin |
| `DispatchSpec.FourthTryCounts` | src/FM/pkg/resilience/retry.go:21-59 | A plugin that fails exactly three tries succeeds with the fourth |
| `DispatchSpec.FourFailuresFail` | src/FM/pkg/resilience/retry.go:21-59 | One that fails the fourth too fails the dispatch and is not asked a fifth time |
| `DispatchSpec.WorkWithin` | src/FM/pkg/dal/dispatcher.go:98-165 | Plugin tries of a reference run are at most 20 for each success and reset and 4 for each failure since |
| `Dispatching.Act` | src/FM/pkg/dal/dispatcher.go:52-183 | One action takes the reference's step: outcome, tries, context checks and failure count |
| `Dispatching.NeverRecovers` | src/FM/pkg/dal/dispatcher.go:109-114 | A run from a new dispatcher: a plugin that fails its first twenty tries is never tried again, although it may work ever after |
| `Dispatching.OpenForGood` | src/FM/pkg/dal/dispatcher.go:109-114 | Once open, any number of dispatches under any clock tries no plugin until a reset |
| `ConcurrentDispatch.ConcurrentWorkBounded` | src/FM/pkg/dal/dispatcher.go:98-165 | In every interleaving of W callers, plugin tries since the last success or reset are at most 4 x (5 + W - 1) |
| `ConcurrentDispatch.ConcurrentWorkAttained` | src/FM/pkg/dal/dispatcher.go:109-114 | For every W and starting time a run under a clock that never goes back that reaches that bound |
| `ConcurrentDispatch.RecoversExactly` | src/FM/pkg/resilience/circuit_breaker.go:54-100 | After any run that leaves the breaker open, some continuation without a reset closes it if and only if some caller passed the dispatcher's check before it opened; and otherwise no call reaches the plugin |
| `ConcurrentDispatch.AloneNeverRecovers` | src/FM/pkg/dal/dispatcher.go:109-114 | With one caller there is never such a caller, so only a reset brings an open breaker back |
| `TokenBucket.WindowBound` | src/Weaver/pkg/ratelimit/limiter.go:26-40 | From any sound state, tokens granted in any window are at most capacity + rate x elapsed, with two clock readings per call |
| `TokenBucket.WindowOfRunBound` | src/Weaver/pkg/ratelimit/limiter.go:17-40 | The same for any window inside any run from creation |
| `TokenBucket.CallSpendsCredit` | src/Weaver/pkg/ratelimit/limiter.go:26-40 | One call keeps the bucket sound and spends what it grants from the window's credit |
| `TokenBucket.IdleRestoresBurst` | src/Weaver/pkg/ratelimit/limiter.go:26-40 | After idling for capacity/rate any request within capacity is granted |
| `TokenBucket.GrantedExactly` | src/Weaver/pkg/ratelimit/limiter.go:26-40 | Both halves: after any run from any bucket a request is granted if and only if it fits the capacity and, from the start and from every call of the run, what was granted since plus what is asked is within the fill then (the capacity at a call) plus rate x the seconds credited since |
| `TokenBucket.FillExactly` | src/Weaver/pkg/ratelimit/limiter.go:26-40 | The fill after any run is the least of what the initial fill and a full bucket at any call leave |
| `TokenBucket.NoTimeLost` | src/Weaver/pkg/ratelimit/limiter.go:30-32 | With equal clock readings the seconds credited are the time elapsed |
| `TokenBucket.NewBucketGrants` | src/Weaver/pkg/ratelimit/limiter.go:17-24 | A new bucket grants exactly the requests within its capacity |
| `TokenBucket.RefillsInPart` | src/Weaver/pkg/ratelimit/limiter.go:30-35 | Empty at 0 with a token a second, it grants 30 and refuses 31 at time 30 |
| `TokenBucketObject.BucketCell.Allow` | src/Weaver/pkg/ratelimit/limiter.go:26-40 | The object takes the step of the exact fill law, with both clock readings, and grants exactly what that law allows |
| `Limiter.AdmittedBound` | src/Weaver/pkg/ratelimit/limiter.go:73-109 | In any interleaving of the visits of any number of requests, those admitted with an identifier in a window, other than those already past its dimension, obey that dimension's bound |
| `Limiter.AdmittedExactly` | src/Weaver/pkg/ratelimit/limiter.go:73-109 | Both directions: an uninterrupted request is admitted if and only if, for every dimension for which it carries an identifier, the bucket of that client, IP, tenant or of all has a token, a missing one being made full |
| `Limiter.BoundPerClient` | src/Weaver/pkg/ratelimit/limiter.go:73-109 | The bound for the requests of one client ID |
| `Limiter.BoundPerIP` | src/Weaver/pkg/ratelimit/limiter.go:73-109 | The bound for the requests of one client IP |
| `Limiter.BoundPerTenant` | src/Weaver/pkg/ratelimit/limiter.go:73-109 | The bound for the requests of one tenant |
| `Limiter.BoundGlobal` | src/Weaver/pkg/ratelimit/limiter.go:73-109 | The bound for all requests |
| `Limiter.SpentWithinCredit` | src/Weaver/pkg/ratelimit/limiter.go:90-109 | Passing visits to one bucket in any interleaving are within its credit for the window |
| `Limiter.PassedHaveSpent` | src/Weaver/pkg/ratelimit/limiter.go:73-88 | No request gets past a dimension without spending a token of its own identifier there |
| `Limiter.RunsStaySound` | src/Weaver/pkg/ratelimit/limiter.go:90-109 | What the bound asks of a bucket holds after every run from an empty limiter |
| `Limiter.OtherTrafficInvisible` | src/Weaver/pkg/ratelimit/limiter.go:73-109 | Requests with other identifiers, however interleaved, never change this identifier's bucket |
| `Limiter.KeyInjective` | src/Weaver/pkg/ratelimit/limiter.go:90-109 | The composite key determines dimension and identifier |
| `Limiter.MultiDimensionalLimiter.AllowForDimension` | src/Weaver/pkg/ratelimit/limiter.go:90-109 | One visit: no identifier passes, a missing bucket is made full, the bucket decides |
| `Limiter.MultiDimensionalLimiter.Allow` | src/Weaver/pkg/ratelimit/limiter.go:73-88 | Visits the dimensions in order up to the first that refuses; tokens taken before it stay taken |
| `Limiter.AloneIsThrough` | src/Weaver/pkg/ratelimit/limiter.go:73-88 | That loop is a request of the interleaving system whose visits nobody interrupts |
| `Limiter.MultiDimensionalLimiter.Reset` | src/Weaver/pkg/ratelimit/limiter.go:111-115 | Forgets every bucket |
| `Rotation.RoundRobinFair` | src/Weaver/pkg/loadbalancer/strategies.go:21-32 | After any m selections from any counter each of n replicas has floor(m/n) or, only if n does not divide m, one more |
| `Balancing.RoundRobin.Select` | src/Weaver/pkg/loadbalancer/strategies.go:21-32 | The counter's remainder is picked and the counter advances; no replica, no pick |
| `Balancing.CountRotation` | src/Weaver/pkg/loadbalancer/strategies.go:21-32 | Counting the picks of any m calls of Select gives every replica its fair share |
| `Balancing.WeightedExact` | src/Weaver/pkg/loadbalancer/strategies.go:94-132 | Any total-weight many selections in a row pick position i exactly as often as the map says for its name, and once if the map has no or a zero weight |
| `Balancing.Weighted.Select` | src/Weaver/pkg/loadbalancer/strategies.go:94-132 | The picked position's slice of the total weight holds the counter's remainder, so the fallback never decides for non-negative weights |
| `Balancing.CountFullTurn` | src/Weaver/pkg/loadbalancer/strategies.go:94-132 | Counting the picks of one turn of Select calls gives every position the weight the map has for it, one if none or zero, and the turn is as long as these weights together |
| `Balancing.PickUnique` | src/Weaver/pkg/loadbalancer/strategies.go:118-129 | A counter value picks one position only |
| `LeastLoaded.SpreadBounded` | src/Weaver/pkg/loadbalancer/strategies.go:52-78 | Repeated select and +1 keeps the spread within the larger of one and the initial spread |
| `LeastLoaded.LevelsOut` | src/Weaver/pkg/loadbalancer/strategies.go:52-78 | Once the initial shortfall was served, loads differ by at most one for ever |
| `LeastLoaded.SelectLeastConnections` | src/Weaver/pkg/loadbalancer/strategies.go:52-72 | The first replica of least load, or none when there is none |
| `LeastLoaded.SelectResourceAware` | src/Weaver/pkg/loadbalancer/strategies.go:186-206 | The same choice |
| `LeastLoaded.ChoiceUnique` | src/Weaver/pkg/loadbalancer/strategies.go:186-206 | The two strategies agree |
| `LeastLoaded.ServeMany` | src/Weaver/pkg/loadbalancer/strategies.go:52-78 | The loads of the replica objects after n rounds of select and +1 |
| `StickySelection.IndexInRangeExactly` | src/Weaver/pkg/loadbalancer/strategies.go:246-247 | The index is in range if and only if the hash is below 2^63 or its distance to 2^64 is a multiple of the replica count |
| `StickySelection.ShortClientsSafe` | src/Weaver/pkg/loadbalancer/strategies.go:230-285 | ASCII identifiers of at most ten characters hash below 2^63 and index in range |
| `StickySelection.LongClientFails` | src/Weaver/pkg/loadbalancer/strategies.go:246-247 | The client "client-1234" gets index -2 of three replicas |
| `StickySelection.StaysWithReplica` | src/Weaver/pkg/loadbalancer/strategies.go:230-268 | After a client's first Select, any traffic over an unchanged list leaves its outcome the same until Rebalance |
| `StickySelection.Sticky.HashClient` | src/Weaver/pkg/loadbalancer/strategies.go:279-285 | The loop computes the 64-bit wrapping hash |
| `StickySelection.Sticky.Select` | src/Weaver/pkg/loadbalancer/strategies.go:230-254 | Without interruption: the remembered index while it is below the count, else a newly hashed one |
| `StickySelection.Sticky.Lookup` | src/Weaver/pkg/loadbalancer/strategies.go:237-243 | The section under the read lock finds an index only below the count |
| `StickySelection.Sticky.Store` | src/Weaver/pkg/loadbalancer/strategies.go:249-251 | The section under the write lock changes that client's index only |
| `StickySelection.AnswersAgree` | src/Weaver/pkg/loadbalancer/strategies.go:230-254 | In every interleaving of these sections by any calls, over an unchanged list and without Rebalance, every answer to a client is what a lone Select would have answered at the start |
| `StickySelection.SelectPicks` | src/Weaver/pkg/loadbalancer/strategies.go:230-254 | The remembered replica while its index is in range; for a client not remembered the replica at hash modulo count, as long as the hash fits an int |
| `StickySelection.LoneRun` | src/Weaver/pkg/loadbalancer/strategies.go:230-254 | A call that nobody interrupts is answered so by its two sections |
| `StickySelection.Sticky.Rebalance` | src/Weaver/pkg/loadbalancer/strategies.go:262-268 | Forgets every affinity |
| `Timeouts.BudgetHolds` | src/Weaver/pkg/reliability/timeout.go:37-63 | With 50 ms per attempt left at the start and attempts that keep to timeout + 50 ms, timeouts never decrease and all attempts end by the global deadline |
| `Timeouts.BudgetHoldsExactly` | src/Weaver/pkg/reliability/timeout.go:37-63 | Every such run meets the deadline if and only if it starts with at least 50 ms per attempt |
| `Timeouts.GreatestThatFits` | src/Weaver/pkg/reliability/timeout.go:37-63 | The timeout is the greatest within the replica timeout for which all attempts left, overhead included, still fit into the time remaining, and zero when none does |
| `Timeouts.AttemptDeadline` | src/Weaver/pkg/reliability/timeout.go:79-97 | An attempt's deadline is at or before the request's, and not before now unless the request's is |
| `Timeouts.DeadlineExactly` | src/Weaver/pkg/reliability/timeout.go:79-97 | It is the attempt's timeout from now, or the request's deadline (the global timeout from now if it has none) where that is earlier |
| `Timeouts.AttemptTimeout` | src/Weaver/pkg/reliability/timeout.go:37-63 | Never negative, and zero once no time remains |
| `WeaverBreakerSpec.TransitionsBalance` | src/Weaver/pkg/reliability/circuit_breaker.go:66-136 | For every interleaving of Allow and records: trips - closes = 1 exactly when not closed, probes - reopens - closes = 1 exactly when half-open, stateChanges is their sum |
| `WeaverBreakerSpec.TransitionsExactly` | src/Weaver/pkg/reliability/circuit_breaker.go:66-136 | The next mode from the events alone: a closed breaker opens with exactly the failure that makes the threshold since the last success; an open one turns half-open with exactly an Allow from the timeout on; a half-open one reopens with the first failure and closes with exactly the success that makes the threshold since the probe |
| `WeaverBreakerSpec.CountersAreEvents` | src/Weaver/pkg/reliability/circuit_breaker.go:92-136 | While closed consecutiveFailures is the failures since the last success, below the threshold; while half-open consecutiveSuccesses is the successes since the probe, below theirs |
| `WeaverBreakerSpec.TotalsAreEvents` | src/Weaver/pkg/reliability/circuit_breaker.go:92-120 | The totals count the recorded events |
| `WeaverBreakerSpec.OpensAtFive` | src/Weaver/pkg/reliability/circuit_breaker.go:43-136 | With the defaults five failures open a new breaker, four do not, and the next call is refused |
| `WeaverBreakerSpec.TripsArePaid` | src/Weaver/pkg/reliability/circuit_breaker.go:114-136 | failureThreshold x trips + reopens + consecutiveFailures <= totalFailures |
| `WeaverBreakerSpec.ClosesArePaid` | src/Weaver/pkg/reliability/circuit_breaker.go:92-111 | successThreshold x closes + consecutiveSuccesses <= totalSuccesses |
| `WeaverBreakerSpec.RefusesExactly` | src/Weaver/pkg/reliability/circuit_breaker.go:66-89 | Allow refuses exactly while open and within the timeout of the last recorded failure, late records included |
| `WeaverBreaker.CircuitBreaker.constructor` | src/Weaver/pkg/reliability/circuit_breaker.go:43-63 | Zero thresholds and timeout become 5, 2 and 30 s; other values are kept |
| `WeaverBreaker.CircuitBreaker.Allow` | src/Weaver/pkg/reliability/circuit_breaker.go:66-89 | The Allow event of the run the balance laws are about; admits exactly unless open within the timeout |
| `WeaverBreaker.CircuitBreaker.RecordSuccess` | src/Weaver/pkg/reliability/circuit_breaker.go:92-111 | The success event of that run, late records while open included |
| `WeaverBreaker.CircuitBreaker.RecordFailure` | src/Weaver/pkg/reliability/circuit_breaker.go:114-136 | The failure event of the run whose transitions are exact, late records while open included |
| `WeaverBreaker.CircuitBreaker.Reset` | src/Weaver/pkg/reliability/circuit_breaker.go:159-170 | Closed with all counters zero, thresholds kept |
| `HealthSpec.HealthIsLastDecisiveRun` | src/Weaver/pkg/health/monitor.go:153-185 | After any results a replica is healthy exactly when the newest run that reached its threshold was of successes, or there was none |
| `HealthSpec.FlappingBounded` | src/Weaver/pkg/health/monitor.go:153-185 | k state changes in n checks only if k(F+S) <= 2n + max(0, S-F) |
| `HealthSpec.FlappingAttained` | src/Weaver/pkg/health/monitor.go:153-185 | Histories of any length that reach that bound |
| `HealthSpec.MovesArePaid` | src/Weaver/pkg/health/monitor.go:153-185 | F x downs + S x ups + the running counter is at most the number of checks |
| `HealthMonitor.PanicExactlyWhenNoneHealthy` | src/Weaver/pkg/health/monitor.go:206-230 | After checks that do not overlap, panic mode holds exactly when there are replicas and the last decisive run of each was bad; the panic time is set exactly while it holds |
| `ConcurrentChecks.PanicExactAtRest` | src/Weaver/pkg/health/monitor.go:153-230 | In every interleaving of checks, tracker by tracker reads of the panic update included, the same holds whenever no check is between its tracker update and the end of its panic update; the panic time is always set exactly while panic mode holds |
| `ConcurrentChecks.PanicMayLag` | src/Weaver/pkg/health/monitor.go:153-203 | A run in which the only replica is down and panic mode is not yet set |
| `ConcurrentChecks.PanicCatchesUp` | src/Weaver/pkg/health/monitor.go:153-230 | The same run finished: panic mode is set, with the time of that reading |
| `HealthMonitor.NothingOfferedExactlyInPanic` | src/Weaver/pkg/health/monitor.go:271-279 | No replica is offered exactly in panic mode, or when there is none |
| `HealthMonitor.Monitor.constructor` | src/Weaver/pkg/health/monitor.go:67-102 | One healthy tracker per name; thresholds that are not positive become 3 and 2 |
| `HealthMonitor.Monitor.ProcessCheckResult` | src/Weaver/pkg/health/monitor.go:153-203 | One tracker advances by the result, no other; the replica's flag follows; a change is appended, old state before new, unless ten notices wait; panic mode and time are up to date |
| `HealthMonitor.Monitor.UpdatePanicMode` | src/Weaver/pkg/health/monitor.go:206-230 | Panic exactly when there are trackers and none is up; the time changes only on entry and exit |
| `HealthMonitor.CountHealthy` | src/Weaver/pkg/health/monitor.go:210-216 | The loop counts zero exactly when no tracker is up |
| `HealthMonitor.Monitor.IsHealthy` | src/Weaver/pkg/health/monitor.go:240-261 | The verdict on the replica's results; an unknown name is healthy |
| `HealthMonitor.Monitor.GetHealthyReplicas` | src/Weaver/pkg/health/monitor.go:271-279 | Exactly the replicas with a good verdict, in order |

## Left out

- The protocols of `Specs/` (split and merge, lease fencing, actor state machines, log replay): documentation without code.
- HTTP APIs, configuration, metrics, logging, tracing, authentication, plugin loading, the etcd subscriber, service discovery and the health checkers: plumbing over libraries; their results are inputs here.
- The `nic`, `acl`, `route`, `meter` and `mapping` registries: the same wrapper as the VNET registry, so they would only add easy members; the in-place list routine of `nic` is `SortDedup.Normalise`.
- The `gm` manager and cache, the error catalogue, the `Random` and `CustomStrategy` balancers, the gateway's request loop: stubs, tables or foreign code.
- SHA-256: a fingerprint is an opaque value that is only compared, so that distinct texts have distinct fingerprints is not stated.
- `calculateBackoff`, `AttemptAsync` and the Fabric Manager's stage timeouts: they decide when, not whether, a try happens; sleeping is the second cancellation point of `Dispatching.Attempt`.
- WorkerPool.EveryRun: covers one lifecycle (from the state after Start through at most one Stop); restarting a pool or starting it twice is not modelled. A caller's own context may be done at any time, so the Refuse, ReturnClosed and GiveUp steps are always allowed.
- PipelineLoop.Pipeline.HandleEventLoop: the loop's own run, with its output channel open; Stop closing that channel under it is the subject of PipelineShutdown, whose input, cache and validator are arbitrary.
- Dispatching.Dispatcher.Dispatch: covers sequential runs, with breakers kept by value, since no one else holds them; concurrent dispatches to one vendor are the step system ConcurrentDispatch, which leaves out fallbacks and statistics.
- Limiter.MultiDimensionalLimiter.Allow: the loop without interruption, with buckets kept by value, since no one else holds them; interleaved requests are the step system of the same module.
- SortDedup.SortSlice: the library sort is modelled by its specification, as are the list operations of the LRU cache.
- Floating-point rounding in the token bucket: amounts and times are exact reals.
- Wrap-around of 64-bit counters (round robin, weighted, statistics, reference counts) and of 32-bit health counters: integers are unbounded, except in the sticky hash, where wrap-around matters.
- Strings are sequences of characters, so the 256-byte limit on identifiers counts characters.
- HealthMonitor.Monitor.ProcessCheckResult: one check without interruption; overlapping checks are the step system ConcurrentChecks, which leaves out notices and replica flags.
- StickySelection.Sticky.Select: one call without interruption; overlapping calls are the step system of the same module.
- Data races from reads outside a lock: every step is atomic.
- Last-check and last-failure times of health trackers: written by the source but never read.
