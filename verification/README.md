# PonzProxy data plane: a verified model

This project models, in Dafny, the parts of PonzProxy's data plane that keep state from one
request to the next, and proves what they promise over every run.

| file | models |
|---|---|
| `SmoothWeighted.dfy` | smooth weighted round robin on score vectors: conservation, fairness, periodicity |
| `Health.dfy` | active probes and passive ejection as transitions, and what whole histories mean |
| `HealthOverlap.dfy` | reports of results that overlap, one atomic operation at a time |
| `Balancer.dfy` | backends, the four selectors, the pool's pick and its rebuild, in place |
| `Forward.dfy` | the pick-and-retry loop of one request |
| `ForwardRuns.dfy` | that loop for many requests at once, in every interleaving |
| `Reload.dfy` | routing table rebuilds and the state carried across them |
| `CacheSpec.dfy` | a host's response cache as a recency sequence, over every run |
| `HostCache.dfy` | the same cache as it is kept: map, doubly linked list and byte count on the heap |
| `CachePolicy.dfy` | what may be stored, for how long, and shown to whom |
| `Capture.dfy` | the capture writer, and the cache under every interleaving of responses |
| `CompressWriter.dfy` | the deferred-decision compression writer over every call sequence |
| `LimiterRecord.dfy` | one client's token bucket and slots |
| `LimiterSweep.dfy` | when sweeping idle records is invisible |
| `LimiterRate.dfy` | how many requests a time window can see admitted, with readings out of order and with sweeps |
| `Limiter.dfy` | a shard of the limiter: its table, evictions and sweeps, client by client |
| `LimiterEviction.dfy` | sweeping a shard that also evicts |
| `LimiterOverflow.dfy` | how many clients in flight sweeping stands, exactly |
| `LimiterShardRate.dfy` | the rate bound over a whole shard |
| `DomainIndex.dfy` | name lookup for hosts, redirects and certificates against the linear scan |
| `Locations.dfy` | path routing and prefix stripping |
| `ShareWindow.dfy` | the ring behind the traffic split |
| `LoginLimiter.dfy` | sign-in throttling |
| `LoginRuns.dfy` | the same with several attempts in progress at once |
| `AccessCache.dfy` | access lists and the cache of verified credentials |
| `Basics.dfy` | shared small types |

Objects that the program updates in place are classes whose methods are proved against
functions on values; the theorems over runs are lemmas about those functions. Each section
held under a mutex is one atomic step; a request that locks more than once (picking, taking and
giving back a slot; consulting and feeding the credential cache) is as many steps, with others'
in between. A report on a backend holds no lock: the results of `Health` are for reports that do not
overlap, those of `HealthOverlap` for reports that do. Clocks, upstream outcomes, the order in which a map is
visited and the bytes a client accepts are parameters, so the theorems hold for all of them.
Numbers are unbounded; token levels and the limiters' times are reals. The rendezvous score of
an upstream for a client is an arbitrary real function, gzip an arbitrary encoder with a decoder
that undoes finished streams, the password hash an arbitrary predicate and the credential digest
an arbitrary (where stated, injective) function. Requests to the cache policy are given by the
header facts it looks at, already parsed.

Where the code and its comments differ the model follows the code:

- `internal/balancer/selector.go:61` shows A B A C A A ... for weights 5/1/1; the code's order is
  A A B A C A A. Fairness over every window of seven holds either way.
- `internal/proxy/handler.go:107-110` says cached bodies are already compressed. Compression
  removes Content-Length, without which a response is not stored.
- `internal/limiter/limiter.go:236-238` speaks of rounding the wait up to a whole second; the code
  only raises it to at least one second.
- `internal/limiter/limiter.go:60-63` asks that the idle time exceed a full refill. Nothing
  enforces it, and `LimiterSweep.SweepsInvisibleExactly` gives the exact condition.

Properties that turned out false have a failing case and the exact condition under which they hold:

- the rate bound over a time window, when clock readings arrive out of order: it stands for readings
  at most s late exactly when the rate earns at most one token in s or neither burst nor rate is more
  than one
  (`LimiterRate.BoundStandsExactly`), and `LimiterRate.WindowBound` says by how much it can be passed;
- the rate bound and the answers under sweeps: the bound exactly when the larger of burst and
  rate is at most what the rate earns in ten minutes (`LimiterRate.SweptBoundExactly`), the answers, with readings at most s
  late, exactly when it is at most what the rate earns in ten minutes less 2s
  (`LimiterSweep.SweepsInvisibleExactly`);
- the same over a whole shard, which evicts when it is full: sweeps show nowhere exactly up to 16384
  clients in flight at once (`LimiterOverflow.SweepsInvisibleUpToExactly`), and the rate bound stands
  exactly up to 16384 clients (`LimiterShardRate.StandsForExactly`);
- the failure count as the length of the failure run, when reports overlap: `HealthOverlap` says what
  the count then means, with a run in which it differs (`HealthOverlap.OverlapMiscounts`), and that
  it does not when reports come one after the other (`HealthOverlap.InTurnIsProxyRun`);
- the in-flight count with Forget: right throughout exactly when every Forget finds nothing in flight
  (`LimiterRecord.CountsExactly`);
- the wait a refusal names, after the clock stepped back (`LimiterRecord.RetryAfterTooShort`,
  `LimiterRecord.RetryAfterExactly`);
- the cached access decision: exactly for lists that do not admit some addresses and leave others to
  their password (`AccessCache.AgreesExactly`);
- lookups against the scan for the raw name, of which only the lookups strip surrounding space, and
  for hosts also brackets and port (`DomainIndex.CertificateLookupExactly`,
  `DomainIndex.HeaderLookupExactly`).

## Model

| member | source | states |
|---|---|---|
| `SmoothWeighted.SelectionIsUnique` | internal/balancer/selector.go:67-88 | from given scores and candidates there is one winner (the earliest highest raised score) and one resulting score vector |
| `SmoothWeighted.PoolScoresConserved` | internal/balancer/selector.go:67-88 | over every run, however the candidate set changes between selections, the scores of any set of backends holding all candidates keep their sum (zero for a fresh pool) |
| `SmoothWeighted.ScoresBounded` | internal/balancer/selector.go:67-88 | with fixed candidates of positive weight from a fresh pool, candidates' scores always sum to zero and stay above minus the total weight W, and other backends' scores do not move |
| `SmoothWeighted.ScoreLaw` | internal/balancer/selector.go:67-88 | between any two points of a run a score moves by (picks elapsed) * weight - W * (picks given) |
| `SmoothWeighted.CycleRestores` | internal/balancer/selector.go:67-88 | after W selections every score is back at its starting value |
| `SmoothWeighted.Periodic` | internal/balancer/selector.go:67-88 | the scores after t + W selections are those after t |
| `SmoothWeighted.ZeroEveryCycle` | internal/balancer/selector.go:67-88 | candidates' scores are all zero again after every multiple of W selections |
| `SmoothWeighted.FairWindow` | internal/balancer/selector.go:56-88 | any W consecutive selections, wherever they start, pick each candidate exactly its weight times |
| `SmoothWeighted.ShareBounds` | internal/balancer/selector.go:56-88 | after t selections backend i has fewer than t*w/W + 1 picks, and with m candidates at least t*w/W - (m-1)(W-1)/W |
| `Balancer.SelectWeighted` | internal/balancer/selector.go:67-88 | the in-place loop over the candidates performs exactly one selection of the score model on the whole pool |
| `Balancer.SelectRotating` | internal/balancer/selector.go:50-55 | picks the candidate with (counter mod candidates) candidates before it |
| `Balancer.RotationNeverRepeats` | internal/balancer/selector.go:39-55 | as many consecutive rotations as there are (unchanged) candidates all go to different ones |
| `Balancer.SelectLeastConnections` | internal/balancer/selector.go:98-113 | picks a candidate no other is lighter than (fewer connections, then more weight), the earliest such |
| `Balancer.SelectByClient` | internal/balancer/selector.go:124-142 | picks the earliest candidate with the highest client score |
| `Balancer.RendezvousStable` | internal/balancer/selector.go:115-142 | taking any candidates away leaves a client on its backend unless that very backend was taken away; the choice for given candidates is unique |
| `Balancer.Backend.constructor` | internal/balancer/backend.go:65-78 | a new backend is healthy, not ejected, with no streaks, connections or score |
| `Balancer.Backend.InheritFrom` | internal/balancer/backend.go:265-280 | takes over health, streaks, failure count, ejection deadline and request total, but neither connections nor score |
| `Balancer.Backend.Ejected` | internal/balancer/backend.go:94-104 | ejected exactly while a non-zero deadline lies ahead, and then reports the time left to it |
| `Balancer.Backend.Available` | internal/balancer/backend.go:108-114 | up by the probe and not ejected |
| `Balancer.Backend.RecordProbe` | internal/balancer/backend.go:241-261 | moves the state by one probe and reports a change exactly when the health flag flipped |
| `Balancer.Backend.RecordProxyResult` | internal/balancer/backend.go:131-154 | moves the state by one proxied result; reports a fresh ejection, or on success any cleared deadline, even a lapsed one |
| `Balancer.Backend.ClearEjection` | internal/balancer/backend.go:159-162 | drops the failure count and the deadline and nothing else |
| `Balancer.Backend.Acquire` | internal/balancer/backend.go:173 | one more request in flight |
| `Balancer.Backend.Release` | internal/balancer/backend.go:176-180 | one fewer in flight and one more finished |
| `Balancer.Pool.CanTake` | internal/balancer/pool.go:95 | an enabled backend is passed over exactly when down, ejected at that moment, with a limit its requests in flight have reached, or already tried |
| `Balancer.Pool.Filter` | internal/balancer/pool.go:82-101 | the candidates are, in pool order, exactly the backends enabled, available, below their limit and not excluded |
| `Balancer.Pool.Pick` | internal/balancer/pool.go:77-112 | reports no backends exactly when none is enabled, picks exactly when some backend is eligible, then makes the algorithm's choice, and moves scores or counter only as that algorithm does |
| `Balancer.Pool.constructor` | internal/balancer/pool.go:36-60 | every new backend starts from what the last old backend with its key had learned and finished, or from new, with no connections and zero score |
| `Balancer.InheritsFromLast` | internal/balancer/pool.go:36-53 | the old backend inherited from is the last with the key, and without one the state is new and the total zero |
| `Health.StreaksAreTrailing` | internal/balancer/backend.go:241-261 | the streak counters are the lengths of the runs of successes and failures at the end of the probe history |
| `Health.HealthMeansLastDecisiveWindow` | internal/balancer/backend.go:231-261 | starting healthy, after any probe history a backend is down exactly when the most recent decisive window (U straight failures or H straight successes) is a failing one; thresholds below one act as one |
| `Health.CounterMeansFailRun` | internal/balancer/backend.go:131-162 | over any results and clearings that do not overlap the failure counter is the length of the current run of failures modulo MaxFails |
| `Health.DeadlineMeansLastEjection` | internal/balancer/backend.go:131-162 | for such reports the deadline is EjectFor past the last completed block of MaxFails straight failures unless a success or a clearing followed it, and zero otherwise |
| `Health.EjectedExactly` | internal/balancer/backend.go:94-104 | for such reports a backend is ejected exactly while the window of that last block is open |
| `Health.OffLearnsNothing` | internal/balancer/backend.go:131-162 | with passive health off no run of results changes anything, and a clearing still clears |
| `Health.ChecksAreIndependent` | internal/health/checker.go:205-243 | however probes, proxied results and clearings interleave, the probe state is that of the probes alone and the ejection state that of the traffic alone |
| `Health.AvailableExactly` | internal/balancer/backend.go:108-114 | after any mixed history of probes and of reports that do not overlap a backend takes traffic exactly when its most recent decisive probe window is not a failing one and the window of its last uncleared ejection is over |
| `HealthOverlap.CountersMean` | internal/balancer/backend.go:131-162 | however reports overlap, the counter is the failures added since it was last reset, and the deadline the one last set |
| `HealthOverlap.GoesOnExactly` | internal/balancer/backend.go:144-147 | a report of a failure goes on to eject exactly when with its own Add at least MaxFails were added since the last reset |
| `HealthOverlap.EjectedWasEarned` | internal/balancer/backend.go:144-154 | however reports overlap, a backend is out of rotation only by such a report, for EjectFor from it, with no deadline set or cleared since |
| `HealthOverlap.CountIsBounded` | internal/balancer/backend.go:144-147 | the counter passes MaxFails - 1 by at most the reports between reaching the limit and resetting it |
| `HealthOverlap.InTurnIsProxyRun` | internal/balancer/backend.go:131-162 | reports one after the other leave what the model of whole reports says |
| `HealthOverlap.OverlapMiscounts` | internal/balancer/backend.go:144-147 | overlapping, five failures with MaxFails 3 can leave the counter at zero, where one after the other they leave two |
| `Forward.Attempt` | internal/proxy/handler.go:162-194 | one attempt takes and returns one slot, finishes one request and reports one result on its backend, leaving all others as they were |
| `Forward.AttemptsAreIndependent` | internal/proxy/handler.go:142-212 | attempts on distinct backends do not interfere: each tried backend moved by its own attempt only, every other by nothing |
| `Forward.AttemptsBounded` | internal/proxy/handler.go:203-207 | at most MaxRetries + 1 attempts, and a single one for a request that carries a body |
| `Forward.Run` | internal/proxy/handler.go:121-212 | for every behaviour of the upstreams the loop ends, having tried distinct backends each free when picked (enabled, up, not ejected, below its limit), gone on only after an attempt that failed with nothing written, on a request without a body and with retries left, and, where it could have gone on, ended only because nothing untried was free; slots are balanced, each attempt reported once and the request once, 503 answered exactly when nothing was attempted, and the ending is what the last attempt did: served, cut short or bad gateway |
| `ForwardRuns.RequestsAreSound` | internal/proxy/handler.go:121-212 | in every interleaving of requests and of anything learned about backends, each request tries distinct backends, goes on only after clean failures of a replayable request, is recorded once when it ends, and answers 503 exactly when it attempted nothing, naming whether any backend is enabled |
| `ForwardRuns.AttemptsBounded` | internal/proxy/handler.go:203-207 | so it makes at most MaxRetries + 1 attempts, and one when it carries a body |
| `ForwardRuns.RetriedOnlyCleanFailures` | internal/proxy/handler.go:200-207 | in every interleaving each attempt followed by another failed with nothing written, on a request without a body and with retries left |
| `ForwardRuns.EndsEarlyOnlyWhenDry` | internal/proxy/handler.go:142-212 | in every interleaving a request that ends while it could go on ends by a pick at which every backend it had not tried was off, down, ejected or at its limit |
| `ForwardRuns.PicksWhatIsFree` | internal/balancer/pool.go:82-101 | whatever a step tries was enabled, up, not ejected, below its limit and not tried |
| `ForwardRuns.EndsAsItWent` | internal/proxy/handler.go:172-211 | a request that attempted anything ends served, cut short or as bad gateway, by what its last attempt did |
| `ForwardRuns.SlotsBalance` | internal/proxy/handler.go:164-194 | in every interleaving a backend's connection count is exactly the requests that took a slot and have not given it back, its total those that gave one back, its reports those that reported |
| `ForwardRuns.AllGivenBack` | internal/balancer/backend.go:173-180 | once all requests ended no slot is in use and each backend finished and heard about exactly the requests that tried it |
| `ForwardRuns.StepsBringTheEnd` | internal/proxy/handler.go:142-212 | whatever others do, each step of a request lowers a bound on the steps it has left |
| `ForwardRuns.NeverStuck` | internal/proxy/handler.go:142-212 | a request that has not ended always has a step to take |
| `Reload.InheritedIsCarried` | internal/balancer/pool.go:37-56 | what the pool constructor carries over is what the reload model says |
| `Reload.StepFollows` | internal/proxy/routing.go:91-103 | one event, rebuild or not, moves a followed backend by its own change only |
| `Reload.NewcomersStartNew` | internal/balancer/pool.go:44-56 | a backend the table did not have under that host, location path and address starts from new |
| `Reload.ReloadsAreInvisible` | internal/proxy/routing.go:82-103 | for every interleaving of table rebuilds with anything learned about backends, a backend that keeps its host, location path and pool-unique address ends exactly where its own history alone takes it |
| `CacheSpec.FitIsLongestPrefix` | internal/cache/cache.go:232-235 | evicting from the tail until the budget holds leaves exactly the longest prefix that fits |
| `CacheSpec.NewestSurvives` | internal/cache/cache.go:203-235 | an accepted entry is always the first item left |
| `CacheSpec.JustUsedSurvives` | internal/cache/cache.go:181-235 | what was just served survives the next store unless the two together exceed the budget |
| `CacheSpec.Retained` | internal/cache/cache.go:181-248 | an entry used is still cached at the end of any run in which nothing since superseded it or found it stale and all that was used since fits, together with it, every budget loaded since; it is then hit exactly before its expiry |
| `CacheSpec.RunDistinct` | internal/cache/cache.go:181-248 | after any run of lookups, stores on whatever budgets and invalidations keys are distinct |
| `CacheSpec.OrderIsLastUse` | internal/cache/cache.go:181-235 | after any run the items stand in the order of their last use in the run, latest first |
| `CacheSpec.LastUseMeans` | internal/cache/cache.go:181-235 | last use is the last accepted store or fresh hit of the key in the run |
| `CacheSpec.ItemIsLastStore` | internal/cache/cache.go:181-248 | whatever is cached is the last entry accepted under its key with no later invalidation of its path |
| `CacheSpec.HitIsLastStore` | internal/cache/cache.go:181-248 | every hit is fresh and is the last entry accepted under its key with no later invalidation of its path |
| `CacheSpec.MemoryIsBounded` | internal/cache/cache.go:209-235 | the bytes held never exceed the largest budget a store has loaded; an accepted store brings them within the budget it loaded before the lock |
| `CacheSpec.BodiesAreBounded` | internal/cache/cache.go:209-235 | the bodies held, and 256 bytes for each, total at most the largest budget a store has loaded |
| `CacheSpec.InvalidatedExactly` | internal/cache/cache.go:238-248 | an invalidation drops every entry of that host and path, whatever its query and coding, and only those |
| `HostCache.HostCache.constructor` | internal/cache/cache.go:170-174 | a new cache is empty with its budget |
| `HostCache.HostCache.Unlink` | internal/cache/cache.go:272-284 | cuts the node out; the list still reads the same from either end |
| `HostCache.HostCache.PushFront` | internal/cache/cache.go:286-296 | puts the node first; the list still reads the same from either end |
| `HostCache.HostCache.MoveToFront` | internal/cache/cache.go:298-304 | moves the node first and keeps the order of the rest |
| `HostCache.HostCache.Remove` | internal/cache/cache.go:266-270 | list, map and byte count drop the same entry |
| `HostCache.HostCache.Lookup` | internal/cache/cache.go:181-201 | on the heap: answers a fresh entry and makes it most recent, drops a stale one, and keeps list, map and byte count describing one recency sequence |
| `HostCache.HostCache.Put` | internal/cache/cache.go:209-236 | on the heap: refuses an entry larger than the budget with no effect, else leaves exactly the longest prefix of "new entry, then the rest in order" that fits |
| `HostCache.HostCache.Invalidate` | internal/cache/cache.go:240-248 | on the heap, visiting the map in any order: removes exactly the entries of that host and path, keeping the order of the rest |
| `CachePolicy.ExpiryIsEarliestLimit` | internal/cache/policy.go:283-315 | the expiry is the earlier of the origin's own limit (s-maxage, then max-age, then Expires, else the default TTL) and MaxTTL from now; the origin's limit lies ahead, and so does the expiry exactly when MaxTTL is positive |
| `Capture.CaptureWriter.WriteHeader` | internal/proxy/cache.go:198-224 | starts a capture exactly on storable terms, once, committing an empty body at once |
| `Capture.CaptureWriter.Write` | internal/proxy/cache.go:226-254 | buffers what the client accepted, abandons past the declared length, commits exactly at it |
| `Capture.CaptureWriter.Commit` | internal/proxy/cache.go:256-263 | stores the buffered body on the header's terms and stops capturing |
| `Capture.CaptureWriter.Abandon` | internal/proxy/cache.go:265-267 | drops the buffer and stops capturing |
| `Capture.HeaderStep` | internal/proxy/cache.go:198-224 | a header commits exactly when it is the response's first and declares an empty storable body |
| `Capture.BytesStep` | internal/proxy/cache.go:226-254 | a write commits exactly when it takes what the client accepted from below the declared length of a storable response to that very length, and the body is all of it; past the length nothing is ever committed |
| `Capture.RunGood` | internal/proxy/cache.go:198-267 | over every interleaving of responses, lookups, invalidations and changes of settings, each cached body is everything the client of some response had accepted at some moment, in order, and as many bytes as that response's header declared |
| `Capture.RunIsOps` | internal/proxy/cache.go:198-267 | the cache after a run is what its lookups, invalidations and commits leave as operations in that order |
| `Capture.ServedHitsAreSound` | internal/proxy/cache.go:58-71 | a served hit is such a whole body for the same key, the latest stored under it with no later invalidation of its path, before its expiry and no later than the response's own MaxTTL after its header; the response was a 200 answer to a GET of at most the size allowed, with no cookie set, nothing in Vary but the coding, neither private, no-store, no-cache nor Pragma no-cache alone; it and the request it is served to either carried no credentials or it was marked public, and that request lets caches answer |
| `Capture.WholeIsStored` | internal/proxy/cache.go:198-263 | and every such response is stored: once its client has accepted exactly the declared number of bytes, all of them have been put in the cache under its key until the earlier of its own limit and MaxTTL |
| `Capture.ConfidentialLeavesNoTrace` | internal/cache/policy.go:239-278 | a response that is private, no-store, sets a cookie, or answers credentials without being public leaves the cache of every run as it would be without that response |
| `CompressWriter.Writer.WriteHeader` | internal/proxy/compress.go:119-166 | takes the first status only; settles bodyless, encoded, unlisted and short responses at once and defers the rest |
| `CompressWriter.Writer.Commit` | internal/proxy/compress.go:225-248 | settles once and sends the status line with the header it settled on |
| `CompressWriter.Writer.Write` | internal/proxy/compress.go:168-189 | passes on once settled, else holds until the threshold and then compresses everything held |
| `CompressWriter.Writer.Flush` | internal/proxy/compress.go:203-222 | ignored with nothing held, else settles and pushes |
| `CompressWriter.Writer.Close` | internal/proxy/compress.go:272-287 | sends a short body as it is, or finishes the gzip stream |
| `CompressWriter.RunKeeps` | internal/proxy/compress.go:119-222 | after any calls the undecided buffer is shorter than the threshold, nothing went out before the decision, and sent plus held is what was written |
| `CompressWriter.FlushNeverCompresses` | internal/proxy/compress.go:203-214 | a flush never starts compression: what it finds held is always below the threshold |
| `CompressWriter.FlushDelivers` | internal/proxy/compress.go:203-222 | a flush with bytes written leaves none behind and pushes a compressed stream out |
| `CompressWriter.ClosesOnce` | internal/proxy/compress.go:272-287 | closing a second time does nothing |
| `CompressWriter.StreamPreserved` | internal/proxy/compress.go:119-287 | for every call sequence ended by Close, one status line goes out, first, and undoing the encoding it announces yields exactly the bytes written |
| `CompressWriter.CompressesExactly` | internal/proxy/compress.go:119-222 | a response is compressed exactly when its status lets it have a body, the backend has not encoded it, its type is on the list, it declares no length below the threshold, and its body reaches the threshold before any flush has bytes to push |
| `CompressWriter.StatusLineIsRight` | internal/proxy/compress.go:119-268 | the status line carries the first status given or 200; a compressed response announces its coding, drops its length, weakens its tag and varies; any other keeps the backend's header, with Vary exactly when it has a body, not encoded yet, of a type to compress |
| `LimiterRate.WindowBound` | internal/limiter/limiter.go:212-251 | in every run of a kept record with readings at most s out of order, the requests read in a window of length d and admitted number at most the larger of burst and rate, plus rate*d, plus rate*s - 1 when that is positive and the bucket holds more than one |
| `LimiterRate.BurstExactly` | internal/limiter/limiter.go:163-251 | with a positive rate and no concurrency limit a new client's requests at one moment are admitted up to the larger of burst and rate, and refused as too fast from there on |
| `LimiterRate.BoundStandsExactly` | internal/limiter/limiter.go:225-233 | the bound without the last term stands for all windows of all runs of skew at most s exactly when rate*s <= 1 or neither burst nor rate is more than one |
| `LimiterRate.BoundStandsForAllExactly` | internal/limiter/limiter.go:225-233 | it stands for every rule set exactly when readings are never out of order |
| `LimiterRate.SweptBoundExactly` | internal/limiter/limiter.go:299-311 | with sweeps anywhere in time-ordered runs it stands exactly when the larger of burst and rate is at most 600 * rate |
| `LimiterRecord.RateBound` | internal/limiter/limiter.go:212-246 | from any level, any stretch of consecutive calls whose readings lie in a window of length d, in whatever order, admits at most the larger of burst and rate, plus rate*d |
| `LimiterRecord.EarnsTheRate` | internal/limiter/limiter.go:225-233 | a bucket earns the rate in every second and a fair part of it in every part of a second |
| `LimiterRecord.LevelHolds` | internal/limiter/limiter.go:212-246 | the bucket stays between empty and full over every run |
| `LimiterRecord.RetryAfterExactly` | internal/limiter/limiter.go:235-243 | the wait a refusal names is enough exactly when the last refill is ahead of the clock by no more than the wait exceeds what the missing part of a token takes, so always on a clock that has not gone back |
| `LimiterRecord.RetryAfterTooShort` | internal/limiter/limiter.go:235-243 | a run in which it is not: refused at 0 with a wait of one second after a request that read 10, refused again at 1 |
| `LimiterRecord.AdmittedOnceReady` | internal/limiter/limiter.go:225-246 | after a refusal for speed the next request is admitted exactly from the moment a whole token is there |
| `LimiterRecord.PacedIsAdmitted` | internal/limiter/limiter.go:225-246 | over every run, with releases, sweeps, evictions and forgets anywhere, a client whose requests are a token's time apart is never told it is too fast |
| `LimiterRecord.ActiveCountsOpen` | internal/limiter/limiter.go:163-206 | without Forget a record's count equals its admitted requests not yet released; with it, 0 <= count <= that number |
| `LimiterRecord.NeverOverMaxConcurrent` | internal/limiter/limiter.go:212-215 | the count never passes a positive MaxConcurrent, nor, without Forget, do the requests in flight |
| `LimiterRecord.SlotsRefuseExactly` | internal/limiter/limiter.go:212-219 | without Forget a request is refused for its slots exactly when as many of the client's are in flight as a positive MaxConcurrent allows, and without a rate for no other reason |
| `LimiterRecord.InFlightIsKept` | internal/limiter/limiter.go:267-311 | without Forget neither a sweep nor an eviction touches a record with requests in flight |
| `LimiterRecord.DoubleReleaseIsNothing` | internal/limiter/limiter.go:196-206 | a second release changes nothing |
| `LimiterRecord.ForgetUndercounts` | internal/limiter/limiter.go:196-206 | with Forget the count can be below the requests in flight: a concrete run |
| `LimiterRecord.CountsExactly` | internal/limiter/limiter.go:196-206 | the count equals the requests in flight at every point of a run exactly when every Forget in it finds none in flight |
| `LimiterSweep.SweepsInvisible` | internal/limiter/limiter.go:299-311 | with fixed rules and readings at most s out of order, sweeps anywhere change no answer when the larger of burst and rate is at most what the rate earns in ten minutes less 2s |
| `LimiterSweep.LargeBurstSeesSweep` | internal/limiter/limiter.go:60-63 | with a larger burst, which validation permits, some run with such readings answers differently with a sweep in it |
| `LimiterSweep.SweepsInvisibleExactly` | internal/limiter/limiter.go:60-63 | sweeps are invisible to every run with readings at most s out of order exactly when rate <= 0 or the larger of burst and rate is at most rate * (600 - 2s) |
| `Limiter.Shard.EvictOldest` | internal/limiter/limiter.go:267-284 | scanning in any order, removes an idle record no idle record was seen before, or nothing when none is idle |
| `Limiter.Shard.Acquire` | internal/limiter/limiter.go:163-194 | makes room only for a new client of a full table, judges, and takes a slot exactly when it admits; a request without an address is let through unrecorded |
| `Limiter.Shard.Release` | internal/limiter/limiter.go:196-206 | gives one slot back, the first time only and never below zero |
| `Limiter.Shard.SweepOnce` | internal/limiter/limiter.go:299-311 | removes exactly the records with nothing in flight last seen more than ten minutes ago |
| `Limiter.Shard.Forget` | internal/limiter/limiter.go:316-327 | removes exactly the host's records |
| `Limiter.StepIsAcquire` | internal/limiter/limiter.go:163-194 | a request's step in the runs of the shard is what Acquire does to the table |
| `Limiter.ClientsAreIndependent` | internal/limiter/limiter.go:163-327 | over every run of the shard each client's record goes through exactly its own events, evictions included |
| `Limiter.SlotsAreCounted` | internal/limiter/limiter.go:163-327 | over every run of the shard without Forget each client's count is its admitted requests not yet released; with Forget it can only be too low |
| `Limiter.InFlightIsLimited` | internal/limiter/limiter.go:163-215 | no run without Forget has more than a positive MaxConcurrent of one client's requests in flight |
| `Limiter.RoomySweepsInvisible` | internal/limiter/limiter.go:299-311 | in a shard with room for all its clients, leaving the sweeps out changes no answer to a client whose own host's bucket refills in time, whatever the other hosts' rules |
| `LimiterEviction.ShardSweepsInvisible` | internal/limiter/limiter.go:267-311 | over every run of a shard, with every eviction one that a scan in some order makes, there is a run of the same requests without sweeps that gives every client the same answers, when all buckets refill in time and the table does not outgrow its cap |
| `LimiterEviction.FitsToo` | internal/limiter/limiter.go:174-181 | whatever the two evict, an unswept table outgrows the cap only if the swept one does |
| `LimiterEviction.FewInFlightFits` | internal/limiter/limiter.go:174-181 | a table outgrows its cap only when more clients than that are in flight at once, whatever is forgotten |
| `LimiterOverflow.OverflowSeesSweep` | internal/limiter/limiter.go:267-284 | with one client more in flight than the cap some run has its sweep seen: no run of the same requests without it answers alike, whatever it evicts |
| `LimiterOverflow.SweepsInvisibleUpToExactly` | internal/limiter/limiter.go:267-311 | sweeps show in no run of at most n clients in flight at once exactly when n is at most the cap of a shard |
| `LimiterShardRate.StandsForExactly` | internal/limiter/limiter.go:163-284 | for rules that refill in time, the larger of burst and rate, plus rate*d, bounds every client and window of every run of at most n clients, sweeps included, exactly when n is at most 16384 |
| `LimiterShardRate.GrantsAreOwn` | internal/limiter/limiter.go:163-194 | what a client is granted in the shard is what its own events, evictions included, grant it |
| `DomainIndex.Build` | internal/proxy/routing.go:118-139 | the two maps send each exact name and each wildcard parent to the last enabled entry that has it |
| `DomainIndex.File` | internal/certmgr/manager.go:252-274 | one entry's domains are filed under it, over earlier ones; an entry that is not let in adds nothing |
| `DomainIndex.ExactCovers` | internal/domain/redirect.go:354-367 | for every raw name the scan matches exactly an exact domain or a wildcard over the name's parent |
| `DomainIndex.LookupIsScan` | internal/proxy/routing.go:203-217 | for every raw name, lookup finds something exactly when the name is not empty and a linear scan with MatchesDomain would, what it finds matches, exact beats wildcard, and among equals the last entry wins |
| `DomainIndex.CertificateLookupExactly` | internal/certmgr/manager.go:280-294 | certificate lookup of a raw server name agrees with MatchesDomain in every table exactly when the name has no space around it and is neither empty nor a dot |
| `DomainIndex.HeaderLookupExactly` | internal/proxy/routing.go:231-253 | host lookup of a raw header agrees with MatchesDomain in every table exactly when it has no space, brackets or port to strip and is neither empty nor a dot |
| `DomainIndex.HeaderNames` | internal/proxy/routing.go:231-253 | a name without colon or bracket, with or without a port, with or without space around it, names itself |
| `DomainIndex.BracketsName` | internal/proxy/routing.go:237-242 | a bracketed address, with or without a port, names the address |
| `DomainIndex.OnlyPortsGo` | internal/proxy/routing.go:243-249 | nothing but a colon with one digit or more to the end is taken for a port |
| `DomainIndex.UnclosedStays` | internal/proxy/routing.go:237-242 | a bracket that is not closed stays |
| `DomainIndex.CaseDoesNotMatter` | internal/proxy/routing.go:231-253 | two Host headers that differ only in case go the same way, whatever the tables |
| `DomainIndex.TrailingDotDoesNotMatter` | internal/proxy/routing.go:252 | so do a name and the same name with one dot after it, with a port or without |
| `DomainIndex.WildcardCoversOneLabel` | internal/domain/certificate.go:239-246 | a wildcard covers its parent with one label in front |
| `DomainIndex.WildcardCoversOnlyThat` | internal/domain/certificate.go:239-246 | and nothing else |
| `DomainIndex.HostReachedUnlessRedirected` | internal/proxy/handler.go:53-63 | a Host header with its own host reaches it exactly when it names something and no enabled redirect covers the name, even by wildcard |
| `Locations.Normalize` | internal/domain/location.go:76-89 | the path becomes rooted and loses exactly its surrounding space and trailing slashes; it is unchanged exactly when canonical and without space around it |
| `Locations.MatchesWholeSegments` | internal/domain/location.go:49-58 | the root matches every path, another location exactly the paths whose leading segments are its own |
| `Locations.SortedSorts` | internal/proxy/routing.go:105-110 | sorting orders the locations longest path first and keeps them all |
| `Locations.Pick` | internal/proxy/routing.go:42-49 | the first location that matches, or none when none does |
| `Locations.Route` | internal/proxy/routing.go:42-49 | for distinct canonical paths in any order, sorting then first match gives the unique longest match, or none exactly when none matches |
| `Locations.ForwardRebuilds` | internal/domain/location.go:61-73 | without stripping, and from the root, the path goes out as it came; with it, prefix plus forwarded path rebuilds the original, except that an empty remainder went out as "/" |
| `ShareWindow.Ring.Push` | internal/metrics/share.go:68-90 | the ring moves by one reading; the first only sets a baseline; the running sum stays the sum of the buckets and never underflows |
| `ShareWindow.Ring.Idle` | internal/metrics/share.go:96-101 | the ring moves by one empty bucket with the same sum invariant |
| `ShareWindow.WindowIsLastDeltas` | internal/metrics/share.go:68-101 | after any readings and misses the window holds exactly the deltas of the last thirty ticks |
| `ShareWindow.WindowSinceTakenUp` | internal/metrics/share.go:107-139 | at every moment of any run of ticks, with forgetting, the window of a backend holds exactly the deltas of the last thirty ticks since it was last taken up |
| `ShareWindow.DeltasTelescope` | internal/metrics/share.go:68-90 | while totals only grow, all deltas add up to the last reading minus the first |
| `ShareWindow.DeltasOverResets` | internal/metrics/share.go:68-90 | over totals that may start again from zero, all deltas add up to the last reading minus the first and what had been counted before each new start |
| `ShareWindow.ForgottenExactly` | internal/metrics/share.go:126-138 | a backend is forgotten after n misses exactly when n >= 3 and every delta has slid out by then |
| `ShareWindow.ForgottenWithinWindow` | internal/metrics/share.go:126-138 | thirty misses always forget it |
| `ShareWindow.Collector.SampleShares` | internal/metrics/share.go:107-139 | one tick over all pools moves each backend's window by its own readings alone, in order, and idles or forgets the unseen |
| `LoginLimiter.Limiter.Allow` | internal/api/ratelimit.go:58-76 | refuses exactly while blocked, with a wait after which it no longer is; drops an entry whose block ran out; touches no other source |
| `LoginLimiter.Limiter.RecordFailure` | internal/api/ratelimit.go:79-95 | starts a window or counts in it, and blocks at the burst; touches no other source |
| `LoginLimiter.Limiter.RecordSuccess` | internal/api/ratelimit.go:98-102 | forgets the source |
| `LoginLimiter.Limiter.Sweep` | internal/api/ratelimit.go:106-118 | leaves exactly the entries still blocked or begun at most fifteen minutes ago |
| `LoginLimiter.SweepsInvisible` | internal/api/ratelimit.go:104-118 | with a clock that does not go back, sweeps anywhere change no answer of Allow |
| `LoginLimiter.AttackGroups` | internal/api/ratelimit.go:58-95 | the limiter's windows are the groups read off the failure times alone: a failure begins one when the group before is full or began more than a window earlier |
| `LoginLimiter.BlockedExactly` | internal/api/ratelimit.go:58-95 | after any sequential wrong attempts a source is refused exactly while the last group of its failure times is full and its last failure is less than a block ago |
| `LoginLimiter.FailuresPerWindow` | internal/api/ratelimit.go:58-95 | over any sequential wrong attempts at most 8 failures are recorded in any half-open 15-minute interval |
| `LoginRuns.FailuresBounded` | internal/api/ratelimit.go:58-118 | with at most p attempts in progress at once, sweeps anywhere, time that does not go back and no success, no half-open 15-minute interval records more than 2 * p + 6 failures |
| `LoginRuns.MostIsAttained` | internal/api/ratelimit.go:58-95 | for every p some run records exactly that many, eight for attempts one at a time |
| `AccessCache.AllowsAddress` | internal/domain/accesslist.go:158-196 | the loop with its early returns decides a property of the rules as an unordered collection: all readable, no deny covering, and no allow rule or some rule covering |
| `AccessCache.AddressOkExactly` | internal/domain/accesslist.go:158-196 | an address passes no rules at all, or rules all readable of which no deny covers it and, if any allows, some rule covers it |
| `AccessCache.CoversExactly` | internal/domain/accesslist.go:175-190 | a prefix covers the addresses of its family, without a zone, that share its leading bits |
| `AccessCache.PasswordIsFirst` | internal/domain/accesslist.go:198-219 | a password is accepted exactly when it passes the hash of the first user of that name |
| `AccessCache.DecidesExactly` | internal/domain/accesslist.go:127-155 | satisfy any grants a passing address or a proven user; satisfy all grants a passing address with, where the list has users, a proven user; else the request is refused when its address fails and no user could help, and asked for credentials otherwise |
| `AccessCache.AuthCache.Granted` | internal/proxy/authcache.go:67-80 | granted exactly while an entry is unexpired; an expired one is dropped |
| `AccessCache.AuthCache.Remember` | internal/proxy/authcache.go:83-96 | a full cache sheds expired entries, or everything, before the new one goes in |
| `AccessCache.AuthCache.EvictExpired` | internal/proxy/authcache.go:98-104 | removes exactly the expired entries |
| `AccessCache.AuthCache.Consult` | internal/proxy/access.go:25-31 | the first locked step: a hit exactly for an unexpired entry of this list version and credential; an expired one is dropped |
| `AccessCache.AuthCache.Finish` | internal/proxy/access.go:33-45 | the decision, by address, users, mode and the first user's password, with a hit standing in for a checked password, and the second locked step: a grant without a hit is remembered |
| `AccessCache.CacheIsBounded` | internal/proxy/authcache.go:83-96 | after every interleaving of requests the cache holds at most 4096 entries |
| `AccessCache.ConsultKeepsTheRest` | internal/proxy/authcache.go:67-80 | consulting gives up at most the request's own entry, once it has expired |
| `AccessCache.UnexpiredSurvive` | internal/proxy/authcache.go:83-104 | no unexpired entry is given up for a new one unless 4096 of them are unexpired |
| `AccessCache.RememberedForThirty` | internal/proxy/authcache.go:67-96 | what was just remembered is granted for thirty seconds and no longer |
| `AccessCache.HitWasEarned` | internal/proxy/access.go:25-37 | a hit means a request that finished at most thirty seconds before had the same user and password checked, without a hit of its own, for the same users |
| `AccessCache.CachedIsUncached` | internal/proxy/access.go:25-45 | in every interleaving of requests and edits with distinct versions and an injective digest, each decision is EvaluateAccess's own, as long as no remembered grant was earned by address alone |
| `AccessCache.LetInExactly` | internal/proxy/access.go:25-45 | so in every such interleaving a request is let in exactly when its address and the first user's password say so, hit or no hit |
| `AccessCache.DeniedAddressIsRefused` | internal/domain/accesslist.go:140-143 | under a satisfy-all list no interleaving lets in an address its rules do not pass, with a hit or without |
| `AccessCache.SatisfyAllAgrees` | internal/domain/accesslist.go:127-155 | in particular in every interleaving on satisfy-all lists |
| `AccessCache.MixedDisagrees` | internal/proxy/access.go:39-43 | under a satisfy-any list with users that admits some addresses and not others, an unknown user is remembered from an admitted address and then let in from a refused one |
| `AccessCache.AgreesExactly` | internal/proxy/access.go:25-45 | the cache changes no decision in any interleaving under a list exactly when the list is not such a mixed one |

## Left out

- LimiterRate.WindowBound: speaks of a record that is kept; LimiterShardRate.StandsForExactly says when a shard keeps it. Forget gives its clients full buckets.
- LimiterEviction.ShardSweepsInvisible: for one clock that does not go back; skew is in LimiterSweep, for one client.
- ShareWindow.WindowSinceTakenUp: takes at most one reading per tick; a location that reuses a host upstream's address pushes twice, which only ShareWindow.Collector.SampleShares covers. The collector's windows are values here, the ring in place being ShareWindow.Ring.
- Reload.ReloadsAreInvisible: events reach the current table; a request still in flight on a replaced backend reports to the old one, and that result is lost in the program too.
- Forward.Run: one request on its own, with the pool's own algorithm; requests side by side are in ForwardRuns, where the pick is any eligible backend.
- ForwardRuns.SlotsBalance: proxied calls return normally; a panic out of the reverse proxy leaks its slot. No limit on concurrent connections is claimed, because picking and taking a slot are separate steps.
- Balancer.SelectByClient: scores are reals, so rounding in float64, where the largest hash can even score minus infinity, is not modelled.
- DomainIndex.LookupIsScan: lower-casing is ASCII only.
- LoginLimiter.FailuresPerWindow: attempts are sequential; LoginRuns.FailuresBounded has several at once.
- ForwardRuns.RequestsAreSound: a report is one step; what overlapping reports teach is in HealthOverlap, and the claims here hold for anything learned.
- Integer width: counters that wrap at 64 bits, durations near their limits.
- Cache statistics counters, the per-host store of caches, conditional (304) answers, header parsing (Cache-Control, Vary, Accept-Encoding) and the path selection of the cache.
- 1xx responses, write errors and downstream flushes in the writers; gzip itself.
- The health checker's own probing, alerts, access logs, metrics flushing, header rules, the request inspector, the admin API, storage, backups, ACME and TLS: they move data in and out, render it, or match it against fixed tables, and reach the state modelled here only through events the model takes from anywhere.
