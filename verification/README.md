# JustAPI: a Dafny model of its stateful core

JustAPI is a Rust web framework. This project models ten of its components, one module per
source file, and proves what each promises over all inputs, all runs or all interleavings.

| module | component | what is proved |
|---|---|---|
| `XmlToJson` | XML to JSON converter | the event-stack machine computes a recursive meaning of the element tree |
| `Coalescer` | request coalescing | safety, agreement of waiters and the exact condition under which a waiter can be answered, over every interleaving |
| `RateLimit` | GCRA rate limiter | it refines a token bucket; key expiry is invisible; a run is admitted whole exactly when every window fits; exactness of the retry hint |
| `CircuitBreaker`, `RetryDelay` | circuit breaker, retry delay | opening and closing conditions over all runs with late and missing completions |
| `Supervisor` | prefork supervisor | slot and wait bookkeeping, restarts, scaling, drain, and the size of the fleet with and without a policy |
| `ChunkFraming`, `ChunkedDecoder` | chunked body decoder | round trip for every list of chunks, independence of the split, exactly which truncated bodies are accepted and when it panics |
| `ClientNaming` | generated client method names | one name per operation, unique over every document |
| `RouteCache`, `RouteTables`, `ClonedRouters` | router, its lookup cache, and clones that share it | a look-up answers from the first registrations; the cached answer agrees with the slow path, and exactly when it does not, over every run of any number of routers |
| `LatencyHistogram` | latency histogram | the buckets summarise the multiset of samples, percentiles are least covering bounds |
| `Batcher` | adaptive batcher | conservation and order of requests, positional replies, and a bound on the steps to a reply |

Pure code is modelled as functions. Code that updates state in place is modelled as classes and
methods with loops, each proved equal to a function on values; the theorems are about those
functions. Protocols are step functions over events, and a theorem about "every run" ranges over
every sequence of events. `Prelude` holds the shared option type, minimum and maximum, and string
trimming.

`dafny verify dfyconfig.toml` checks everything. Automatic induction is switched off on every
lemma: the hypothesis Dafny 4.11 generates can contradict itself when a precondition takes apart
the elements of a sequence, and a false lemma then needs no proof.

## Findings

Places where the code does something other than its comments say. The model follows the code.

- XML: text in front of a Start/End child is thrown away, text in front of a self-closed child is
  not, so all of it is kept exactly when none stands before a Start/End child (`TextKeptExactly`); a
  self-closed document root is reported as incomplete (`RunDocument`). An element whose only children
  are tagged `#text` can itself become an array (`ArrayValued`).
- Coalescer: the "re-run as a leader" fallback of a waiter cannot be reached, because the waiter
  holds a sender itself (`RerunUnreachable`). A leader cancelled while its handler runs leaves its
  key dead for ever (`CancelledLeaderKillsKey`), and a request that looks a channel up before and
  subscribes after the value is sent is never woken (`LostWakeUp`); `WaiterDichotomy` is exact. The
  comments speak of the full snapshot, but a leader's client that disconnects has the part it received
  shared with every waiter as a success (`PublishedWholeExactly`, `TruncatedSuccess`).
- Supervisor: with no policy the comments intend a fixed fleet, but the default policy of one to
  four workers takes over and the zero load shrinks the fleet to one (`NoPolicyFixedExactly`). Under
  any policy the size is fixed exactly when its range is empty or its step zero (`FixedExactly`).
- Breaker: an episode can close the breaker exactly when the success threshold is at most
  `half_open_max_requests + 1` plus the requests in flight when it begins, whose late successes count
  (`ClosableExactly`, `LateSuccessCounts`). A half-open breaker whose probes are used up with none in
  flight rejects everything for ever (`StuckExactly`). With every request reporting back that can
  happen exactly if the threshold is above `half_open_max_requests + 1` (`StuckReachableExactly`,
  `StuckExample`); if requests may vanish, under every configuration (`VanishedProbesStick`).
- Retry delay: jitter is added after the cap; `JitterPassesCap` says exactly when it can exceed it.
- Rate limiter: in a release build a burst beyond 64 bits wraps, and may then refuse everybody for ever
  (`WrappedBurstRefusesAll`).
- Chunked decoder: it does not ask for the zero chunk. `AcceptsExactly` says which inputs are taken
  for complete, and `TruncatedBody` which cuts of a well-formed body go unnoticed. A huge size makes
  the index arithmetic panic (`PanicsExactly`, `HugeSizePanics`).
- Router: a remembered miss hides a route registered later (`StaleMiss`, `StaleExactly`). A cloned
  router shares its cache with the original: a resolve is wrong exactly when some earlier look-up of
  the key, by any of the routers, entered an answer its own tables contradict and the key has stayed
  cached (`SharedCacheExactly`, `CloneHidesRoute`).
- Metrics: the snapshot's comment announces cumulative buckets with a last entry for infinity; the
  code keeps plain per-bucket counts and no such entry. They coincide only if no sample is at most
  the last bound but one (`CumulativeExactly`, `OneSampleNotCumulative`).

## Model

| member | source | states |
|---|---|---|
| `XmlToJson.RunElement` | crates/justapi-core/src/xml.rs:131-209 | for any stack, pending text and later events, consuming the events of one element subtree is one `insert_child` of its recursive meaning on the frame below, or the converted document if the stack was empty |
| `XmlToJson.RunNode` | crates/justapi-core/src/xml.rs:132-210 | the same for any child node, with the pending text kept or dropped as the node demands |
| `XmlToJson.RunBody` | crates/justapi-core/src/xml.rs:131-209 | reading a whole body folds exactly its children into the open frame and leaves the text after the last Start/End child pending |
| `XmlToJson.GroupedSnoc` | crates/justapi-core/src/xml.rs:244-273 | `insert_child` of one more child equals grouping all children by tag with it included, so repeated tags become arrays in document order |
| `XmlToJson.RunDocument` | crates/justapi-core/src/xml.rs:107-226 | for every sequence of top-level nodes the machine returns what a recursive reading of the document says: the first element under its tag, incomplete for a self-closed first element, else the bare text or null |
| `XmlToJson.RootConverts` | crates/justapi-core/src/xml.rs:107-209 | a Start/End root converts to `{tag: meaning}` whatever prolog precedes it and whatever events follow |
| `XmlToJson.OpenStaysOpen` | crates/justapi-core/src/xml.rs:244-256 | once a frame is open, balanced content never closes it and the end of input is an incomplete document |
| `XmlToJson.TextKeptExactly` | crates/justapi-core/src/xml.rs:132-165 | the text an element keeps is all the character data of its body if and only if none stands before a Start/End child |
| `XmlToJson.ArrayValued` | crates/justapi-core/src/xml.rs:180-200 | an element's own value is an array if and only if it has no attributes, no text and only `#text` children that are several or collapse themselves |
| `XmlToJson.LegalNamesNeverArrays` | crates/justapi-core/src/xml.rs:180-200 | with legal XML names no element is array-valued |
| `XmlToJson.ArrayValuedExample` | crates/justapi-core/src/xml.rs:180-200 | a concrete element that is array-valued |
| `XmlToJson.ChildValues` | crates/justapi-core/src/xml.rs:257-272 | under a child tag stands that child's value if it occurs once; otherwise the array of all its children's values in document order, if and only if the first of them is not array-valued |
| `XmlToJson.NeverCloses` | crates/justapi-core/src/xml.rs:211-225 | any events that leave at least one element open at every point end as an incomplete document |
| `XmlToJson.TruncatedIsIncomplete` | crates/justapi-core/src/xml.rs:211-225 | a document cut off anywhere after its first event and before its last is never taken for complete |
| `XmlToJson.AttributeValue` | crates/justapi-core/src/xml.rs:138-153 | on any element or self-closed element, the last attribute of a name stands under `@name` with its own coerced value, unless a child is tagged so |
| `XmlToJson.AtKeysExactly` | crates/justapi-core/src/xml.rs:138-200 | the keys that start with `@` are exactly those of the attributes and of the children so tagged, except where the element is replaced by its `#text` children |
| `XmlToJson.TakesTextValue` | crates/justapi-core/src/xml.rs:180-200 | and in that case, no attributes, no text and only `#text` children, the element is the merge of their values |
| `XmlToJson.TextOnly` | crates/justapi-core/src/xml.rs:173-200 | an element with neither attributes nor children is its text, trimmed and coerced, or null |
| `XmlToJson.SelfClosedNull` | crates/justapi-core/src/xml.rs:145-159 | a self-closed element without attributes is null |
| `XmlToJson.TextField` | crates/justapi-core/src/xml.rs:173-200 | with an attribute or a child of another tag, the text it keeps stands trimmed and coerced under `#text` |
| `Prelude.TrimCuts` | crates/justapi-core/src/xml.rs:122-128 | trimming cuts white space off both ends, all of it and nothing else |
| `Prelude.WhitespaceIs` | crates/justapi-core/src/xml.rs:122-128 | what counts as white space: the White_Space characters of Unicode |
| `XmlToJson.BareText` | crates/justapi-core/src/xml.rs:211-225 | a document without elements is its text, trimmed and coerced, or null |
| `XmlToJson.ErrorSurfaces` | crates/justapi-core/src/xml.rs:107-226 | a parse error surfaces wherever it stands while an element is open |
| `XmlToJson.PrologErrors` | crates/justapi-core/src/xml.rs:107-226 | before the root a parse error is reported as one and a stray end tag as unbalanced |
| `XmlToJson.Convert` | crates/justapi-core/src/xml.rs:107-226 | the event loop with its stack and text buffer returns, on the events of any document, that document's meaning |
| `Coalescer.KeysCoincide` | crates/justapi-core/src/coalesce.rs:171-179 | two requests have the same key if and only if they agree on method, URI and every selected header, absence included |
| `Coalescer.RerunUnreachable` | crates/justapi-core/src/coalesce.rs:222-235 | the fallback that re-runs a waiter as leader is never enabled, in any state |
| `Coalescer.InvStep` | crates/justapi-core/src/coalesce.rs:190-272 | every step of the protocol keeps the invariant that ties channels, requests and the in-flight map together |
| `Coalescer.InvRun` | crates/justapi-core/src/coalesce.rs:190-272 | every reachable state satisfies that invariant |
| `Coalescer.OneHandlerPerKey` | crates/justapi-core/src/coalesce.rs:193-210 | in every reachable state a key has at most one running handler, and its channel is the one in the map |
| `Coalescer.InFlightHasLeader` | crates/justapi-core/src/coalesce.rs:193-248 | every key in the map has its leader running, or cancelled while it ran |
| `Coalescer.PublishedIsDelivered` | crates/justapi-core/src/coalesce.rs:97-148 | a channel is sent to at most once, and holds the leader's error or its status, headers and exactly the data delivered to the leader's client: all of it if the stream ended |
| `Coalescer.PublishedWholeExactly` | crates/justapi-core/src/coalesce.rs:85-138 | a published body is the whole handler body if and only if no frame the leader's client had not received carries data |
| `Coalescer.TruncatedSuccess` | crates/justapi-core/src/coalesce.rs:85-138 | a run in which a waiter returns the first of two frames as a success |
| `Coalescer.WaitersAgree` | crates/justapi-core/src/coalesce.rs:222-231 | all waiters that returned from one channel returned the same outcome |
| `Coalescer.AnswerIsHandlers` | crates/justapi-core/src/coalesce.rs:190-272 | in every run, an answered waiter returned the error message of its leader's `HandlerErr` step, or the status, headers and a prefix of the data of its leader's `HandlerOk` step, on its own key |
| `Coalescer.CanAlways` | crates/justapi-core/src/coalesce.rs:190-272 | in every reachable state whoever has not returned may be cancelled, a running handler may return either way and a body be polled or dropped |
| `Coalescer.PendingHasOwner` | crates/justapi-core/src/coalesce.rs:215-272 | a pending channel has a running leader or unpublished fan-out body if and only if its leader was not cancelled and no value sent to it was lost |
| `Coalescer.DoomedForever` | crates/justapi-core/src/coalesce.rs:215-272 | in no continuation is anybody answered on a channel whose leader was cancelled or whose value was lost |
| `Coalescer.WaiterDichotomy` | crates/justapi-core/src/coalesce.rs:215-272 | a waiter can be answered within three steps unless its channel is doomed, and then by no run at all |
| `Coalescer.StuckKeyRun` | crates/justapi-core/src/coalesce.rs:238-248 | a key whose leader was cancelled stays in the map and everybody who arrives on it waits, over every run |
| `Coalescer.CancelledLeaderKillsKey` | crates/justapi-core/src/coalesce.rs:238-248 | if a leader is cancelled while its handler runs, no later request on that key ever completes |
| `Coalescer.OrderlyRunsResolve` | crates/justapi-core/src/coalesce.rs:190-272 | if look-up and subscription are one step and no leader is cancelled, no waiter is ever doomed and no leader is ever missing |
| `Coalescer.OrderlyWaiterHasOwner` | crates/justapi-core/src/coalesce.rs:190-272 | in such runs every waiter on a pending channel has a live owner of that channel |
| `Coalescer.OrderlyFlightHasLeader` | crates/justapi-core/src/coalesce.rs:193-248 | in such runs every key in the map has exactly one leader and its handler is running |
| `Coalescer.LostWakeUp` | crates/justapi-core/src/coalesce.rs:195-222 | a four-step run without cancellation after which a waiter is never answered |
| `Coalescer.Watch.Send` | crates/justapi-core/src/coalesce.rs:141-148 | sending stores the value only if somebody is subscribed |
| `Coalescer.FanoutBody.PollFrame` | crates/justapi-core/src/coalesce.rs:101-123 | forwards the next frame and accumulates its data, or publishes the accumulated body once at the end |
| `Coalescer.FanoutBody.Drop` | crates/justapi-core/src/coalesce.rs:130-138 | publishes what was delivered so far, unless already published |
| `RateLimit.Configured` | crates/justapi-core/src/rate_limit.rs:69-80 | zero rate is refused; otherwise `rate*t <= 10^6 < rate*(t+1)`, `t` is zero exactly above 10^6 per second, and `tau` is `t*capacity` exactly when that fits 64 bits |
| `RateLimit.ExpiryIrrelevant` | crates/justapi-core/src/rate_limit.rs:30-52 | over every run, key expiry by the computed time to live changes no reply and no stored value, and a key outlives its TAT by less than a second |
| `RateLimit.KeysExpire` | crates/justapi-core/src/rate_limit.rs:44-52 | an admitted request leaves a key that expires at or after its TAT and within a second of it, except at a TAT of the present, which is kept for good |
| `RateLimit.ReadUntilExpiry` | crates/justapi-core/src/rate_limit.rs:30-37 | a stored TAT is read until its expiry and not from then on |
| `RateLimit.TimelessIsBucket` | crates/justapi-core/src/rate_limit.rs:37-52 | from any stored TAT the limiter answers as a token bucket whose level is `tau` minus the outstanding debt |
| `RateLimit.RefinesTokenBucket` | crates/justapi-core/src/rate_limit.rs:30-52 | over every run with a non-decreasing clock all replies, retry hints included, are those of a bucket capped at `tau` and refilled one per microsecond, from which a request takes its cost, `t` per token |
| `RateLimit.TatClimbs` | crates/justapi-core/src/rate_limit.rs:37-52 | admissions raise the TAT by at least their cost and leave it within `tau` of the clock |
| `RateLimit.WindowBound` | crates/justapi-core/src/rate_limit.rs:37-52 | over every window of every run, the cost admitted, `t` per token, is at most `tau` plus the time the window spans |
| `RateLimit.WindowTokens` | crates/justapi-core/src/rate_limit.rs:37-52 | with `t > 0` no window admits more than `capacity + elapsed / t` tokens |
| `RateLimit.ServedExactly` | crates/justapi-core/src/rate_limit.rs:37-52 | over every run with a non-decreasing clock, all requests are admitted if and only if every window costs at most `tau` plus the time it spans: the converse of `RateLimit.WindowBound` |
| `RateLimit.ConfiguredRateIsServed` | crates/justapi-core/src/rate_limit.rs:37-80 | a caller whose every window stays within the capacity plus the configured rate times the time it spans, bursts included, is never refused, despite the truncation in `t` |
| `RateLimit.OversizedNeverAdmitted` | crates/justapi-core/src/rate_limit.rs:37-43 | a request that costs more than `tau` is refused in every run from every stored TAT |
| `RateLimit.OverCapacityNeverAdmitted` | crates/justapi-core/src/rate_limit.rs:37-43 | with `t > 0` a request for more tokens than the capacity is never admitted, in any run |
| `RateLimit.WrappedBurstRefusesAll` | crates/justapi-core/src/rate_limit.rs:69-80 | at one token a second the smallest capacity whose burst leaves 64 bits wraps to less than one token: no request for any token is admitted in any run |
| `RateLimit.FastRatesAdmitAll` | crates/justapi-core/src/rate_limit.rs:78-80 | rates above 10^6 per second admit everything |
| `RateLimit.RetryHint` | crates/justapi-core/src/rate_limit.rs:40-43 | repeated against the same stored TAT, a refused request is admitted from the hint on if it fits the burst, and refused up to one millisecond before it |
| `RateLimit.RetryHintIsExact` | crates/justapi-core/src/rate_limit.rs:30-52 | the same within whole runs, with any refused requests in between |
| `RateLimit.RateLimitKey.Check` | crates/justapi-core/src/rate_limit.rs:30-53 | the script's reads and writes of the stored TAT and its expiry |
| `CircuitBreaker.InvRun` | crates/justapi-core/src/resilience.rs:73-133 | in every reachable state the failure count is the run of failures recorded last, and every counter is below its configured limit |
| `CircuitBreaker.OpensExactly` | crates/justapi-core/src/resilience.rs:116-126 | in every run, a closed breaker opens if and only if a failure is reported and the last `failure_threshold` (at least one) outcomes since it closed are all failures |
| `CircuitBreaker.OpenAdmitsNothing` | crates/justapi-core/src/resilience.rs:73-87 | from any opening nothing is admitted, and no late completion moves the opening, until `open_timeout` has elapsed |
| `CircuitBreaker.OpensNow` | crates/justapi-core/src/resilience.rs:116-132 | in every run only a failure opens the breaker, it opens at that failure's own time, every failure while half-open does, and an open breaker keeps its opening time |
| `CircuitBreaker.RejectsForTimeout` | crates/justapi-core/src/resilience.rs:73-132 | after a failure at `now` that opened it, no run of attempts earlier than `now + open_timeout` admits anything, and an attempt after it is admitted if and only if it comes at or after that time |
| `CircuitBreaker.EpisodeCounts` | crates/justapi-core/src/resilience.rs:77-114 | during a half-open episode the used slots, successes and requests in flight are exactly those of its events |
| `CircuitBreaker.EpisodeAdmissions` | crates/justapi-core/src/resilience.rs:77-95 | a half-open episode admits at most `half_open_max_requests + 1` requests |
| `CircuitBreaker.ClosesOnThreshold` | crates/justapi-core/src/resilience.rs:98-108 | without a failure the breaker has closed by the `success_threshold`-th success |
| `CircuitBreaker.FlightBalance` | crates/justapi-core/src/resilience.rs:147-167 | requests in flight are those admitted minus those that succeeded or vanished |
| `CircuitBreaker.AllProbesSucceed` | crates/justapi-core/src/resilience.rs:73-114 | if the threshold is at most `half_open_max_requests + 1` plus the requests carried over, an episode that admits all its probes and sees everything in flight succeed closes the breaker |
| `CircuitBreaker.UnreachableThreshold` | crates/justapi-core/src/resilience.rs:73-114 | if the threshold is above that, no step of the episode closes the breaker |
| `CircuitBreaker.ClosableExactly` | crates/justapi-core/src/resilience.rs:73-114 | some continuation of an episode closes the breaker if and only if the threshold (at least one) is at most `half_open_max_requests + 1` plus the requests carried over |
| `CircuitBreaker.LateSuccessCounts` | crates/justapi-core/src/resilience.rs:98-108 | a reachable state in which one probe and one late success meet a threshold of two |
| `CircuitBreaker.StuckForever` | crates/justapi-core/src/resilience.rs:88-95 | a half-open breaker with its probes used up and none in flight admits nothing in any continuation |
| `CircuitBreaker.StuckExactly` | crates/justapi-core/src/resilience.rs:88-133 | a half-open breaker is absorbing if and only if it is in that state; otherwise two events end the episode |
| `CircuitBreaker.StuckReachableExactly` | crates/justapi-core/src/resilience.rs:73-133 | some run from the start in which no request vanishes ends in that state if and only if `success_threshold > half_open_max_requests + 1` |
| `CircuitBreaker.VanishedProbesStick` | crates/justapi-core/src/resilience.rs:73-133 | if requests may be dropped without reporting, every configuration has such a run |
| `CircuitBreaker.StuckExample` | crates/justapi-core/src/resilience.rs:73-133 | a run of four events that ends there |
| `CircuitBreaker.Guard.TryAcquire` | crates/justapi-core/src/resilience.rs:73-96 | admission and the state change it makes |
| `CircuitBreaker.Guard.RecordSuccess` | crates/justapi-core/src/resilience.rs:98-114 | the state after a success |
| `CircuitBreaker.Guard.RecordFailure` | crates/justapi-core/src/resilience.rs:116-132 | the state after a failure, which `CircuitBreaker.OpensNow` and `CircuitBreaker.OpensExactly` describe |
| `RetryDelay.DelaysGrow` | crates/justapi-core/src/resilience.rs:301-305 | before jitter, later attempts never wait less and none exceeds the cap, saturation included |
| `RetryDelay.JitterBounds` | crates/justapi-core/src/resilience.rs:306-313 | jitter adds less than a fifth and subtracts nothing |
| `RetryDelay.DrawsExactly` | crates/justapi-core/src/resilience.rs:306-313 | the jittered delays some draw produces are exactly those from the capped delay up to, but not including, a fifth more |
| `RetryDelay.NoJitter` | crates/justapi-core/src/resilience.rs:306-313 | without jitter every draw gives the capped delay |
| `RetryDelay.JitterPassesCap` | crates/justapi-core/src/resilience.rs:306-310 | for every attempt, every jittered delay stays within the cap if and only if the jitter range is at most one or the largest draw still fits under the cap |
| `RetryDelay.JitterAtCap` | crates/justapi-core/src/resilience.rs:306-310 | at the cap that means a cap below ten milliseconds |
| `RetryDelay.DoublingExactly` | crates/justapi-core/src/resilience.rs:302-305 | the delay is `min(base * 2^n, cap)` for every attempt if and only if `base` is zero or `cap <= base * (2^32 - 1)` |
| `RetryDelay.SaturatesExactly` | crates/justapi-core/src/resilience.rs:301-305 | the factor is `2^n` up to attempt 31 and `2^32 - 1` from then on, and the product saturates at `2^64 - 1` |
| `Supervisor.StepOk` | crates/justapi-cli/src/workers.rs:169-288 | every branch of the select loop keeps the table invariant, and none spawns a worker once the drain has begun |
| `Supervisor.InvRun` | crates/justapi-cli/src/workers.rs:169-288 | every reachable state satisfies the invariant |
| `Supervisor.NeverPanics` | crates/justapi-cli/src/workers.rs:221-231 | in no run is `decide_scale` reached with `min > max` or a slot outside the table indexed |
| `Supervisor.SlotsAndWaits` | crates/justapi-cli/src/workers.rs:138-266 | in every running state slots with a worker are exactly those with one outstanding wait, stopping slots are among them, the next free slot is neither, and active workers do not exceed `max(count, max_workers)` |
| `Supervisor.DrainSpawnsNobody` | crates/justapi-cli/src/workers.rs:171-218 | once the drain signal is sent no worker is ever spawned and every worker alive was sent SIGTERM |
| `Supervisor.ReturnsWhenDrained` | crates/justapi-cli/src/workers.rs:269-291 | the supervisor returns Ok only when each worker ever spawned has exited, had its wait fail, was killed and awaited, or was already being scaled down and had been sent SIGTERM |
| `Supervisor.ScaleUpOk` | crates/justapi-cli/src/workers.rs:235-250 | scaling up adds at most `n` workers, exactly `n` if every spawn succeeds, and keeps the table in order |
| `Supervisor.ScaleDownCount` | crates/justapi-cli/src/workers.rs:252-264 | scaling down stops exactly `n` active workers, or all there are |
| `Supervisor.ScaleDownHighest` | crates/justapi-cli/src/workers.rs:252-264 | the workers it stops occupy higher slots than every active worker it keeps |
| `Supervisor.NoPolicyShrinks` | crates/justapi-cli/src/workers.rs:154-167 | without a policy, a quiet fleet of any size loses one worker per due tick down to exactly one |
| `Supervisor.NoPolicyFixedExactly` | crates/justapi-cli/src/workers.rs:154-167 | without a policy the fleet keeps its size in every quiet run if and only if it was started with one worker |
| `Supervisor.FixedWithoutRange` | crates/justapi-cli/src/workers.rs:167-220 | with `max_workers <= min_workers` or a step of zero the fleet keeps its size at any load |
| `Supervisor.FixedExactly` | crates/justapi-cli/src/workers.rs:167-266 | under any policy the fleet keeps its size in every run without failures if and only if that is so |
| `Supervisor.HighLoadGrows` | crates/justapi-cli/src/workers.rs:220-251 | at a due tick with any load at or above `high` and all spawns succeeding, a fleet within its range becomes `min(max, active + step)` |
| `Supervisor.LowLoadShrinks` | crates/justapi-cli/src/workers.rs:220-266 | at a due tick with any load at or below `low` and below `high`, it becomes `max(min, active - step)` |
| `Supervisor.BandHolds` | crates/justapi-cli/src/workers.rs:462-471 | in every run without failures whose ticks all see loads strictly between the thresholds, a fleet within its range keeps its size |
| `Supervisor.DecidesNearest` | crates/justapi-cli/src/workers.rs:462-471 | at any size and load the decision is the nearest size in the range to one step more, one step less or no change |
| `Supervisor.DefaultDecisions` | crates/justapi-cli/src/workers.rs:442-471 | the decisions of the default policy for one to four workers at every load, and its cooldown |
| `Supervisor.CooldownHolds` | crates/justapi-cli/src/workers.rs:227-231 | a tick that is not due changes nothing |
| `Supervisor.RescalingsApart` | crates/justapi-cli/src/workers.rs:220-266 | in every run two successive rescalings are at least `cooldown` apart |
| `Supervisor.FirstTickDue` | crates/justapi-cli/src/workers.rs:154-167 | the first tick may rescale at once, unless the clock cannot be set back by the cooldown |
| `Supervisor.RestartsExactly` | crates/justapi-cli/src/workers.rs:171-207 | an exited worker is replaced in its own slot if and only if it was not being scaled down, its wait succeeded and no shutdown was asked for; a failed replacement ends the supervisor with an error; no other slot changes |
| `Supervisor.SignalDrains` | crates/justapi-cli/src/workers.rs:208-218 | a signal or a cancelled token asks for a shutdown; seeing it sends SIGTERM to everyone alive, sets the deadline at `now + drain_timeout` and changes no slot |
| `Supervisor.KillsAtDeadline` | crates/justapi-cli/src/workers.rs:208-288 | in every run, nobody is sent SIGKILL before `drain_timeout` after the shutdown was seen; it goes to everyone alive, and the supervisor returns |
| `Supervisor.DeadlineReturns` | crates/justapi-cli/src/workers.rs:269-288 | any branch that reaches the check past the deadline returns |
| `Supervisor.StoppingExitContinues` | crates/justapi-cli/src/workers.rs:171-185 | the exit of a scaled-down worker does not, even past the deadline |
| `Supervisor.DrainedReturns` | crates/justapi-cli/src/workers.rs:269-280 | once every worker left is being scaled down, the next check returns and kills nobody |
| `Supervisor.NoChildrenReturns` | crates/justapi-cli/src/workers.rs:171-207 | with nobody to wait for it returns if a shutdown was asked for and goes on looping otherwise |
| `Supervisor.ReturnsOnlyAfterShutdown` | crates/justapi-cli/src/workers.rs:169-291 | it returns Ok only if a shutdown was asked for |
| `Supervisor.ArmedExactly` | crates/justapi-cli/src/workers.rs:220 | the scaling branch is open exactly if the policy has a range and no shutdown was asked for |
| `Supervisor.NextFreeSlot` | crates/justapi-cli/src/workers.rs:336-342 | returns the first free slot, growing the table by one if it is full |
| `Supervisor.CountActive` | crates/justapi-cli/src/workers.rs:222-226 | counts the slots with a worker that is not being scaled down |
| `Supervisor.SpawnWorkers` | crates/justapi-cli/src/workers.rs:233-251 | the spawning loop, stopped by the first failed spawn |
| `Supervisor.StopWorkers` | crates/justapi-cli/src/workers.rs:252-264 | the stopping loop, highest slots first |
| `Supervisor.Scale` | crates/justapi-cli/src/workers.rs:220-266 | one tick: decision, cooldown and the change it makes, which `Supervisor.HighLoadGrows`, `Supervisor.LowLoadShrinks`, `Supervisor.DecidesNearest` and `Supervisor.CooldownHolds` describe |
| `Supervisor.Supervise` | crates/justapi-cli/src/workers.rs:127-291 | the select loop over any sequence of branches taken; an Ok return accounts for every worker |
| `ChunkFraming.DecodesChunks` | crates/justapi-core/src/testing.rs:187-223 | in any body and from any position, reading encoded chunks collects exactly their data and goes on with the bytes after them |
| `ChunkFraming.FramingRoundTrip` | crates/justapi-core/src/testing.rs:187-223 | for any reader of size lines, decoding an encoding returns the concatenated data whatever trails the zero chunk |
| `ChunkFraming.MissingTerminatorAccepted` | crates/justapi-core/src/testing.rs:190-222 | a body that ends after any chunk is accepted as complete |
| `ChunkFraming.AcceptsExactly` | crates/justapi-core/src/testing.rs:187-223 | on any input a body is returned if and only if reading reaches the end of the input or a line that announces zero |
| `ChunkFraming.FailsExactly` | crates/justapi-core/src/testing.rs:187-218 | each error is returned if and only if reading reaches its cause: no line feed, an unreadable size, or less data than announced |
| `ChunkFraming.ReadsBareChunk` | crates/justapi-core/src/testing.rs:190-221 | a bare line feed ends a size line, and one byte is skipped after data that no CRLF follows |
| `ChunkFraming.TruncationExactly` | crates/justapi-core/src/testing.rs:187-223 | the result for an encoding cut at any byte, which is a body if and only if the cut is before everything, at the end of a chunk or up to two bytes before it, or behind the zero chunk's line feed |
| `ChunkFraming.OverflowPanics` | crates/justapi-core/src/testing.rs:214-218 | after any good chunks, a size that overflows the machine word panics |
| `ChunkFraming.PanicsExactly` | crates/justapi-core/src/testing.rs:187-223 | on any input the decoder panics if and only if reading reaches a size whose chunk end overflows |
| `ChunkFraming.OtherwiseNeverPanics` | crates/justapi-core/src/testing.rs:187-223 | it never panics when no size in the body exceeds the word less the body's length |
| `ChunkedDecoder.SizeOfLine` | crates/justapi-core/src/testing.rs:197-210 | a line of hexadecimal digits in any case with any leading zeros and any UTF-8 extension reads as its value |
| `ChunkedDecoder.ParsesExactly` | crates/justapi-core/src/testing.rs:209-210 | a string reads as a size if and only if it is hexadecimal digits, perhaps after one plus sign, whose value fits the word |
| `ChunkedDecoder.CaseIrrelevant` | crates/justapi-core/src/testing.rs:209-210 | lower-casing a string of digits changes neither its being one nor its value |
| `ChunkedDecoder.LeadingZero` | crates/justapi-core/src/testing.rs:209-210 | nor does a leading zero |
| `ChunkedDecoder.SizeOfBareLine` | crates/justapi-core/src/testing.rs:197-210 | a size line without a carriage return reads the same |
| `ChunkedDecoder.SpacedSize` | crates/justapi-core/src/testing.rs:197-210 | white space around the digits is ignored, in any Unicode text |
| `ChunkedDecoder.Utf8Exactly` | crates/justapi-core/src/testing.rs:204-205 | a line is read as a text if and only if it is the UTF-8 form of that text |
| `ChunkedDecoder.RoundTrip` | crates/justapi-core/src/testing.rs:187-223 | for every list of non-empty chunks, `decode_chunked` of their encoding is their concatenation |
| `ChunkedDecoder.TruncatedBody` | crates/justapi-core/src/testing.rs:187-223 | the same for `decode_chunked` and every list of non-empty chunks |
| `ChunkedDecoder.SplitIndependent` | crates/justapi-core/src/testing.rs:187-223 | the result does not depend on how the payload was split |
| `ChunkedDecoder.HexRoundTrip` | crates/justapi-core/src/testing.rs:209-210 | every size has a hexadecimal form that reads back as itself |
| `ChunkedDecoder.CanonicalChunk` | crates/justapi-core/src/testing.rs:187-223 | so any data can be sent as a chunk the round trip covers |
| `ChunkedDecoder.HugeSizePanics` | crates/justapi-core/src/testing.rs:214-215 | a concrete eighteen-byte body that panics |
| `ChunkedDecoder.FindLineEnd` | crates/justapi-core/src/testing.rs:192-196 | finds the first line feed at or after the position |
| `ChunkedDecoder.NextChunk` | crates/justapi-core/src/testing.rs:190-221 | one round of the loop, every index in bounds |
| `ChunkedDecoder.DecodeChunked` | crates/justapi-core/src/testing.rs:187-223 | the decoding loop terminates on any input and returns what the recursive decoder returns |
| `ClientNaming.SanitizeIdent` | crates/justapi-cli/src/gen_client.rs:64-82 | the loop with its `upper` flag computes the squeezed and trimmed identifier |
| `ClientNaming.IdentOk` | crates/justapi-cli/src/gen_client.rs:64-82 | every sanitised name starts and ends with a letter and holds only letters and digits |
| `ClientNaming.IdentIdempotent` | crates/justapi-cli/src/gen_client.rs:64-82 | sanitising twice changes nothing more |
| `ClientNaming.SqueezeGap` | crates/justapi-cli/src/gen_client.rs:64-82 | a character left out starts a new word, which is capitalised |
| `ClientNaming.SqueezeWord` | crates/justapi-cli/src/gen_client.rs:64-82 | a word is kept as it is, or with its first letter capitalised |
| `ClientNaming.IdentCuts` | crates/justapi-cli/src/gen_client.rs:64-82 | trimming takes off only what stands before the first letter and behind the last; without a letter the name is `call` |
| `ClientNaming.CamelCase` | crates/justapi-cli/src/gen_client.rs:64-82 | `list-users` becomes `listUsers` |
| `ClientNaming.BaseNameOk` | crates/justapi-cli/src/gen_client.rs:153-161 | no operation name ends in a digit, with or without an operation id |
| `ClientNaming.CollectNamesOk` | crates/justapi-cli/src/gen_client.rs:107-176 | nor does any name collected from any document |
| `ClientNaming.EveryOperationNamed` | crates/justapi-cli/src/gen_client.rs:107-176 | every operation of every path has its name: its sanitised id, or its method and the sanitised segments of its path |
| `ClientNaming.OneNameEach` | crates/justapi-cli/src/gen_client.rs:107-176 | and there is one name per declared operation |
| `ClientNaming.DeclaredAll` | crates/justapi-cli/src/gen_client.rs:107-176 | where each path item contributes all its operations |
| `ClientNaming.MethodTexts` | crates/justapi-cli/src/gen_client.rs:107-119 | the eight methods by name, in order |
| `ClientNaming.SegmentsSplit` | crates/justapi-cli/src/gen_client.rs:153-161 | a path is cut at its slashes and nowhere else |
| `ClientNaming.NameOfPath` | crates/justapi-cli/src/gen_client.rs:153-161 | without an id, the name of a two-segment path |
| `ClientNaming.UsersAndId` | crates/justapi-cli/src/gen_client.rs:64-82 | so that `GET /users/{id}` is `get_users_Id` |
| `ClientNaming.Deduplicate` | crates/justapi-cli/src/gen_client.rs:178-187 | each name is indexed by the number of earlier names equal to it up to ASCII case |
| `ClientNaming.SameUpToCase` | crates/justapi-cli/src/gen_client.rs:178-187 | clashes ignore the case of ASCII letters and nothing else |
| `ClientNaming.FinalNameIs` | crates/justapi-cli/src/gen_client.rs:178-187 | a name without an earlier clash is kept, any other gets the number of its earlier clashes in decimal behind an underscore |
| `ClientNaming.DecimalInjective` | crates/justapi-cli/src/gen_client.rs:184 | different indices print differently |
| `ClientNaming.DecimalReads` | crates/justapi-cli/src/gen_client.rs:184 | a printed index reads back as itself |
| `ClientNaming.CutUnique` | crates/justapi-cli/src/gen_client.rs:184 | a name with an index can be cut apart in one way only |
| `ClientNaming.IndexedDistinct` | crates/justapi-cli/src/gen_client.rs:178-187 | two indexed names agree up to case only if both name and index do |
| `ClientNaming.FinalNamesDistinct` | crates/justapi-cli/src/gen_client.rs:178-187 | names that do not end in a digit come out pairwise distinct ignoring ASCII case |
| `ClientNaming.MethodNames` | crates/justapi-cli/src/gen_client.rs:107-190 | for every document the method names are pairwise distinct ignoring ASCII case, one per operation in order |
| `ClientNaming.DigitEndingsClash` | crates/justapi-cli/src/gen_client.rs:178-187 | without sanitising, an indexed name can meet an original one |
| `RouteCache.TableMatcherLawful` | crates/justapi-core/src/router.rs:86-92 | the assumptions on the matching library can be met, by tables of static routes with a catch-all |
| `RouteCache.StaticWins` | crates/justapi-core/src/router.rs:86-92 | in those tables a static route wins over the catch-all, whichever was inserted first |
| `RouteCache.StoreOk` | crates/justapi-core/src/router.rs:71-82 | storing keeps the queue a duplicate-free listing of the map's keys within capacity and changes no other entry it keeps |
| `RouteCache.EvictsOldest` | crates/justapi-core/src/router.rs:71-82 | keys are kept in the order they were entered, and a full cache drops the oldest |
| `RouteCache.RemembersExactly` | crates/justapi-core/src/router.rs:181-204 | a look-up without an entry is remembered if and only if it is a parameterless match or `NotFound`, with that answer; otherwise the cache is untouched |
| `RouteCache.ResolveStep` | crates/justapi-core/src/router.rs:181-204 | a resolve disagrees with `raw_resolve` if and only if a miss is cached for a key that now matches; it keeps the cache in shape, its hits fresh and a fresh cache fresh |
| `RouteCache.AddKeepsHits` | crates/justapi-core/src/router.rs:116-128 | adding a route never changes the answer for a path that has a parameterless match |
| `RouteCache.RegisterKeepsHits` | crates/justapi-core/src/router.rs:116-128 | nor does registering one, its HEAD twin included, make a cached hit stale |
| `RouteCache.RunKeepsHits` | crates/justapi-core/src/router.rs:64-204 | over every run of inserts and resolves the cache keeps its shape and its hits stay fresh |
| `RouteCache.OnlyMissesGoStale` | crates/justapi-core/src/router.rs:116-204 | in any run a resolve is wrong if and only if it reports a remembered miss for a path registered since |
| `RouteCache.StaleExactly` | crates/justapi-core/src/router.rs:116-204 | over the run: a resolve is wrong if and only if the key was looked up before it had a route, has stayed in the cache since, and matches by now |
| `RouteCache.EntryOrigin` | crates/justapi-core/src/router.rs:71-82 | a key is cached at the end of a run if and only if some look-up entered it and it was kept since, and its answer is then the one that look-up got |
| `RouteCache.InsertsFirstAgree` | crates/justapi-core/src/router.rs:156-204 | if all inserts precede the first resolve, every resolve equals `raw_resolve`, whatever the matching library does |
| `RouteCache.StaleMiss` | crates/justapi-core/src/router.rs:181-204 | a resolve followed by an insert leaves the new route hidden |
| `RouteTables.AnswersFirstRegistered` | crates/justapi-core/src/router.rs:116-204 | with tables of static routes and a catch-all, in every run whose inserts come first a look-up returns the handler first registered for the method and path, a GET counting for HEAD, a static route before the catch-all; else `MethodNotAllowed` if and only if another method has a route, else `NotFound` |
| `RouteTables.RunMirrors` | crates/justapi-core/src/router.rs:116-128 | along every run of inserts and look-ups the tables hold exactly the first registrations |
| `RouteTables.HeadFollows` | crates/justapi-core/src/router.rs:116-128 | whatever path GET has, HEAD has a route for too |
| `RouteTables.WrongMethod` | crates/justapi-core/src/router.rs:169-198 | a path registered for POST and looked up with GET is refused by method and not remembered |
| `ClonedRouters.SharedCacheExactly` | crates/justapi-core/src/router.rs:64-204 | over every run of inserts, resolves and clonings by any number of routers on one cache, a resolve differs from the router's own `raw_resolve` if and only if an earlier look-up of the key by some router entered another answer and the key has stayed cached since; nothing is assumed of the matching library |
| `ClonedRouters.RunExists` | crates/justapi-core/src/router.rs:85-204 | every sequence of such acts is a run from any routers with an empty cache |
| `ClonedRouters.CloneHidesRoute` | crates/justapi-core/src/router.rs:85-204 | clone, resolve on the original, register on the clone: the clone does not see its own route |
| `ClonedRouters.CopiesTables` | crates/justapi-core/src/router.rs:85-92 | a clone starts with its original's tables, and registering on it leaves the original's alone |
| `RouteCache.SharedCache.Insert` | crates/justapi-core/src/router.rs:71-82 | the eviction of the oldest key and the new entry |
| `RouteCache.Router.Insert` | crates/justapi-core/src/router.rs:116-128 | the tables after registering, the HEAD twin of a GET included, and whether it was refused |
| `RouteCache.Router.Lookup` | crates/justapi-core/src/router.rs:181-204 | the answer and the cache after a resolve, which `RouteTables.AnswersFirstRegistered` and `RouteCache.RemembersExactly` describe |
| `RouteCache.Router.Clone` | crates/justapi-core/src/router.rs:85-92 | a clone copies the tables and shares the cache |
| `LatencyHistogram.ConfiguredBoundsIncrease` | crates/justapi-core/src/metrics.rs:15-16 | the thirteen configured bounds, from one millisecond to ten seconds, increase strictly |
| `LatencyHistogram.CumulativeCountsSamples` | crates/justapi-core/src/metrics.rs:70-79 | after any samples, the buckets up to a bound hold exactly as many as there are samples at most that bound |
| `LatencyHistogram.Totals` | crates/justapi-core/src/metrics.rs:70-88 | count and sum are those of the samples; buckets plus the samples above the last bound make the count |
| `LatencyHistogram.SumWithin` | crates/justapi-core/src/metrics.rs:70-79 | the recorded sum is at most the total in microseconds and short of it by less than one per sample |
| `LatencyHistogram.NegativeIsZero` | crates/justapi-core/src/metrics.rs:70-79 | a negative latency adds nothing to it |
| `LatencyHistogram.CumulativeExactly` | crates/justapi-core/src/metrics.rs:31-32 | the stored buckets are the documented cumulative ones if and only if there is one bound or no sample is at most the last bound but one |
| `LatencyHistogram.OneSampleNotCumulative` | crates/justapi-core/src/metrics.rs:31-32 | a single sample of one millisecond for which they are not |
| `LatencyHistogram.OrderIrrelevant` | crates/justapi-core/src/metrics.rs:70-79 | the histogram depends on the multiset of samples only, not on their order |
| `LatencyHistogram.FindBucket` | crates/justapi-core/src/metrics.rs:73-78 | finds the first bound not below the sample |
| `LatencyHistogram.Compute` | crates/justapi-core/src/metrics.rs:209-219 | the accumulating loop finds the first bound whose sample count reaches the target, or the last bound |
| `LatencyHistogram.PercentilesMonotone` | crates/justapi-core/src/metrics.rs:209-225 | a percentile is determined by its fraction and grows with it |
| `LatencyHistogram.PercentileCovers` | crates/justapi-core/src/metrics.rs:209-219 | a reported bound other than the last covers the fraction of the samples, and no bound below it does |
| `LatencyHistogram.LatencyHist.Record` | crates/justapi-core/src/metrics.rs:70-79 | adds one sample to the history the counters summarise |
| `LatencyHistogram.LatencyHist.Percentile` | crates/justapi-core/src/metrics.rs:209-219 | the least bound that covers the fraction of the samples, or the last bound |
| `LatencyHistogram.LatencyHist.Report` | crates/justapi-core/src/metrics.rs:203-226 | nothing without samples; otherwise the four percentiles, in order |
| `Batcher.StepOk` | crates/justapi-core/src/batching.rs:54-106 | every step of callers and task keeps conservation, batch sizes, ticket order and replies |
| `Batcher.InvRun` | crates/justapi-core/src/batching.rs:54-106 | every reachable state satisfies that invariant |
| `Batcher.ScatterInOrder` | crates/justapi-core/src/batching.rs:101-103 | pairing a batch's responders with its results gives each caller the result at its own position, or a dropped response past the end of the results |
| `Batcher.BatchesInOrder` | crates/justapi-core/src/batching.rs:54-106 | for every interleaving the batches concatenate to the accepted requests in order, each of 1 to `max(1, max_size)`; a task that ended has replied to everyone, and without a panic has batched everything |
| `Batcher.OwnPosition` | crates/justapi-core/src/batching.rs:97-103 | for every interleaving and any processor the caller at position `j` of a batch gets result `j`, and a dropped response if and only if there are at most `j` results |
| `Batcher.BatchingIsInvisible` | crates/justapi-core/src/batching.rs:54-106 | if the processor maps `f` over each batch, every caller replied to gets `f` of its own request, however the requests were batched |
| `Batcher.TaskCanStep` | crates/justapi-core/src/batching.rs:64-98 | while an accepted request is unanswered the task has a step to take |
| `Batcher.DistanceStep` | crates/justapi-core/src/batching.rs:54-106 | every step of the task brings every unanswered request closer to its reply and no caller sets it back |
| `Batcher.RepliedInTime` | crates/justapi-core/src/batching.rs:54-106 | every accepted request is replied to within a number of task steps fixed when it is accepted, whatever is submitted later |
| `Batcher.RepliesStay` | crates/justapi-core/src/batching.rs:101-103 | a reply, once given, never changes |
| `Batcher.QueueBounded` | crates/justapi-core/src/batching.rs:52 | in every interleaving the channel holds at most 1024 requests |
| `Batcher.SubmitOutcome` | crates/justapi-core/src/batching.rs:52-106 | while the task lives a submission waits if and only if the channel is full; once it has ended a submission is refused |
| `Batcher.BatchEnds` | crates/justapi-core/src/batching.rs:66-98 | a batch is handed over if and only if it is full, its window expires, or the channel is closed and empty |
| `Batcher.TaskEnds` | crates/justapi-core/src/batching.rs:60-106 | the task ends if and only if the channel is closed and empty between batches, or the processor panics |
| `Batcher.ClosedForGood` | crates/justapi-core/src/batching.rs:52-62 | once the handles are dropped nothing more is submitted |
| `Batcher.ClosedTaskEnds` | crates/justapi-core/src/batching.rs:54-106 | a task whose channel is closed takes a bounded number of further steps, and stops taking any if and only if it has ended |
| `Batcher.Scatter` | crates/justapi-core/src/batching.rs:101-103 | the scattering loop |
| `Batcher.Collect` | crates/justapi-core/src/batching.rs:66-95 | the inner loop: the batch is the items received in order, and it ended because it was full, the window expired or the channel closed |
| `Batcher.ServeBatch` | crates/justapi-core/src/batching.rs:57-103 | one turn of the outer loop keeps that |
| `Batcher.Serve` | crates/justapi-core/src/batching.rs:54-105 | the outer loop: every item is in exactly one batch, in order, and each caller gets its batch's result by position |

## Left out

- Sockets, TLS, QUIC, hyper, the tokio scheduler and the Redis transport: steps of other parties are events, and clocks are inputs.
- quick-xml: the model starts from its events, after its own trimming, unescaping and attribute checks; number recognition in `coerce` is a parameter; writing XML is not modelled.
- Coalescer: the removal of framing headers when a snapshot is replayed is not modelled; a body error is a drop that follows it.
- Rate limiter: Lua's doubles are exact integers here, which they are below 2^53; the store's expiry clock is the same as the caller's. The burst wraps as in a release build; a debug build panics instead.
- RateLimit.WindowTokens: takes `tau == t * capacity`, which `RateLimit.Configured` shows to hold exactly when the 64-bit product does not overflow.
- RateLimit.ConfiguredRateIsServed: takes the same.
- RateLimit.OverCapacityNeverAdmitted: takes the same.
- Circuit breaker: the map that keeps one breaker per route, and the bulkhead, fallback, chaos and timeout middleware around it.
- Retry delay: a sum of delay and jitter beyond 64 bits, which needs a cap near the end of the range.
- Supervisor: join errors, failures among the first spawns, a zero worker count (refused by the code) and failing signal calls; spawning, waiting and load sampling are outcomes carried by events.
- Router: the matching library is a parameter with the assumptions `RouteCache.Lawful`, among them that a refused insert leaves its table unchanged; a router without a cache and the fallback handler are not modelled.
- Client generation: the printed client code; of the Unicode properties only their ASCII part is assumed, and parameter names are not de-duplicated by the code.
- Histogram: latencies are reals, so no NaN and no rounding in `count * p`; counters do not wrap, and a snapshot is atomic; the Prometheus text is not modelled.
- Batcher: a caller that gives up waiting (its result is discarded by the code) and the length of the window; that the processor returns is a step, not a promise.
- Authentication, CORS, compression, static files, validation, memory limits, the inference crates, the gateway, the CLI scaffolding and the demo applications.
