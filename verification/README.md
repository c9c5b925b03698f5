# Verification of the caching proxy's invalidation and coherence pipeline

The repository is a caching HTTP proxy in front of a book catalogue. An update of a book commits
together with a row in an outbox table; a relay publishes the row to RabbitMQ; every proxy replica
has its own durable queue, filters out events it has already applied, and purges the cached
responses that carry the event's tags. Client requests fetch and store responses at the same time.

This project models that path and proves what it is for: **no cached response about a book is older
than the database without the book's latest invalidation still being on its way**, and once outbox
and queue are drained nothing stale is left (`Coherence.StaleIsPending`,
`Coherence.DrainedIsCoherent`). Relays and consumers can get there from every reachable state
(`Progress.CoherenceIsReachable`), and every handled event, of whatever kind, has purged all it names
until the replica restarts (`Convergence.HandledStaysPurged`). The parts are proved on their own:

| file | content |
|---|---|
| `Coherence.dfy` | the whole system: database, outbox, relays, queues, replicas that crash and restart; end-to-end coherence over every run |
| `Convergence.dfy`, `Progress.dfy`, `Paths.dfy` | what handling an event achieves over whole runs; draining outbox and queues from every reachable state |
| `Race.dfy` | one replica: any number of fetches and purges whose steps interleave; a completed purge is never undone |
| `Tracker.dfy` | the invalidation tracker: its pruned three-field summary against the full history of purges |
| `Handler.dfy` | the handler: what an event, a finished fetch and a request do to tracker and cache |
| `Lru.dfy`, `Shard.dfy`, `Cache.dfy` | the sharded cache: a functional LRU, the in-place segment that refines it, rounding of the limits |
| `Admission.dfy`, `TinyLfu.dfy`, `Recency.dfy` | TinyLFU admission: the decision between two keys, the policy object with its sketch and window, the window as the keys touched last |
| `Sketch.dfy` | the aging count-min sketch |
| `Outbox.dfy`, `Delivery.dfy`, `Relay.dfy` | the transactional outbox as a state machine with concurrent updates, relays and crashes; what updates and relays leave behind, and that it can be drained; the relay as an object |
| `Events.dfy`, `Dedup.dfy`, `EventLog.dfy`, `Broker.dfy` | event validation, the deduplication filter, the log with compaction and replay, and the brokers that keep them |
| `Confirms.dfy` | publisher confirms read from a channel without looking at delivery tags |
| `Policy.dfy`, `Serving.dfy` | lifetimes and stale windows; the staleness bound over every run |
| `Flights.dfy`, `Prefetcher.dfy`, `RateLimiter.dfy`, `Routes.dfy` | shared upstream fetches, the prefetch queue, the token bucket, route templates |

How the source is rendered:

- Code that changes an object in place is a class whose methods are proved against functions of the
  old state; concurrent code is a state machine in which every mutex-protected body, channel
  operation or transaction step is one step, and theorems quantify over every run.
- Where a concurrent machine and a class describe the same operation, both use the same function
  (`Tracker.Record`, `Tracker.Refuses`, `Lru.Put`, `Lru.Looked`, `Dedup.Marked`).
- Time is an integer that does not go back (seconds as reals in `RateLimiter.dfy`); sequence numbers
  and counters that the source keeps in 64 bits are unbounded; floating point is modelled by reals.
- How I/O goes is a parameter of the objects' methods (`Conditions`), so that their contracts say
  exactly what each outcome leads to, and a free choice of every step of the state machines. The hash
  that places keys, the sketch's hash and the parser of `Cache-Control` are parameters.

What the end-to-end theorem assumes of the environment: a replica's queue is durable and bound before
the first event, and a confirm means that the event is in every replica's queue; versions come only
from the database (purges requested through the API are unversioned); a response carries either no
version or the version of every book it is tagged with, as the upstream's responses do; the handler
does not fail on a valid event.

## Where the code and its documentation differ

- A tag's recorded version is overwritten, not maximised. The tracker therefore lets an outdated
  response through after versions went back. `Tracker.RollbackLetsStaleResponseThrough` is the
  concrete case, `Tracker.FaithfulIffNoRollback` the exact condition; the event filter establishes it
  for the events the upstream emits.
- The relay's comment promises that later updates are not sent ahead of earlier ones and that several
  replicas may run relays. Both together do not hold: publishing a batch keeps the order, however far
  it gets, exactly if the query that locked it skipped no unconfirmed row that is an earlier version
  of a book in the batch (`Outbox.BatchKeepsOrderIff`). Runs in which this holds deliver in order with
  any number of relays (`Outbox.OutboxDelivers`), in particular runs with one relay transaction at a
  time (`Outbox.OneAtATimeKeepsOrder`); `Outbox.TwoRelaysReorder` is a run in which it does not hold.
  Coherence does not depend on the order.
- Loading saved state renames tags without a colon. `EventLog.RestartKeepsVersionsIffColons` says
  exactly when a restart keeps the versions.
- Compacting the event log is meant to leave out only what replay would skip. That is so exactly if
  the replaying filter knows what the compacting one knew (`EventLog.CompactionIsInvisibleIff`). A
  save that fails before a compaction and a restart break it
  (`EventLog.FailedSaveMakesCompactionVisible`); after a successful save, and with tags that carry
  colons, a restart replays like the log that was never compacted (`Broker.RabbitBroker.Subscribe`).
- A byte limit smaller than the number of segments rounds down to "no limit": an empty cache then
  takes an item larger than all of it (`Cache.TinyLimitIsNoLimit`,
  `Cache.BytesKeptIffLimitReachesShards`).
- TinyLFU admission is meant to favour popular keys. For the same counts of all other keys more
  requests indeed never cost a key its admission (`Admission.MoreFrequentStaysAdmitted`), and a second
  request with fewer other keys in between than the window holds is always admitted
  (`TinyLfu.AdmittedIffRecentOrFrequent`). But while the cache is less than half full the handler does
  not ask the sketch, so a full segment refuses a popular key in favour of a victim seen twice
  (`Admission.HalfEmptyForgetsPopularity`). And the sketch is shared and ages: outside the window one
  more request costs a key its admission exactly if it makes the sketch age and halving takes the key
  below the minimum, if a collision lifts its rival above the 1 that counts below half capacity, or if
  a collision makes it pollute (`TinyLfu.OneMoreRequestCostsAdmissionIff`; with a ratio of at least one
  half, as configured, only aging is left: `TinyLfu.OnlyAgingCostsAdmission`, and
  `TinyLfu.AgingCostsAdmission` for an input).
- Header seconds are multiplied into a 64-bit duration without a check:
  `Policy.SecondsExactIffTheyFit`.
- After a failed confirm a publisher may only be trusted if it drops its channel
  (`Confirms.AttributesIffQuiet`). `RabbitPublisher` does. `RabbitBroker` keeps the old channel when the
  reconnect fails as well: its successes are right until such a channel, still open, is kept with its
  last message in doubt, and exactly then the next confirm may be another message's
  (`Confirms.RightUntilFirstDoubt`); a run with a late ack shows a wrong success
  (`Confirms.LateAckIsTakenForTheNextMessage`).
- Without a subscribed handler the in-memory broker counts an event as handled
  (`Broker.InMemoryBroker.Publish`), so a later subscriber never sees it
  (`Broker.InMemoryBroker.LateSubscriberMissesIt`).

## Model

Rows that begin with "Direct fact" follow from the definitions without a proof of their own.

| member | source | states |
|---|---|---|
| Coherence.StaleIsPending | internal/proxy/handler.go:436-500 | In every reachable state of the whole system a cached response tagged with a book was read at some version of it, says so if it is versioned, and if that version is below the database's, the invalidation of the current version is a visible outbox row or unacknowledged in that replica's queue |
| Coherence.DrainedIsCoherent | internal/proxy/handler.go:480-509 | With the outbox empty and a replica's queue drained, everything the replica caches was read at the current version of each of its books |
| Coherence.StepInv | internal/events/events.go:724-764 | Every step of database, relays (also after a lost session), purge requests, fetches, consumers, crashes and restarts keeps the system invariant |
| Coherence.MarkStep | internal/events/events.go:495-502 | Marking an event as handled keeps the invariant: its purges are finished, so nothing cached or in flight was read below its version any more |
| Coherence.RestartStep | internal/events/events.go:603-632 | A crash and restart that loses cache and memory and reloads the saved filter keeps the invariant |
| Coherence.LetInIsAboveFloor | internal/proxy/handler.go:480-482 | A response the tracker lets in was read at or above the version below which the replica has purged, for every book it is tagged with |
| Coherence.PurgedIsAbove | internal/proxy/handler.go:490-500 | When the purge of a book at a version is finished, everything cached under the book was read at that version or later |
| Convergence.HandledIsPurged | internal/proxy/handler.go:551-569 | When an event can be marked as handled, versioned or not, each of its tags has a finished purge at its version and each of its keys a finished purge |
| Convergence.HandledStaysPurged | internal/proxy/handler.go:480-569 | In every later state up to the replica's next restart a cached entry that a handled event names by tag or key comes from a fetch that took its token after the event was delivered, or is named by tag only and newer than the event |
| Convergence.OnlySavedMarksSurvive | internal/events/events.go:495-502 | A marked event is known at once; after a restart it is known if the mark was saved, and otherwise the filter is the one saved before |
| Progress.FinishPurge | internal/proxy/handler.go:490-500 | From every state of a replica the purge its consumer is at can be finished by its own steps |
| Progress.QueueCanBeDrained | internal/events/events.go:724-764 | From every state of a replica its consumer alone can handle and acknowledge everything in its queue |
| Progress.DrainedIsReachable | internal/events/events.go:724-764 | From every reachable state of the system steps of relays and consumers alone lead to an empty outbox and empty queues, with the same versions |
| Progress.CoherenceIsReachable | internal/proxy/handler.go:480-509 | From every state of a run such steps lead to a state in which everything cached on every replica was read at the current versions of its books |
| Race.PurgeIsNeverLost | internal/proxy/handler.go:480-509 | Once a purge has completed, then in that and every later state, under any interleaving, each cached entry with its tag (or key) comes from a fetch that took its token after the purge was recorded or carries a newer version; for a versioned purge as long as no later purge of the tag has a positive version below its own, for an unversioned one without condition |
| Race.NewerIsSpared | internal/proxy/handler.go:494-499 | A purge of a tag at a version deletes a key only after its look-up found no unexpired, versioned entry of the key above that version |
| Race.CachedWasBrought | internal/proxy/handler.go:454-487 | In any run a cached item is, field by field, the response some fetch brought; only a missing storing time is filled in |
| Race.LookUpRefreshes | internal/cache/cache.go:246-262 | In any state a client's hit moves the entry to the front of its segment, and an expired entry goes |
| Race.TimerExpires | internal/cache/cache.go:476-493 | In any state a timer takes its entry out exactly if it has expired |
| Race.StepInv | internal/proxy/handler.go:436-509 | Every step of fetches, purges, client look-ups and timers keeps the race invariant |
| Race.HitIsRefused | internal/proxy/invalidation_tracker.go:63-81 | A response hit by a recorded purge and fetched with an older token is refused |
| Race.PendingShortens | internal/proxy/handler.go:494-499 | Direct fact: the race invariant allows a purge to drop a listed key only when its entry is gone or newer than the purge |
| Race.ListInv | internal/cache/cache.go:334-344 | Listing segment by segment, with stores going on between segments, loses no key the purge has to handle |
| Race.StoredInv | internal/proxy/handler.go:480-482 | A store that the tracker lets through brings in nothing a recorded purge should have removed |
| Race.StoredIffCurrent | internal/proxy/handler.go:480-482 | In any run a fitting, admitted response is cached exactly when the full history of purges has nothing against it (no tag of it rolled back) |
| Race.EntriesAfter | internal/cache/cache.go:246-332 | After any step an entry was cached before, fetched by the same fetch, or is the one just stored |
| Race.FinishedStays | internal/proxy/handler.go:490-500 | A completed purge stays completed for the rest of the run |
| Tracker.FaithfulIffNoRollback | internal/proxy/invalidation_tracker.go:43-81 | For one tag the summary decides like the full history for every token and response if and only if the recorded versions did not roll back within retention |
| Tracker.DecidesAsHistory | internal/proxy/invalidation_tracker.go:63-81 | With several tags and no roll-back the pruned summary refuses exactly what the never-pruned history refuses: what is older than a minute or was purged since |
| Tracker.RefusedIffPurgedSince | internal/proxy/invalidation_tracker.go:22-81 | For sixty seconds a response is refused only if a purge recorded since its token outdates a tag of it (exactly then without roll-back), and never if nothing was purged since; after that always |
| Tracker.SummaryStaysSmall | internal/proxy/invalidation_tracker.go:54-60 | Direct fact: beyond 4096 tags the summary keeps only those purged within the last sixty seconds |
| Tracker.OutdatedIsBlocked | internal/proxy/invalidation_tracker.go:68-78 | A purge within retention that outdates a response blocks it, as long as the last purge of the tag does not undercut it; for unversioned purges without any condition |
| Tracker.RollbackIsMissed | internal/proxy/invalidation_tracker.go:47-50 | After a roll-back there is a token and a response that the history refuses and the tracker accepts |
| Tracker.RollbackLetsStaleResponseThrough | internal/proxy/invalidation_tracker.go:47-53 | Purges at 7 and then 5 let a response at 7 through that was fetched before both |
| Tracker.RecordKeepsNoRollback | internal/proxy/invalidation_tracker.go:43-54 | A caller whose versions do not fall below those recorded within the last minute keeps the summary faithful |
| Tracker.RecordRepresents | internal/proxy/invalidation_tracker.go:43-61 | Recording a purge, pruning included, leaves a summary of the longer history |
| Tracker.InvalidationTracker.Begin | internal/proxy/invalidation_tracker.go:36-40 | The token separates the purges before it from those after it |
| Tracker.InvalidationTracker.Invalidate | internal/proxy/invalidation_tracker.go:43-61 | Adds exactly one purge to the history and keeps the summary |
| Tracker.InvalidationTracker.Prune | internal/proxy/invalidation_tracker.go:55-59 | The loop removes exactly the entries past retention |
| Tracker.InvalidationTracker.Outdated | internal/proxy/invalidation_tracker.go:66-79 | Refuses everything older than a minute and before that only what was purged since; agrees with the full history whenever no carried tag rolled back |
| Tracker.InvalidationTracker.StoreIfCurrent | internal/proxy/invalidation_tracker.go:63-81 | Runs the callback exactly once if the response is current and never otherwise |
| Handler.Handler.HandleEvent | internal/proxy/handler.go:551-569 | An invalid event changes nothing; a valid one is recorded tag by tag and key by key; entries that none of its keys names and that no tag names or that are unexpired and newer stay, and what is left carries none of its keys and is unexpired and newer if it carries a tag of it |
| Handler.Handler.InvalidateResource | internal/proxy/handler.go:490-500 | Records the purge; unexpired entries above its version and entries without the tag stay, and an entry with the tag that is left is unexpired and above its version |
| Handler.Handler.InvalidateKey | internal/proxy/handler.go:506-509 | Records a purge of the key's private tag and removes exactly the key |
| Handler.Handler.StoreResponse | internal/proxy/handler.go:436-487 | Without a lifetime nothing is stored and no request recorded. A stored response is cached under its key with its own body, headers, status, version and tags, stored now, fresh for its lifetime and kept for the longer stale window after it; within a minute and with no purge since the token it is not reported as invalidated |
| Handler.Handler.StoreThenPurge | internal/proxy/handler.go:436-500 | A response stored with a tag is gone from the cache after a purge of the tag that is unversioned or not older |
| Handler.Handler.ComputeMetrics | internal/proxy/handler.go:652-676 | What the handler measures for admission: nothing below half of the capacity, else frequencies and pollution against the key at the back of the segment |
| Handler.Handler.StoreIfCurrent | internal/proxy/handler.go:480-482 | The item is stored only while no recorded purge is newer than its token, with the metrics measured before |
| Handler.Handler.StoreBuilt | internal/proxy/handler.go:463-487 | Too large, invalidated, rejected or stored: which one it is, exactly, under the policy with this request counted and the window not yet touched; only storing changes the cache, a key the window knows is never rejected, and the request is recorded unless the item is too large |
| Handler.Handler.StoreMeasured | internal/proxy/handler.go:475-482 | Stored exactly if the tracker lets it pass and its segment accepts it with the numbers measured; no request is recorded |
| Handler.Handler.RecordAccess | internal/proxy/handler.go:571-595 | A hit is counted by the sketch and touches the window, and nothing else changes |
| Handler.Handler.FindCached | internal/proxy/handler.go:177 | A request finds exactly the unexpired cached item of its key, whose times follow the policy |
| Handler.Handler.ServeFromCache | internal/proxy/handler.go:177-230 | A body served from cache is within its lifetime, or in the window that allows it, or in the error window with a failed upstream; must-revalidate items only while fresh; whatever is fresh or allowed is served; a found item's request is counted and touches the window |
| Handler.OneKeyPurged | internal/proxy/handler.go:494-499 | Looking a key up and deleting it unless newer takes out exactly the doomed entry of that key |
| Handler.TaggedEntries | internal/cache/cache.go:334-344 | Across all segments the keys listed for a tag are exactly the keys of the entries carrying it |
| Lru.TrimIsLongestPrefix | internal/cache/cache.go:313-323 | The eviction loop removes the shortest tail that restores both limits and never the newest entry |
| Lru.PutIsLru | internal/cache/cache.go:264-325 | A store leaves the new entry in front, then the others in their old order, cut to the longest prefix within the limits |
| Lru.LookedIsLru | internal/cache/cache.go:246-262 | By positions: a hit goes to the front and all others keep their order, an expired entry goes and all others keep their order, a miss changes nothing |
| Lru.TimerTakesExpired | internal/cache/cache.go:476-493 | A timer takes out the entry of its key if it has expired, and nothing else |
| Lru.SizeCountsEverything | internal/cache/cache.go:495-507 | An item is charged 128 bytes and every byte of key, body, header names, header values and tags |
| Lru.OverflowIffEviction | internal/cache/cache.go:420-433 | The overflow test is true exactly when the eviction loop would remove an entry |
| Lru.LookedElements | internal/cache/cache.go:246-262 | A look-up keeps every entry except the expired one of its key |
| Lru.WithoutTotals | internal/cache/cache.go:459-474 | Removing an entry takes one entry and exactly its bytes |
| Shards.Shard.Set | internal/cache/cache.go:264-325 | Stores exactly when the item fits a segment and admission agrees, and then the segment is the LRU update of what it was; otherwise it is untouched |
| Shards.Shard.Lookup | internal/cache/cache.go:246-262 | Finds exactly the unexpired entry, moves it to the front and removes an expired one |
| Shards.Shard.Delete | internal/cache/cache.go:327-332 | Removes exactly the key from map, list, index and byte count |
| Shards.Shard.ExpirationTimer | internal/cache/cache.go:476-493 | Whenever the timer fires it removes the entry only if that entry has expired |
| Shards.Shard.KeysForTag | internal/cache/cache.go:334-344 | Precisely the keys of the segment's entries with the tag |
| Shards.Shard.Evict | internal/cache/cache.go:313-323 | The loop terminates with the limits restored and the new entry kept |
| Shards.Shard.TagLocked | internal/cache/cache.go:435-447 | The index gains the key under every non-empty tag and nothing else |
| Shards.Shard.UntagLocked | internal/cache/cache.go:449-457 | The index loses the key under every tag, keeps the rest, and no empty set stays |
| Shards.Shard.WouldOverflowLocked | internal/cache/cache.go:420-429 | Agrees with the overflow test on the abstract segment |
| Shards.Shard.Consult | internal/cache/cache.go:276-287 | What admission is shown: overflow flag and, under TinyLFU, the entry that would go first |
| Shards.FittingItemIsStored | internal/cache/cache.go:276-291 | An item that fits is stored whatever the policy's numbers say, and evicts nothing |
| Shards.AcceptedIffAdmitted | internal/cache/cache.go:264-291 | Direct fact: an item that needs room is accepted exactly if it wins the contest with the segment's victim on the handler's numbers |
| Shards.Shard.Admits | internal/cache/cache.go:264-291 | The checks before a store agree with `Accepts` under the policy as it is at that moment |
| Shards.TaggedInView | internal/cache/cache.go:334-344 | The inverted index answers exactly what the entries' tags say |
| Cache.SizeWithinRounding | internal/cache/cache.go:191-202 | The whole cache never holds more than its capacity plus the rounding term, and no more than its capacity when it divides evenly |
| Cache.ShardsByCapacity | internal/cache/cache.go:171-184 | Direct fact: as many segments as asked for, at most one per entry; by default one per 256 entries, at least 1 and at most 16 |
| Cache.PerShardIsTight | internal/cache/cache.go:191-202 | Direct fact: the segments together hold the capacity and with one entry less each would not; their byte budgets stay within the limit and with one byte more each would not |
| Cache.BytesKeptIffLimitReachesShards | internal/cache/cache.go:191-202 | The byte limit holds for everything the cache can hold (entries in their own segment, charged with their item's size) if and only if it is at least the number of segments |
| Cache.TinyLimitIsNoLimit | internal/cache/cache.go:191-202 | Below the number of segments an empty cache takes an item larger than the whole cache, under every admission policy, and exceeds its limit |
| Cache.InMemoryCache.constructor | internal/cache/cache.go:162-202 | Defaults and the number of segments as configured; every segment empty and valid |
| Cache.InMemoryCache.Set | internal/cache/cache.go:264-325 | Changes only the key's segment, by the LRU update when admitted |
| Cache.InMemoryCache.Lookup | internal/cache/cache.go:246-262 | Finds exactly the unexpired entry of the key and touches only its segment |
| Cache.InMemoryCache.Delete | internal/cache/cache.go:327-332 | Removes the key from its segment and touches no other |
| Cache.InMemoryCache.VictimFor | internal/cache/cache.go:360-373 | The key at the back of the key's segment, if any |
| Cache.InMemoryCache.KeysForTag | internal/cache/cache.go:334-344 | On a quiescent cache precisely the keys stored with the tag, over all segments |
| Cache.InMemoryCache.Size | internal/cache/cache.go:379-387 | The number of entries, within capacity plus rounding |
| Cache.InMemoryCache.Bytes | internal/cache/cache.go:394-402 | The sum of the entry sizes, within the limit when it reaches the number of segments |
| Cache.InMemoryCache.MaxItemBytes | internal/cache/cache.go:404-408 | A segment's byte budget; the budgets together do not exceed the limit |
| Admission.AdmittedIff | internal/cache/tinylfu.go:204-244 | Direct fact: when room is needed a key is admitted exactly if the window knows it, or it is as frequent as its rival and the minimum and pollutes nothing, on the numbers the handler measures |
| Admission.HalfEmptyForgetsPopularity | internal/proxy/handler.go:652-676 | Direct fact: below half of the capacity a key that needs room loses, however popular, to a victim seen more than once unless the window knows it |
| Admission.MoreFrequentStaysAdmitted | internal/cache/tinylfu.go:204-244 | For a key that has been counted, and the same counts of all others, further requests never cost it its admission, whatever the pollution ratio and wherever the victim moved between the two looks |
| TinyLfu.CountedBeforeTheContest | internal/proxy/handler.go:474-475 | A request is counted before its response is measured, so its key does not count as unseen, however often the sketch has aged |
| TinyLfu.OneMoreRequestCostsAdmissionIff | internal/cache/tinylfu.go:44-90 | On the real sketch, for an aging step below 2^31: one more count of a key costs it its admission if and only if the window does not know it and the count makes the sketch age and takes the key below the minimum, or (below half capacity) lifts its rival's estimate above 1, or makes it pollute |
| TinyLfu.OnlyAgingCostsAdmission | internal/cache/tinylfu.go:44-90 | At half capacity or more, with a ratio of at least one half and the victim the handler saw, only aging is left of these |
| TinyLfu.AgingCostsAdmission | internal/cache/tinylfu.go:82-90 | Concrete input: aging step 3, minimum 2, a key requested for the third time is refused where it was admitted after two |
| TinyLfu.AdmittedIffRecentOrFrequent | internal/cache/tinylfu.go:204-244 | Direct fact: when room is needed a key is admitted exactly if it was requested before with fewer other keys since than the window holds, or it is frequent enough and pollutes nothing |
| TinyLfu.TinyLfuAdmission.ShouldStore | internal/cache/tinylfu.go:204-244 | The decision of the policy value that its sketch and window stand for |
| TinyLfu.TinyLfuAdmission.PollutantScore | internal/cache/tinylfu.go:190-202 | The score on the sketch's estimates, 0 if either key is unseen |
| Recency.KeptIffKnown | internal/cache/lru_window.go:29-60 | After any touches the window of a given size holds a key if and only if it was touched and fewer than that many other keys have been touched since |
| Recency.LruWindow.Touch | internal/cache/lru_window.go:29-50 | List and set stay the window of everything touched so far; the empty key is ignored |
| Recency.LruWindow.Contains | internal/cache/lru_window.go:52-60 | True exactly if the key was touched with fewer than the window's size of others since |
| Admission.PollutionTestsAreRedundant | internal/cache/tinylfu.go:204-244 | With a pollution ratio of at least one half, and the segment's victim the one the handler saw, a candidate that needs room is admitted exactly if the window knows it or it is at least as frequent as its rival and the minimum |
| Admission.FrequencyDecides | internal/cache/tinylfu.go:204-244 | At half capacity or more, with a ratio of at least one half, nothing moving meanwhile and no window entry: a counted key pushes a victim out exactly if it was requested at least as often as the victim and as the minimum asks |
| Admission.ScoreIsVictimsShare | internal/cache/tinylfu.go:190-202 | Direct fact: the pollution score of two seen keys is the victim's share of their requests |
| Sketch.EstimateBounds | internal/cache/tinylfu.go:44-90 | For an aging step below 2^31 saturation and the zero fallback are unreachable, and an estimate is at least the key's own count under the same halving and at most the step plus the increments since the last aging |
| Sketch.OwnIsAgedCount | internal/cache/tinylfu.go:44-90 | A key's own count is its number of requests halved at most once per aging, exact before the first one |
| Sketch.EstimateCountsRequests | internal/cache/tinylfu.go:44-90 | An estimate plus one, doubled once per aging, exceeds the number of requests for the key |
| Sketch.CellBound | internal/cache/tinylfu.go:44-59 | Every counter stays at most the aging step plus the age counter modulo it |
| Sketch.CountedIsPositive | internal/cache/tinylfu.go:44-90 | A key counted once is never again estimated at 0, however often the sketch ages |
| Sketch.OneMore | internal/cache/tinylfu.go:44-90 | One more count of a key raises its estimate by exactly 1 and any other by at most 1, before the halving if it is due |
| Sketch.RankKept | internal/cache/tinylfu.go:44-90 | A key estimated no rarer than another stays so when counted once more, collisions and aging included |
| Sketch.EstimateIsExactWithoutCollision | internal/cache/tinylfu.go:62-80 | One row without a collision makes the estimate exact |
| Sketch.CountMinSketch.Increment | internal/cache/tinylfu.go:44-60 | Every counter becomes its count with this increment, aged when the step is reached |
| Sketch.CountMinSketch.Age | internal/cache/tinylfu.go:82-90 | Halves every counter but leaves a 1 alone |
| Sketch.CountMinSketch.Estimate | internal/cache/tinylfu.go:62-80 | The minimum over the rows, within the bounds of `EstimateBounds` |
| Sketch.CountMinSketch.Reset | internal/cache/tinylfu.go:92-101 | Forgets every increment |
| Outbox.OutboxDelivers | cmd/upstream/outbox.go:110-191 | A committed row is still in the table or its own event was confirmed; with any number of relays, some of them publishing on after their database session has died, a version of a book is confirmed only after all its earlier versions, as long as no batch overtook an unconfirmed locked row of a book in it |
| Outbox.BatchKeepsOrderIff | cmd/upstream/outbox.go:104-174 | In a state that is in order, publishing any part of a newly locked batch keeps the order if and only if its query skipped no unconfirmed earlier version of a book in it |
| Outbox.BatchOrderedIff | cmd/upstream/outbox.go:110-135 | A newly locked batch has every book's unconfirmed versions in order if and only if it overtakes nothing |
| Outbox.OneAtATimeKeepsOrder | cmd/upstream/outbox.go:104-109 | If no relay transaction begins while another is open the order is kept |
| Outbox.TwoRelaysReorder | cmd/upstream/outbox.go:104-109 | A run with two relays whose second batch overtakes the first one's row and in which version 2 of a book is confirmed before version 1 |
| Delivery.OutboxCanBeDrained | cmd/upstream/outbox.go:86-191 | From every reachable state some steps of relays alone leave no visible row, with the versions, the updates in progress and the history of commits as they were |
| Delivery.CommitDeletesConfirmed | cmd/upstream/outbox.go:175-191 | Direct fact: a relay's commit deletes exactly the rows of its batch that were confirmed and gives all its locks back |
| Delivery.FailureEndsTheBatch | cmd/upstream/outbox.go:147-174 | Direct fact: after a failed publication the relay publishes nothing more in this transaction and can still commit what was confirmed |
| Delivery.LostSessionReleases | cmd/upstream/outbox.go:110-174 | Direct fact: when a relay's database session dies its row locks are gone and its rows stay, and it still holds its batch |
| Delivery.StrayGoesOn | cmd/upstream/outbox.go:147-174 | Direct fact: such a relay publishes the next row of its batch, whoever has locked or deleted it since, until a publication fails |
| Delivery.NextBatch | cmd/upstream/outbox.go:117-135 | With no transaction open there is a batch to lock, of at most 100 rows, empty only if the table is |
| Delivery.UpdateIsAnnounced | cmd/upstream/main.go:333-370 | With the commit of an update the book has its next version and the outbox its event, and a purge of the lists if the genre changed |
| Delivery.CommitIsVisible | cmd/upstream/main.go:333-370 | Direct fact: a commit makes exactly the update's rows visible and leaves all others |
| Delivery.AbortLeavesNothing | cmd/upstream/main.go:333-370 | Direct fact: an update that is given up changes neither versions nor rows |
| Outbox.StepInv | cmd/upstream/main.go:333-370 | Concurrent updates, commits, aborts, relay batches, failed publications, crashes and relays that have lost their database session keep the outbox invariant |
| Outbox.StepInOrder | cmd/upstream/outbox.go:126-176 | Every step of updates and of any number of relays, with or without a database session, keeps the order of each book's rows, in the table, in the batches held and in the confirmations, as long as no batch overtakes |
| Outbox.ConfirmsWhatItSends | cmd/upstream/outbox.go:147-174 | Direct fact: a step confirms nothing but the row it publishes, from the batch the relay holds in memory |
| Outbox.NewIsLatest | cmd/upstream/main.go:333-370 | A newly committed version of a book has a higher row id than all its earlier ones |
| Outbox.CommitLatest | cmd/upstream/main.go:333-370 | The current version of a book always came with a row of its own |
| Outbox.EventIdsIdentifyRows | cmd/upstream/main.go:416-421 | Direct fact: two committed rows never share an event id |
| Relay.OutboxRelay.RelayBatch | cmd/upstream/outbox.go:110-191 | For every way connection, query, confirms and commit can go: a prefix of at most 100 rows is confirmed in order, rows are deleted only by a commit covering exactly that prefix, and what is reported is what happened |
| Relay.OutboxRelay.PublishBatch | cmd/upstream/outbox.go:147-174 | Publishes in order up to the first unconfirmed row and reports exactly the confirmed ids |
| Relay.OutboxRelay.Drain | cmd/upstream/outbox.go:86-96 | Terminates when no rows are added; rows leave only from the front and only confirmed; success means everything was confirmed in order, and nothing failing means success |
| Relay.WithoutPrefix | cmd/upstream/outbox.go:175-186 | Deleting the published ids leaves exactly the other rows, in order |
| Events.NormalizeTwice | internal/events/events.go:72-108 | Direct fact: an accepted event is accepted again unchanged on replay, from the queue and in the handler; a legacy event keeps its tags and gains its book |
| Events.AcceptedIffValid | internal/events/events.go:57-108 | Direct fact: the accepted new-form events are exactly those without a book and a negative version, with 1 to 1000 tags and keys, tags of 1 to 256 letters, digits and ":_-./@+=", and keys of 1 to 4096 |
| Events.NoAcceptedTagIsPrivate | internal/events/events.go:57-69 | No accepted tag collides with the private tag of a cache key |
| Dedup.FilterReflectsHandled | internal/events/events.go:126-147 | After any run with failing handlers and redelivery the filter holds, per tag, the largest version handled, and only handled ids, all of them until the list is full |
| Dedup.RemembersTheNewest | internal/events/events.go:305-322 | After any run the filter remembers exactly the ids of the last 10000 events handled, in order |
| Dedup.SuppressedExactly | internal/events/events.go:416-424 | Which events are suppressed: those handled by id, and keyless versioned ones dominated on every tag; others only by id |
| Dedup.DeliveredIsNews | internal/events/events.go:126-136 | A keyless versioned event is delivered only if it exceeds everything handled so far on one of its tags |
| Dedup.CommittedVersion | internal/events/events.go:138-147 | Committing raises exactly the event's tags to at least its version |
| EventLog.CompactionIsInvisibleIff | internal/events/events.go:426-454 | Every log that replays without evicting a remembered id replays alike compacted and in full (same deliveries, same order, same filter) if and only if the replaying filter knows what the compacting one knew, or is already full |
| EventLog.CompactionIsInvisible | internal/events/events.go:426-454 | The sufficient half, log by log: a replaying filter that knows what the compacting one knew and evicts no id sees no difference |
| EventLog.FailedSaveMakesCompactionVisible | internal/events/events.go:495-502 | An event recorded in memory whose save failed is dropped from the log by compaction; after a restart the full log would deliver it and the compacted one does not |
| EventLog.CompactingStaysEquivalent | internal/events/events.go:426-454 | Compacting again with a filter that knows at least as much keeps the log equivalent to the one never compacted |
| EventLog.CompactionConserves | internal/events/events.go:426-454 | Compaction loses no appended event: it stays in the log or is settled |
| EventLog.HandlingKeeps | internal/events/events.go:495-502 | Handling and marking an event keep the filter truthful about what was handled |
| EventLog.HandlingConserves | internal/events/events.go:456-502 | Handling further events keeps every appended event in the log or settled |
| EventLog.ReplayGrows | internal/events/events.go:603-632 | While no remembered id is evicted replay only adds to what the filter knows, one id per delivery |
| EventLog.MigrateVersionKeys | internal/events/events.go:351-362 | The loop keeps, per renamed tag, the largest version saved under any of its names, in whatever order the map is walked |
| EventLog.MigrationLosesNothing | internal/events/events.go:351-362 | Direct fact: a saved version is found again under its tag, or under `book:` and its name if that has no colon |
| EventLog.RestartKeepsVersionsIffColons | internal/events/events.go:324-362 | A restart keeps every saved version if and only if every tag with a saved version contains a colon |
| Broker.InMemoryBroker.Publish | internal/events/events.go:179-207 | The subscribed handler sees the event unless its id was handled or it is dominated on all its tags, and only success is recorded; with no handler subscribed it is recorded as handled |
| Broker.InMemoryBroker.LateSubscriberMissesIt | internal/events/events.go:158-207 | An event published before anyone subscribed reaches no later handler, however often it is published again |
| Broker.RabbitBroker.constructor | internal/events/events.go:324-362 | A restart reads back the saved ids and versions and stays truthful if saved tags contain colons; the filter then knows what the log was compacted with if the saved one did |
| Broker.RabbitBroker.RememberLocked | internal/events/events.go:305-322 | Set and list of remembered ids agree, without repetition, and the oldest go first |
| Broker.RabbitBroker.MarkProcessed | internal/events/events.go:495-502 | Memory is updated even if saving fails; the saved state is the new one exactly if it could be saved |
| Broker.RabbitBroker.ProcessWithRetry | internal/events/events.go:766-788 | Attempts until one succeeds, three failed or the wait is cancelled; only the last can have succeeded, and nothing else reaches the handler |
| Broker.RabbitBroker.Compact | internal/events/events.go:426-454 | The log becomes exactly its compaction under the current filter, or stays if it cannot be replaced; either way it stays equivalent to the log never compacted, for filters that know as much as the current one |
| Broker.RabbitBroker.AppendEvent | internal/events/events.go:456-493 | The log grows by the event; every thousandth append compacts it; after a reported success the event is in the log or settled |
| Broker.RabbitBroker.Consume | internal/events/events.go:724-764 | The handler runs exactly when the filter does not know the event; a message is acknowledged exactly if its event was known or has been handled and recorded |
| Broker.RabbitBroker.ReplayLog | internal/events/events.go:609-626 | Exactly the unknown events of the log are handled, in order, and replay succeeds if no event fails |
| Broker.RabbitBroker.Subscribe | internal/events/events.go:603-632 | A successful start has replayed the log, delivering what the log never compacted would deliver as long as no id is evicted, and compacted it if it could be replaced; a failed one leaves it |
| Broker.DominatedIffSuperseded | internal/events/events.go:126-136 | The version test is exactly "every tag was handled at this version or later" |
| Confirms.AttributesIffQuiet | internal/events/events.go:853-891 | The first confirm read is the one for the message just sent, whatever the broker answers, if and only if nothing sent earlier can still be confirmed |
| Confirms.TimedOutChannelMisattributes | internal/events/events.go:830-836 | A channel kept after a timed-out confirm attributes the late confirm to the next message |
| Confirms.RightUntilFirstDoubt | internal/events/events.go:798-836 | Over any run of publications with late confirms and lost connections in between, as long as no earlier call kept an open channel with its last message in doubt: a success is the ack of the call's own message, and the next confirm read is sure to be the next message's own if and only if this call keeps no such channel either |
| Confirms.TrustworthyIffNoDoubt | internal/events/events.go:798-836 | A call on a trustworthy channel leaves one if and only if it does not keep an open channel on which a confirm was not waited for to the end or a write is in doubt |
| Confirms.OnlyFailedReconnectsKeep | internal/events/events.go:798-836 | Direct fact: a channel is kept after a failure exactly if the reconnect failed and the caller had not given up; any other failure leaves no channel or a new one |
| Confirms.LateAckIsTakenForTheNextMessage | internal/events/events.go:798-836 | A kept channel and a late ack: the second publication succeeds although the broker never answered its message |
| Confirms.RabbitBroker.Publish | internal/events/events.go:798-836 | Two attempts with a reconnect after each failure, exactly as the abstract publication; from a trustworthy channel success is the ack of this very message |
| Confirms.RabbitBroker.ReconnectPublisher | internal/events/events.go:902-926 | A new channel replaces and closes the old one; a failed reconnect leaves the old one in use |
| Confirms.ConfirmChannel.PublishConfirmed | internal/events/events.go:853-891 | On any channel: success is exactly open, written, and an ack read in time, whoever it is for; the channel's new state for every outcome |
| Confirms.QuietPublish | internal/events/events.go:853-891 | On a quiet channel success is exactly the broker's timely ack of this very message, and the channel is then quiet again |
| Confirms.StaysQuietIff | internal/events/events.go:853-891 | A failed attempt leaves a quiet channel quiet if and only if the message never left or its answer was read; after a timeout or a doubtful write it does not |
| Confirms.RabbitPublisher.Publish | internal/events/events.go:1002-1025 | Success is exactly: a channel could be used, the write succeeded and the broker acked this very message in time; after any failure the channel is closed and forgotten |
| Confirms.RabbitPublisher.Idle | internal/events/events.go:993-1000 | Between calls the broker has nothing left to say on a channel in use; it can only drop it |
| Policy.SecondsExactIffTheyFit | internal/proxy/cache_policy.go:221-235 | Direct fact: header seconds become the right duration if and only if they are at most 9223372036 |
| Policy.FirstAgeDecides | internal/proxy/cache_policy.go:221-245 | The first usable max-age decides, otherwise Expires; lifetimes that fit are positive |
| Policy.TtlFromHeaders | internal/proxy/cache_policy.go:221-245 | The directive loop computes that lifetime |
| Policy.ResponseLifetime | internal/proxy/cache_policy.go:160-174 | Expired responses are not stored; stated lifetimes beat configured ones; the cap holds |
| Policy.LastDirectiveDecides | internal/proxy/cache_policy.go:177-200 | For stale windows the last usable directive decides, otherwise the configured window |
| Policy.WindowsByDirective | internal/proxy/cache_policy.go:177-200 | Both windows are zero where staleness is forbidden anywhere; otherwise each is what the last usable directive of its own name says, or as configured |
| Policy.ParseStaleWindows | internal/proxy/cache_policy.go:177-200 | The directive loop computes the windows, both zero if staleness is forbidden anywhere |
| Policy.DecisionWithinBound | internal/proxy/handler.go:180-230 | Direct fact: deciding later than looking up only ever serves less: lifetime, revalidation window or error window; an item is forwarded exactly when neither fresh nor allowed; nothing stale when forbidden; it expires exactly with the longer window |
| Serving.ServedWithinBound | internal/proxy/handler.go:175-230 | In every reachable state: a look-up finds an item exactly until its longer window has passed, and what is served is within the bound |
| Serving.KeptUntilWindowEnds | internal/cache/cache.go:246-332 | An entry leaves the cache only by a purge of its key, by replacement or a needed eviction, or after its longer window |
| Flights.UnstoredResponseHasOneReader | internal/proxy/handler.go:333-354 | Over any interleaving two requests get the same upstream response only if it failed or was stored; an unstored response and any stream go to one request |
| Flights.OneFlightPerKey | internal/proxy/handler.go:338-361 | At most one shared fetch per key runs |
| Flights.StepInv | internal/proxy/handler.go:333-361 | Leaders, followers, revalidations, endings and cancellations keep the flight invariant |
| Prefetcher.QueuedKeys | internal/prefetcher/prefetcher.go:133-169 | `queued` is exactly the keys waiting, with a worker, or being enqueued |
| Prefetcher.EachKeyOnce | internal/prefetcher/prefetcher.go:133-169 | A key is never twice among waiting and running jobs |
| Prefetcher.OneFetchPerKey | internal/prefetcher/prefetcher.go:74-95 | At most one fetch per key runs and no worker ever joins another's |
| Prefetcher.EnqueuedAddUp | internal/prefetcher/prefetcher.go:221-262 | Enqueued jobs are executed, failed, canceled, waiting or running, with send and counter as separate steps |
| Prefetcher.StepAccounts | internal/prefetcher/prefetcher.go:152-169 | Every single step keeps the account of jobs sent |
| RateLimiter.AnyWindowIsBounded | internal/proxy/prefetch.go:189-199 | Any window of any run of calls is granted at most the rate, or one if that is more, plus the rate times its length, even if call times step back |
| RateLimiter.BurstIsGranted | internal/proxy/prefetch.go:185-199 | After a pause long enough to fill the bucket as many calls at once as the rate per second, and at least one, are all granted |
| RateLimiter.TokensInRange | internal/proxy/prefetch.go:185-199 | With a clock that does not go back tokens stay within zero and the burst, and a call one interval after the previous one is granted |
| RateLimiter.RateLimiter.Allow | internal/proxy/prefetch.go:189-199 | One call refills, caps and takes a token exactly as the abstract bucket |
| Routes.ExpandUndoesTemplate | internal/proxy/routes.go:110-144 | For every cleaned path, expanding the route found by its template with the matched values gives the path back |
| Routes.MatchUndoesExpandIff | internal/proxy/routes.go:131-175 | Matching the path a template expands to gives exactly the parameters back if and only if no value contains a slash |
| Routes.FillUndoesMatch | internal/proxy/routes.go:131-175 | Filling a template with what was matched gives the path's segments back |
| Routes.RecordTemplateTransition | internal/proxy/handler.go:697-709 | Learns exactly when the next path can be rebuilt through a different template, and replaying what was learned leads to the path visited |
| Routes.MatchSegments | internal/proxy/routes.go:157-175 | Matches exactly when the literals agree, and binds every placeholder and nothing else |
| Routes.Expand | internal/proxy/routes.go:131-144 | Succeeds exactly when every placeholder has a value |
| Routes.Template | internal/proxy/routes.go:110-118 | The first matching route with its values, or none if none matches |
| Routes.ByMatch | internal/proxy/routes.go:120-127 | The first route with that template, or none if there is none |
| Routes.SameParams | internal/proxy/routes.go:148-155 | True exactly when every value of next is also in prev |
| Routes.CompileRoutes | internal/proxy/routes.go:47-77 | Accepts exactly the tables whose routes start with a slash, name each placeholder once and have valid tag templates |
| Routes.PlaceholderNames | internal/proxy/routes.go:53-62 | Finds the names, or a repeated or empty one |
| Routes.ExpandTag | internal/proxy/routes.go:184-204 | The loop fills every hole in one pass; the empty string stands for failure |
| Routes.TagsFor | internal/proxy/routes.go:79-106 | The tags of a request are the filled, valid tag templates of the first route that matches the path as it stands, in order; none if no route matches |
| Routes.CompiledTagIsFilledIff | internal/proxy/routes.go:79-106 | On a compiled route a tag template is filled, and with something, if and only if every segment it names is non-empty and every query parameter it names has a value |
| Routes.CleanPathSupplies | internal/proxy/routes.go:79-106 | On a cleaned path every segment a template names is non-empty |
| Routes.SplitPathJoinIff | internal/proxy/routes.go:206-212 | Joining parts and splitting the path gives the parts back if and only if none contains a slash and the first and last are not empty |
| Routes.RouteKeySegments | internal/proxy/routes.go:251-256 | Every route key is a slash and non-empty segments without slashes |

## Left out

- Serving HTTP, header copying, body buffering, streaming, logging, metrics and the body, status, method, cookie and Vary gates of the cache policy: plumbing around library code, or easy members.
- AMQP, PostgreSQL and file-system calls: they appear as queues, confirms, transactions and logs that may fail at any step.
- Torn writes of the event log and of the saved state: an append or a save either happens or does not.
- `attempts`, `last_error`, back-off times, polling and the wake channel of the relay: they do not change what is published.
- Dead-lettering of events whose handler fails: in the end-to-end model the handler does not fail on events the upstream emits.
- Coherence.StaleIsPending: for responses tagged with the book; list and search membership after title changes has no event.
- Coherence.DrainedIsCoherent: for events of one tag without keys and with database versions, which is what the upstream emits; versioned purges of several tags may roll a tag's version back (see `Tracker.FaithfulIffNoRollback`).
- Outbox.OutboxDelivers: order is claimed for runs in which no batch overtakes; otherwise it fails (see `Outbox.BatchKeepsOrderIff`, `Outbox.TwoRelaysReorder`).
- EventLog.CompactionIsInvisible: only where the condition of `EventLog.CompactionIsInvisibleIff` holds and while fewer ids are remembered than the list holds; a forgotten id may be delivered again.
- Broker.InMemoryBroker.Publish: for publishers one after the other; check and commit take the lock separately.
- Handler.Handler.HandleEvent: one time for all look-ups of the event and no other request in between; interleavings are the subject of `Race.PurgeIsNeverLost`.
- Handler.Handler.StoreResponse: the status, cookie and Vary gates are folded into a parameter that says whether the response is cacheable.
- Handler.Handler.StoreBuilt: no other request between counting, measuring, storing and touching the window; that the victim may move between the two looks is in `Admission.Contest`.
- Admission.MoreFrequentStaysAdmitted: for the same counts of all other keys; what one more count does to the shared sketch is `TinyLfu.OneMoreRequestCostsAdmissionIff`.
- The locked wrapper around the sketch, the handling of a hit's refresh-ahead, and removing single keys from the window, which nothing calls.
- Race.PurgeIsNeverLost: not for a versioned purge that a later purge of the tag undercuts; the tracker then lets outdated responses in (see `Tracker.RollbackLetsStaleResponseThrough`).
- Tracker.InvalidationTracker.StoreIfCurrent: the callback is an object with a fixed answer; the handler's own callback is `Handler.Handler.StoreItem`.
- Sketch.EstimateBounds: increments since the last reset are counted without the wrap-around of a 64-bit counter.
- Policy.ParseStaleWindows: directives arrive already split, lower-cased and parsed.
- Prefetcher.EnqueuedAddUp: before the service is stopped; stopping closes the channel under concurrent enqueues.
- Routes.RouteKeySegments: lexical path cleaning is modelled on segments, as the library documents it.
- Events.AcceptedIffValid: lengths count characters; the source counts bytes, which differ for letters outside ASCII.
- Progress.DrainedIsReachable: that draining is possible, not that a scheduler gets there; relays and consumers that retry forever are no part of the model.
- Convergence.HandledStaysPurged: up to a restart, which empties the cache.
- FNV hashing, Unicode classes of letters and digits, and the predictors: arbitrary functions or candidates.
- Cache keys: joined without escaping, so different requests may share one; keys are opaque here.
- Configuration, health checks, data generation, deployment files.
