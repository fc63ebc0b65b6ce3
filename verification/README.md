# Service control client: caches, aggregators and their arithmetic

This project models the C++ client library for service control and proves properties of the model. It stands on three layers.

1. **The cache** (`utils/simple_lru_cache_inl.h`). `LruElem` and `LruCache` model the pinned cache as the source has it: a hash
   table, a circular doubly linked age list, one circular ring of deferred elements per key through the same two link fields,
   unit counters, capacity eviction, timed eviction, and a deleter that is called in the middle of operations and may insert
   again. `CacheModel` says what each operation does to plain lists; every method of `LruCache.Cache` is proved to do exactly
   that. `CacheInvariant`, `CacheTheorems`, `CacheRuns` and `CacheOrder` prove what the lists keep, over every run, with
   deleters that drop and with deleters that insert again. `CacheCells` looks at the cache one key at a time, `Reentry` follows
   nested insertions without assuming that there is room, and `Rotation` says what those come to, key by key.
2. **The aggregators** (`src/*_aggregator_impl.cc`, `src/cache_removed_items_handler.h`). `QuotaModel`, `ReportModel` and
   `CheckModel` are state machines over the cache. `QuotaRuns`, `ReportRuns` and `CheckRuns` prove conservation and protocol
   properties over every run of calls, timer flushes, evictions and responses; `FlushIsExact` in `QuotaRuns`, `ReportAges` and
   `CheckAges` says from the calls alone what a flush sends for a key and when. The classes in `QuotaAggregator.dfy`,
   `ReportAggregator.dfy` and `CheckAggregator.dfy` are proved to take exactly those steps on the concrete cache.
   `RemovedItems` models the buffer of removed items and its locking protocol under all interleavings of threads.
3. **The algebra** (`src/operation_aggregator.cc`, `src/quota_operation_aggregator.cc`, `src/signature.cc`,
   `utils/distribution_helper.cc`, `src/money_utils.cc`): merging operations, the byte streams that are hashed, streaming
   statistics over exact reals, and money in wrapping 64-bit arithmetic. `DeltaAlgebra`, `MergeAlgebra`
   and `QuotaAlgebra` say what merging computes and what an aggregate is sent as, and exactly when the order of the values, or
   merging them in parts, makes no difference.

## How to read it

- A deleter is a function from a value and a time to a `Fate`: drop the value, or insert it (or a changed value) again under its
  key; either way it may hand items on. A configuration is `reentrant` if its deleter may insert again. The quota aggregator's
  is, until `FlushAll` is called.
- A state lists the age list oldest first, the pinned entries that LRU mode keeps off it, the deferred entries, every value that
  was passed to `RemoveElement`, and everything that was handed to `AddRemovedItem`.
- Each public call reads the clock once: `now` is a parameter, and runs have non-decreasing times.
- A signature is the stream of bytes fed to the hasher, that is, the digest is taken to be free of collisions.
- The definitions of what a run should do (`Admitted`, `Waiting`, `LastAnswer`, `Unsent`, `Accepted`, `Groups`, `GroupsOf`, `Born`,
  `LastCall`, `LastResponse`)
  are read off the calls, their answers, what was emitted and when a key left the cache, not off the cached values. `StampsOf`
  gives each key the act that last used it: which call, or which deleter call within it.

Where the code and its comments differ, the model follows the code. The quota cache is age-based, although a comment calls it
LRU (`src/quota_aggregator_impl.h:165`). `FlushAll` of the quota aggregator drops aggregated tokens instead of sending them, and
from then on the deleter drops everything, because the flag it sets is never cleared (`src/quota_aggregator_impl.cc:217-230`). An
element that expires loses its aggregated tokens; `TokensConserved` accounts for all of these as lost. Adding two amounts of
less than one unit can be reported as an overflow (`MoneyUtils.ExactUnlessSpurious`).

## Model

| member | source | states |
|---|---|---|
| LruElem.Elem.Unlink | utils/simple_lru_cache_inl.h:175-181 | taking an element out of a ring leaves the ring of the others, in order, and the element unlinked; an element on no ring stays so |
| LruElem.Elem.Link | utils/simple_lru_cache_inl.h:183-188 | linking behind the head makes a ring with the element as its newest |
| LruElem.Elem.UnlinkApart | utils/simple_lru_cache_inl.h:175-181 | unlinking leaves every other ring and every unlinked element as it was, and does nothing to an element on no ring |
| LruElem.Elem.LinkApart | utils/simple_lru_cache_inl.h:183-188 | linking leaves every other ring and every unlinked element as it was |
| LruElem.RingsApart | utils/simple_lru_cache_inl.h:543-547 | the age list and the deferred rings share no element, though they share the link fields |
| LruCache.Cache.constructor | utils/simple_lru_cache_inl.h:580-591 | an empty cache satisfies the representation invariant |
| LruCache.Cache.RepresentationInvariant | utils/simple_lru_cache_inl.h:543-547 | between calls: the list is a circular doubly linked list of exactly the unpinned table entries (LRU) or of all (age); each ring holds its key's removed, pinned entries; nothing is in two places; both counters count |
| LruCache.Cache.RemoveElement | utils/simple_lru_cache_inl.h:549-554 | outside `RemoveAll` the whole invariant, over the real table, holds without the entry when the deleter is called, and again when it returns; so the deleter may insert, and that nested insertion terminates and only appends |
| LruCache.Cache.Discard | utils/simple_lru_cache_inl.h:549-554 | an unlinked, erased, unpinned element is uncounted and disposed of once, with the invariant whole at the deleter call outside `RemoveAll` |
| LruCache.Cache.RemoveElem | utils/simple_lru_cache_inl.h:845-867 | a pinned element moves to its key's ring, an unpinned one to the deleter; the counters follow |
| LruCache.Cache.Remove | utils/simple_lru_cache_inl.h:835-843 | the table entry of the key is retired, and nothing happens without one; refines the list model |
| LruCache.Cache.GarbageCollect | utils/simple_lru_cache_inl.h:869-885 | the walk with its saved link refines collection on the list |
| LruCache.Cache.InsertPinned | utils/simple_lru_cache_inl.h:751-771 | replaces, counts, links and collects as the list model does |
| LruCache.Cache.Insert | utils/simple_lru_cache_inl.h:366-369 | insertion and release, keeping the invariant; terminates although the deleter may call it |
| LruCache.Cache.Release | utils/simple_lru_cache_inl.h:693-749 | searches the ring of deferred elements first, then the table; the last pin puts the element back on the list, or removes it when the cache is overfull |
| LruCache.Cache.Lookup | utils/simple_lru_cache_inl.h:672-691 | expires, then pins and returns the value of the key, if there is one; off the list in LRU mode |
| LruCache.Cache.DiscardIdle | utils/simple_lru_cache_inl.h:890-929 | the walk from the oldest element, during which the deleter may insert again, refines expiry on the list and terminates |
| LruCache.Cache.RemoveExpiredEntries | utils/simple_lru_cache_inl.h:411-413 | expiry by the configured idle time, or nothing |
| LruCache.Cache.RemoveAll | utils/simple_lru_cache_inl.h:631-638 | retires the entry of every key once, in some order of the keys, and leaves an empty table |
| LruCache.Cache.RemoveUnpinned | utils/simple_lru_cache_inl.h:640-647 | the walk from the newest element, during which the deleter may insert again, refines purging the list |
| LruCache.Cache.UpdateSize | utils/simple_lru_cache_inl.h:773-806 | resizes the table entry, or else every matching element of the key's ring, and collects |
| LruCache.Cache.Store | src/quota_aggregator_impl.cc:154-157 | the holder of a pinned value changes it in place: no other part of the cache moves |
| LruCache.Cache.Emit | src/cache_removed_items_handler.h:66-70 | more items are handed on; the cache itself stays |
| LruCache.Cache.StopReentry | src/quota_aggregator_impl.cc:217-230 | a deleter that may insert again can be replaced by one that drops everything |
| CacheInvariant.RemoveWf | utils/simple_lru_cache_inl.h:835-867 | removal keeps the list invariant, and the key is gone |
| CacheInvariant.ReleaseWf | utils/simple_lru_cache_inl.h:693-749 | release keeps the list invariant |
| CacheInvariant.InsertPinnedFound | utils/simple_lru_cache_inl.h:751-771 | the new entry survives its own collection, pinned and with the units given |
| CacheInvariant.ReenterInsert | utils/simple_lru_cache_inl.h:366-371 | with room, a nested insertion of a discarded entry is an append, whatever is pinned or deferred |
| CacheInvariant.KnownKeyNeedsDrop | utils/simple_lru_cache_inl.h:751-771 | inserting under an unpinned known key, with room once the old entry has left, keeps the invariant if the deleter drops the old value; if it inserts it again, and there is room for both, two entries have the key |
| CacheTheorems.TailScanIsFilter | utils/simple_lru_cache_inl.h:890-929 | on a sorted list the tail scan removes every stale entry and no fresh one, calls the deleter once per stale unpinned entry, oldest first, keeps what it inserts again, and defers stale pinned entries |
| CacheTheorems.EvictionIsShortestOldestRun | utils/simple_lru_cache_inl.h:869-885 | collection removes the shortest oldest-first run of unpinned entries that ends the overflow, or all of them; within capacity it removes nothing |
| CacheRuns.StepKeeps | utils/simple_lru_cache_inl.h:543-554 | every allowed call keeps well-formedness, time order and capacity; what it inserts, and what the deleter inserts again during it, is held or disposed of afterwards |
| CacheRuns.EveryRun | utils/simple_lru_cache_inl.h:543-578 | over every run, also with a deleter that inserts again: the invariant holds, the list is sorted by last use, the cache is within capacity unless every listed entry is pinned, and values inserted plus values inserted again = values held plus values disposed of |
| CacheRuns.DisposedOnce | utils/simple_lru_cache_inl.h:549-554 | a value that was inserted once in all, by a caller or again, is passed to `RemoveElement` at most once, and exactly when the cache no longer holds it |
| CacheOrder.OrderIsHistory | utils/simple_lru_cache_inl.h:735-770 | over every run, along the list the acts that put the entries there strictly increase: insertion in age mode, last release in LRU mode, insertion again by the deleter; also among acts of one clock value |
| CacheOrder.PurgeKeepsPinned | utils/simple_lru_cache_inl.h:640-647 | `RemoveUnpinned` leaves exactly the pinned entries, in their order, and behind them what the deleter inserted again |
| CacheCells.ExpireCellExact | utils/simple_lru_cache_inl.h:890-929 | on a sorted list an entry is retired by expiry if and only if it is stale, and then once, though the deleter inserts during the walk |
| CacheCells.UseIs | utils/simple_lru_cache_inl.h:672-749 | a scoped lookup whose holder stores a value changes that value only, and in LRU mode makes the entry the newest |
| CacheCells.InsertIs | utils/simple_lru_cache_inl.h:366-371 | between calls, insertion of one unit under a new key appends it, after the oldest entry left if the cache was full |
| CacheCells.PutCell | utils/simple_lru_cache_inl.h:751-771 | an insertion sets its own key's cell; another changes only by eviction |
| CacheCells.RemoveAllCell | utils/simple_lru_cache_inl.h:631-638 | removing every key retires every cell and leaves nothing |
| Reentry.FullInsertReturns | utils/simple_lru_cache_inl.h:735-771 | inserting into a full cache whose deleter drops some entry returns, with the older entries rotated behind the new one |
| Reentry.LateInsertReturns | utils/simple_lru_cache_inl.h:693-771 | if only the newest entry is dropped, and that after being inserted again, only that entry leaves, and the others are behind the new one |
| Reentry.FullInsertReturnsIff | utils/simple_lru_cache_inl.h:869-885 | with a full cache and a new key the insertion returns if and only if the deleter drops some cached entry at once, or the newest one after inserting it again some number of times; otherwise it nests without end |
| Reentry.RoomyInsertReturns | utils/simple_lru_cache_inl.h:751-771 | with room it returns what the cache's own insertion does |
| Rotation.InsertedReturns | utils/simple_lru_cache_inl.h:751-771 | with room or not, if some cached entry is dropped or there is room, the nested calls of an insertion return, with one result |
| Rotation.InsertedCell | utils/simple_lru_cache_inl.h:735-771 | such an insertion sets its own key's cell and changes another only by one call of the deleter for its entry |
| Signature.OrderedIncreases | src/signature.cc:36-48 | iterating the keys of a map visits them in increasing order |
| Signature.ReportSignatureIdentifies | src/signature.cc:56-65 | for fields without NUL, report operations have one signature if and only if consumer, name and labels agree |
| Signature.MetricSignatureIdentifies | src/signature.cc:67-72 | metric values without NUL have one signature if and only if their labels agree |
| Signature.QuotaSignatureIdentifies | src/signature.cc:109-129 | quota operations without NUL have one signature if and only if method, consumer and set of metric names agree |
| Signature.CheckSignatureIsFields | src/signature.cc:74-107 | for fields without NUL, check operations have one signature if and only if the same fields are fed, in order |
| Signature.CheckSignatureIdentifies | src/signature.cc:74-107 | check operations have one signature and one shape (the numbers of labels, and for each metric of labelled values and of labels of each of these) if and only if name, consumer, labels, metric names and the labels of every labelled metric value agree |
| Signature.UnlabelledCheckIdentifies | src/signature.cc:74-107 | for equally many labels and metric values without labels, one signature if and only if name, consumer, labels and the metric names agree |
| Signature.CheckSignatureCollides | src/signature.cc:74-107 | different shapes can collide: a label with a metric name, and a label of a metric value with two metric names |
| Hashing.UpdateHashLabels | src/signature.cc:36-48 | the loop over the labels feeds them delimited and in key order |
| Hashing.GenerateReportOperationSignature | src/signature.cc:56-65 | what is fed is the report stream |
| Hashing.GenerateReportMetricValueSignature | src/signature.cc:67-72 | what is fed is the metric stream |
| Hashing.GenerateCheckRequestSignature | src/signature.cc:74-107 | what is fed is the check stream; of two metric sets with one name the later counts |
| Hashing.GenerateAllocateQuotaRequestSignature | src/signature.cc:109-129 | what is fed is the quota stream, whatever the order of the metrics |
| QuotaOperations.QuotaOperationAggregator.constructor | src/quota_operation_aggregator.cc:80-84 | starts as the merger of the operation with nothing |
| QuotaOperations.QuotaOperationAggregator.MergeOperation | src/quota_operation_aggregator.cc:86-98 | the in-place loop merges each metric by name |
| QuotaOperations.QuotaOperationAggregator.MergeDeltaMetricValue | src/quota_operation_aggregator.cc:47-76 | times are widened and int64 values added; values of different kinds are left alone |
| QuotaOperations.QuotaOperationAggregator.ToOperationProto | src/quota_operation_aggregator.cc:100-112 | lists each merged metric once |
| QuotaOperations.MergeAdds | src/quota_operation_aggregator.cc:86-98 | merging adds the tokens of an int64 metric and keeps exactly the metric names of both sides |
| QuotaOperations.ToProtoKeeps | src/quota_operation_aggregator.cc:100-112 | the operation sent carries the aggregate's tokens and metric names |
| QuotaOperations.MergeRoutes | src/quota_operation_aggregator.cc:86-98 | merging an operation of the same signature keeps the signature and adds its tokens |
| QuotaOperations.ToProtoRoutes | src/quota_aggregator_impl.cc:48-67 | an aggregated refresh recomputes to its entry's own signature |
| QuotaRuns.DeleterKeeps | src/quota_aggregator_impl.cc:247-286 | the deleter emits at most one note, under the element's own signature, sends a request only for an element not in flight, and loses no token unaccounted |
| QuotaRuns.TokensConserved | src/quota_aggregator_impl.cc:107-286 | over every run, per signature and int64 metric, also through misses in a full cache that return: tokens admitted positively = tokens of first misses + of aggregated refreshes + pending + lost |
| QuotaRuns.FlushAllEmpties | src/quota_aggregator_impl.cc:217-230 | after `FlushAll` there is no entry and no pending token |
| QuotaRuns.OneRequestInFlight | src/quota_aggregator_impl.cc:253-279 | a call sends at most one request for a signature, and sends none but a first one before the previous one was answered |
| QuotaRuns.AnswersAreLast | src/quota_aggregator_impl.cc:107-185 | an answer is the last response for the signature, or the empty one if the entry was created since |
| QuotaRuns.RefreshesGoHome | src/quota_aggregator_impl.cc:247-286 | a refresh bears its entry's signature; a negative element holds no aggregate and sends its initial request with CHECK_ONLY |
| QuotaRuns.RefreshKeepsKeys | src/quota_aggregator_impl.cc:195-211 | expiry keeps a key unless its entry is stale and no request was sent for it for the expiration interval, and calls the deleter once for each stale entry and for no other |
| QuotaRuns.FlushIsExact | src/quota_aggregator_impl.cc:247-286 | a flush leaves an entry alone that was inserted within the refresh interval; it drops another that was sent no request for the expiration interval; it sends one request for another if and only if none is under way and operations were admitted and not yet sent, or its last response is negative: the operations gathered, or the first request with CHECK_ONLY, and then nothing is pending |
| QuotaRuns.FlushHandsOver | src/quota_aggregator_impl.cc:195-211 | the flush callback gets exactly that request for the key, or none |
| QuotaAlgebra.GatheredGathers | src/quota_operation_aggregator.cc:80-112 | what is sent for quota operations: one like the first, with the metric names of all and, for each int64 metric, one value: the sum, the earliest start, the latest end |
| QuotaRuns.FullMissReturnsIff | src/quota_aggregator_impl.cc:127-150 | a miss in a full cache returns if and only if some cached element has gone without a refresh for the expiration interval |
| QuotaRuns.FullMissDiverges | src/quota_aggregator_impl.cc:127-150 | it may not return: with a cache of one entry, a request and then one of another method at the same time nests beyond every depth |
| QuotaAggregators.QuotaAggregator.constructor | src/quota_aggregator_impl.cc:69-88 | no cache for no entries; otherwise an empty age-based one |
| QuotaAggregators.QuotaAggregator.Quota | src/quota_aggregator_impl.cc:107-161 | error codes, and otherwise the step of the state machine; flushes what the call emitted, in order |
| QuotaAggregators.QuotaAggregator.Aggregate | src/quota_aggregator_impl.cc:38-46 | starts or continues the element's aggregate |
| QuotaAggregators.QuotaAggregator.CacheResponse | src/quota_aggregator_impl.cc:164-185 | the response of a cached signature is replaced and its flight ends; a negative one drops the aggregate |
| QuotaAggregators.QuotaAggregator.Flush | src/quota_aggregator_impl.cc:202-213 | expiry, and the flush of the refreshes that it made |
| QuotaAggregators.QuotaAggregator.FlushAll | src/quota_aggregator_impl.cc:217-230 | every key is removed with a deleter that inserts nothing |
| RemovedItems.StackBuffer.Add | src/cache_removed_items_handler.h:93-98 | an item is merged into the last one where that is allowed, and appended otherwise |
| RemovedItems.ActKeepsProtocol | src/cache_removed_items_handler.h:66-113 | each step of each thread keeps the protocol of locks, buffer pointer and buffers |
| RemovedItems.EveryScheduleFollowsProtocol | src/cache_removed_items_handler.h:66-137 | under every interleaving: `stack_buffer_` points to a buffer only while its thread holds the cache lock, and each finished call has flushed exactly the batched items that it removed |
| RemovedItems.DrainsUnlocked | src/cache_removed_items_handler.h:83-113 | a call flushes only after it has released the cache lock, and no other thread touches its buffer |
| RemovedItems.NeverStuck | src/cache_removed_items_handler.h:61-64 | no thread waits for one of the two locks while it holds the other |
| RemovedItems.CallRunsToItsEnd | src/cache_removed_items_handler.h:66-137 | a call that finds the locks free can run to its end, whatever it removes, and has then flushed the batched removals, one by one, and leaves nothing behind |
| ReportModel.BatchingIsTight | src/report_aggregator_impl.cc:138-147 | n single-operation removals are flushed in order, none lost, ten to a request but for the last, in the fewest requests |
| ReportModel.BatchesAreParts | src/report_aggregator_impl.cc:138-147 | each request has the operations of its ten removals, in order, and the last config id among them that is not empty |
| ReportRuns.AggregatesAreSent | src/report_aggregator_impl.cc:82-180 | over every run, per signature: the operations accepted in each past life of its entry were sent, in order, as one request of this service and config with one operation: that of the first, with the earliest start, the latest end, all log entries and one value for each metric and label set, the sum of delta values or the last of the others that end latest; the cached value stands for the last group |
| ReportRuns.GroupsPartition | src/report_aggregator_impl.cc:97-121 | the groups are all accepted operations of the signature, in order, cut into lives |
| ReportRuns.LogsConserved | src/report_aggregator_impl.cc:82-136 | over every run, per signature: the log entries accepted are those sent, in order, and then those still cached |
| ReportRuns.SumsConserved | src/report_aggregator_impl.cc:82-136 | over every run, per operation signature, metric and metric signature: the int64 delta sum accepted is the sum sent plus the sum cached |
| ReportRuns.FlushAllSendsEverything | src/report_aggregator_impl.cc:171-180 | after `FlushAll` all of it has been sent |
| ReportRuns.LogsBounded | src/report_aggregator_impl.cc:100-120 | an aggregate that absorbed a second operation has fewer than a hundred log entries between calls; and what was sent had fewer before its last operation came, if that was not its second |
| ReportRuns.FlushesAreTight | src/report_aggregator_impl.cc:124-147 | whatever a run removed is flushed in order, in the fewest requests, with the config id of the options |
| ReportAges.FlushIsExact | src/report_aggregator_impl.cc:158-167 | with time that does not go back: a flush sends what is cached for a key if and only if the first of its operations was accepted longer than the flush interval ago |
| ReportAges.OneMoreOperation | src/report_aggregator_impl.cc:100-121 | an operation joins a group that is not too old, which is sent if and only if it now has a hundred log entries or more; otherwise it starts a new group, and the old one has been sent |
| ReportAges.RequestsSplit | src/report_aggregator_impl.cc:97-121 | a request counts as its operations one by one |
| ReportAges.AcceptedWhen | src/report_aggregator_impl.cc:82-95 | operations are accepted if and only if the service is right, there is a cache, and all operations of the request are of low importance; otherwise nothing changes |
| ReportAggregators.ReportAggregator.constructor | src/report_aggregator_impl.cc:51-66 | no cache for no entries; otherwise an empty age-based one |
| ReportAggregators.ReportAggregator.HasHighImportantOperation | src/report_aggregator_impl.cc:40-47 | true if and only if some operation is not of low importance |
| ReportAggregators.ReportAggregator.Report | src/report_aggregator_impl.cc:82-122 | error codes, and otherwise every operation in turn; flushes what the call removed, batched |
| ReportAggregators.ReportAggregator.AddOne | src/report_aggregator_impl.cc:100-120 | merged, or inserted, or removed when the merger is too big |
| ReportAggregators.ReportAggregator.Flush | src/report_aggregator_impl.cc:158-167 | expiry, and the flush of what expired, batched |
| ReportAggregators.ReportAggregator.FlushAll | src/report_aggregator_impl.cc:171-180 | every key is removed and flushed, batched |
| CheckRuns.AnswersAreLast | src/check_aggregator_impl.cc:90-164 | a check answered from the cache gets the response last given for its signature |
| CheckRuns.SentOnWhenDue | src/check_aggregator_impl.cc:130-175 | a check that finds an element is sent on if and only if the flush interval has passed since the last response or the last check sent on |
| CheckRuns.RefreshesAreSpaced | src/check_aggregator_impl.cc:130-175 | any two checks of a signature that found an element and were sent on are at least the flush interval apart |
| CheckRuns.AggregatesAreSent | src/check_aggregator_impl.cc:226-236 | the group of operations of each past life of an element was sent, in order, as one request of this service and config with the operation that they add up to, as for reports; the last group is pending, whatever responses came in between |
| CheckRuns.GroupsPartition | src/check_aggregator_impl.cc:141-160 | the groups are all aggregated operations, cut into lives |
| CheckAges.FlushIsExact | src/check_aggregator_impl.cc:214-236 | a flush drops an element if and only if its signature was neither checked nor given a response for the expiration interval, and then sends what was aggregated in it, if anything; a check finds exactly the cached elements that such a flush would leave |
| CheckAggregators.CheckAggregator.constructor | src/check_aggregator_impl.cc:57-75 | no cache for no entries; otherwise an empty LRU one |
| CheckAggregators.CheckAggregator.Check | src/check_aggregator_impl.cc:90-164 | error codes, and otherwise the step of the state machine; flushes what expired |
| CheckAggregators.CheckAggregator.CheckElem | src/check_aggregator_impl.cc:130-157 | a negative response is served or, once an interval, refreshed; a positive one also aggregates |
| CheckAggregators.CheckAggregator.Aggregate | src/check_aggregator_impl.cc:34-42 | starts or continues the element's aggregate |
| CheckAggregators.CheckAggregator.CacheResponse | src/check_aggregator_impl.cc:177-203 | the response of a cached signature is replaced, keeping its aggregate; another is inserted |
| CheckAggregators.CheckAggregator.Flush | src/check_aggregator_impl.cc:214-224 | expiry, and the flush of what was aggregated |
| CheckAggregators.CheckAggregator.FlushAll | src/check_aggregator_impl.cc:240-250 | every key is removed, and what was aggregated is flushed |
| Operations.MergeSetsCell | src/operation_aggregator.cc:171-193 | a merged metric value is the fold, in order, of the values with its metric name and signature |
| Operations.ToProtoLists | src/operation_aggregator.cc:150-163 | the operation sent lists exactly one value for each merged one |
| OperationAggregators.MergeDeltaMetricValue | src/operation_aggregator.cc:66-102 | times are widened and values of one kind added, distributions by their own merge |
| OperationAggregators.OperationAggregator.constructor | src/operation_aggregator.cc:116-125 | the operation without its metrics, and the metrics merged by name and signature |
| OperationAggregators.OperationAggregator.MergeOperation | src/operation_aggregator.cc:127-144 | widens the time span, merges the metrics in place and appends the log entries |
| OperationAggregators.OperationAggregator.ToOperationProto | src/operation_aggregator.cc:150-163 | the operation with every merged value listed once |
| OperationAggregators.OperationAggregator.MergeLogEntries | src/operation_aggregator.cc:165-169 | the log entries are appended in order |
| OperationAggregators.OperationAggregator.MergeMetricValueSets | src/operation_aggregator.cc:171-193 | the nested loops merge each value under its metric and signature |
| DeltaAlgebra.BeforeIsLess | src/operation_aggregator.cc:41-45 | times are ordered as the nanoseconds that they count |
| DeltaAlgebra.FoldIsDelta | src/operation_aggregator.cc:58-102 | folding delta values of any kinds gives, over those of the kind of the first, their sum, the earliest start and the latest end present; distributions pool the samples of those with the same buckets; values of other kinds are ignored |
| DeltaAlgebra.DeltaOrderIndependent | src/operation_aggregator.cc:58-102 | delta values in two orders come to the same if and only if the first ones have one set of labels, one kind and the same buckets, and are numbers, or distributions not all without samples, or equal |
| DeltaAlgebra.DeltaInParts | src/operation_aggregator.cc:58-102 | merging the merger of some delta values is merging them one by one if and only if the first values of both parts are of one kind and buckets, or the values of that kind in the part widen no time span and sum up to nothing |
| MergeAlgebra.CumulativeIsLastLatest | src/operation_aggregator.cc:41-56 | folding cumulative or gauge values gives the last of those that end latest; a missing end time counts as the epoch |
| MergeAlgebra.CumulativeOrderIndependent | src/operation_aggregator.cc:51-56 | in every order, if and only if those that end latest are equal |
| MergeAlgebra.MergeInParts | src/operation_aggregator.cc:105-112 | for cumulative and gauge values merging in parts never makes a difference, and for delta values under exactly the condition of `DeltaInParts` |
| DeltaAlgebra.MixedKindsDiffer | src/operation_aggregator.cc:58-102 | they may matter: an int64 behind a double is ignored in the part and added otherwise |
| DeltaAlgebra.CloseBucketsDiffer | utils/distribution_helper.cc:272-307 | and so may parts where buckets match without being the same, because matching is not transitive |
| MergeAlgebra.DistributionsPool | src/operation_aggregator.cc:93-96 | merged distributions with one bucket option summarize all their samples together |
| MergeAlgebra.AggregateCell | src/operation_aggregator.cc:116-193 | each value of an aggregate is the fold of the values with its name and signature over all operations |
| MergeAlgebra.AggregateSumsUp | src/operation_aggregator.cc:116-193 | what an aggregate is sent as: an operation like the first, with the earliest start, the latest end, all log entries, and under each metric name and label set one value; a metric is delta unless it is listed otherwise |
| MergeAlgebra.AggregateLast | src/operation_aggregator.cc:171-193 | a value of a metric listed as cumulative or gauge is the last of those that end latest |
| MergeAlgebra.AggregateSpan | src/operation_aggregator.cc:127-141 | an aggregate starts with the earliest and ends with the latest of its operations, as far as they have times |
| MergeAlgebra.AggregateOrderIndependent | src/operation_aggregator.cc:127-193 | aggregated in another order, operations give the same time span and, up to order, the same log entries; a delta value, number or distribution, is the same exactly as `DeltaOrderIndependent` says, a cumulative one if those that end latest are equal; and the values of a cell have one set of labels |
| MergeAlgebra.ReaggregationIsAggregation | src/operation_aggregator.cc:127-163 | aggregating a flushed aggregate is aggregating its parts: time span and logs always, and a metric value if and only if merging its values in parts makes no difference |
| QuotaAlgebra.QuotaIsDelta | src/quota_operation_aggregator.cc:47-98 | each int64 quota metric of an aggregate has the sum, the earliest start and the latest end of all its values |
| MergeAlgebra.AggregateInts | src/operation_aggregator.cc:171-193 | an int64 delta of an aggregate is the sum over its operations, per metric and signature, for metrics listed as delta and for those not listed |
| Distributions.IndexContains | utils/distribution_helper.cc:134-180 | a sample falls into the bucket whose bounds contain it |
| Distributions.AddSampleExact | utils/distribution_helper.cc:42-66 | a sample added to an exact summary gives an exact summary: count, mean, extremes, squared deviations, histogram |
| Distributions.FoldSummarizes | utils/distribution_helper.cc:250-270 | so does folding samples |
| Distributions.CountsAddUp | utils/distribution_helper.cc:250-270 | every sample is counted in exactly one bucket |
| Distributions.SummaryPermutes | utils/distribution_helper.cc:250-270 | the summary does not depend on the order of the samples |
| Distributions.MergeIsHomomorphism | utils/distribution_helper.cc:272-307 | merging two folds is folding all the samples, field by field |
| Distributions.MergesWhen | utils/distribution_helper.cc:69-132 | a merge succeeds if and only if there are equally many counts and the options are of one kind and size, with width and offset, growth and scale, or every bound within a hundred-thousandth of the value merged from; otherwise nothing changes; on success counts, histogram, extremes and mean are those of both |
| DistributionHelper.DistributionMessage.InitExponential | utils/distribution_helper.cc:184-208 | the error cases exactly, and the option and resized counts |
| DistributionHelper.DistributionMessage.InitLinear | utils/distribution_helper.cc:210-229 | the error cases exactly, and the option and resized counts |
| DistributionHelper.DistributionMessage.InitExplicit | utils/distribution_helper.cc:231-248 | succeeds if and only if the bounds increase strictly; appends them to former explicit bounds |
| DistributionHelper.InitializedIsFresh | utils/distribution_helper.cc:184-248 | a fresh message that was initialised with a valid option is the exact summary of no samples |
| DistributionHelper.DistributionMessage.AddSample | utils/distribution_helper.cc:250-270 | updates the statistics and one count in place, or reports an unset option |
| DistributionHelper.DistributionMessage.Merge | utils/distribution_helper.cc:272-307 | merges in place, or reports options or sizes that do not match and changes nothing |
| MoneyUtils.ValidateMoney | src/money_utils.cc:26-43 | accepts exactly three-letter currencies, agreeing signs and nanos below one unit |
| MoneyUtils.GetAmountSign | src/money_utils.cc:45-57 | the sign of a valid amount |
| MoneyUtils.TryAddMoney | src/money_utils.cc:59-122 | the addition on wrapping integers, step by step, for all inputs |
| MoneyUtils.SaturatedAddMoney | src/money_utils.cc:124-130 | the same sum without the code |
| MoneyUtils.SumIsValid | src/money_utils.cc:59-122 | the sum of valid amounts of one currency is a valid amount: units in range, nanos below one unit, signs agree |
| MoneyUtils.ExactUnlessSpurious | src/money_utils.cc:59-122 | for valid amounts of one currency the result is exact, or saturated at the right extreme, if and only if the pair is not one of two sub-unit amounts of one sign that the overflow tests mistake |
| MoneyUtils.SmallAmountsOverflow | src/money_utils.cc:101-117 | thirty and forty hundredths of a unit are such a pair |

## Left out

- LruCache.Cache.RemoveAll: asks for a deleter that does not insert again; the source relies on `in_flush_all_` for that, and while it clears the whole table at once no invariant over the real table holds at the deleter calls.
- LruCache.Cache.UpdateSize: where the deleter may insert again it asks for units and for room; no aggregator calls it.
- LruCache.Cache.Insert: where the deleter may insert again it asks for a new key (`CacheInvariant.KnownKeyNeedsDrop` says why) and for room; `Reentry` and `Rotation` cover a full cache on values, without the links.
- LruCache.Cache.InsertPinned: as `LruCache.Cache.Insert`.
- LruCache.Cache.constructor: asks that a cache whose deleter may insert again have no negative capacity.
- LruCache.Cache.Lookup: only default options; mixing them on one element is forbidden by the header.
- CacheRuns.EveryRun: where the deleter may insert again, calls as the methods of `LruCache.Cache` ask for them: room for what is inserted, and no `RemoveAll`.
- CacheRuns.StepKeeps: as `CacheRuns.EveryRun`.
- CacheRuns.DisposedOnce: as `CacheRuns.EveryRun`.
- CacheOrder.OrderIsHistory: as `CacheRuns.EveryRun`.
- CacheTheorems.EvictionIsShortestOldestRun: where the deleter may insert again, within capacity; `Reentry` says what eviction does beyond it.
- CacheCells.InsertIs: where the deleter may insert again, with room; `Rotation` has the full cache.
- CacheCells.PutCell: as `CacheCells.InsertIs`.
- QuotaRuns.TokensConserved: for strings free of NUL, runs in which every call returns (`QuotaRuns.FullMissReturnsIff`), and a metric that is int64 with one value in each of the operations; other metrics may be of any kind.
- QuotaRuns.OneRequestInFlight: for strings free of NUL and runs in which every call returns.
- QuotaRuns.AnswersAreLast: for strings free of NUL and runs in which every call returns.
- QuotaRuns.FlushAllEmpties: for strings free of NUL and runs in which every call returns.
- QuotaRuns.RefreshesGoHome: for strings free of NUL and runs in which every call returns; with NUL an aggregate can get another signature than its parts.
- QuotaRuns.FlushIsExact: for strings free of NUL, runs in which every call returns, and before `FlushAll`.
- QuotaRuns.FlushHandsOver: as `QuotaRuns.FlushIsExact`.
- QuotaAlgebra.GatheredGathers: the values of metrics that are not int64 are not described.
- QuotaAggregators.QuotaAggregator.Quota: asks for room for a new signature until `FlushAll`; the model and `QuotaRuns` have the full cache on values, without the links.
- ReportRuns.SumsConserved: for a delta metric whose accepted values under the signatures are int64; `ReportRuns.AggregatesAreSent` with `MergeAlgebra.AggregateCell` covers every metric.
- Signature.CheckSignatureIdentifies: operations of different shapes are told apart only as far as their fields differ; `CheckSignatureCollides` shows two pairs that are not.
- Reentry.RoomyInsertReturns: age mode, as in the quota cache.
- Rotation.InsertedReturns: age mode, as in the quota cache.
- DeltaAlgebra.FoldIsDelta: where the first value is a distribution: the distributions are exact summaries of samples, and any two have the same buckets or buckets that do not match; `DeltaAlgebra.CloseBucketsDiffer` shows why.
- DeltaAlgebra.DeltaOrderIndependent: distributions as in `DeltaAlgebra.FoldIsDelta`.
- DeltaAlgebra.DeltaInParts: distributions as in `DeltaAlgebra.FoldIsDelta`.
- MergeAlgebra.MergeInParts: distributions as in `DeltaAlgebra.FoldIsDelta`.
- MergeAlgebra.ReaggregationIsAggregation: distributions as in `DeltaAlgebra.FoldIsDelta`.
- MergeAlgebra.AggregateSumsUp: distributions as in `DeltaAlgebra.FoldIsDelta`.
- MergeAlgebra.AggregateOrderIndependent: of cumulative values that end latest and differ it says nothing for two given orders; `CumulativeOrderIndependent` says that some order then makes a difference. Distributions as in `DeltaAlgebra.FoldIsDelta`.
- Cached elements are values that a call takes out of the table entry and writes back, not heap objects; two holders of one pinned element are not modelled, and the aggregators have none.
- `SetMaxSize`, `Clear`, `StillInUse`, iterators, `DebugOutput`, `IsOverfull` overrides and switching the eviction mode of a cache in use.
- The clock is read once per public call; the source reads it several times.
- The iteration order of hash maps: `RemoveAll` visits keys in an arbitrary order, operations list their metrics in key order.
- Exponential bucket indices are the exact rounded-down logarithm, found by comparing powers; floating-point rounding, NaN and infinities are not modelled.
- An explicit option with no bounds can be initialised, but the source then reads a bound that is not there; samples need at least one.
- Overflow of aggregated int64 sums and of unit counters; signed overflow in `TryAddMoney` is taken to wrap.
- The `signature` field of a check element is for the record only: the source keeps the key in the table alone.
- Re-entering an aggregator from its flush callback, which the interface forbids.
- MD5, transports, futures, the periodic timer, statistics, factories and log messages.
