# Permission cache and slot channel of postfga

postfga is a PostgreSQL extension that answers permission checks with an OpenFGA server. This
project models its two stateful parts in Dafny and proves what they promise:

* **The two-level permission cache.** A shared second level (an array of entries, a hash index
  and a clock sweep with saturating usage counts) and a private first level per backend (two-way
  sets with a one-bit victim marker). `ClockSweep`, `L2Cache`, `L1Cache`, `PermissionCache` and
  `CacheKey`.
* **The channel between backends and the background worker.** A free list of slots, a ring queue
  with free-running 16-bit indices, the slot states, the worker's cycle, the client's callbacks
  and cancellation. `RingQueue`, `ChannelShmem`, `Channel`, `ChannelObjects`, `Protocol`,
  `ProtocolRuns`, `AnswerHistory`, `Quiescence`, `WorkerCycle` and `BatchCheck`.

`Arithmetic` and `CacheTypes` hold what these share.

Everything that the program updates in place is a class whose methods are proved against a
function of the old state (`SharedCache`, `BackendCache`, `Handle`, `SlotQueue`,
`SharedChannel`, `Processor`) or a method that updates its variables step by step (`Cascade`, `AppendField`, `BuildBatch`,
`DeliverBatch`, `ProcessBatch`). The laws are lemmas about those functions and about runs of
them. Two parts are stated against an independent reference: a set of the first level against a
least-recently-used list, and the ring against a bounded first-in-first-out queue. The slot
protocol is a transition system with thirteen kinds of step; `Channel` defines what each locked
or atomic section does to the channel, `ChannelObjects` proves that the imperative code does
exactly that, and `WorkerCycle` that a whole cycle of the worker's code is a run of those steps.

## Assumptions

* A section that holds a lock is one step. `l2_lookup` writes `usage_count` under a shared lock
  (`src/cache_l2.h:162-181`), so that lookups are atomic is an assumption; `l2_store` holds the
  exclusive lock.
* In the protocol the catch block of `wait_response` (`src/channel.c:80-97`) is one step, and so
  is `handleResponse` together with waking the backend (`src/bgw/processor.cpp:130-149`). The code
  takes no lock across them. In particular `backend_pid` is cleared after the slot has been
  released (`src/channel.c:92-94`), which is harmless only because of this assumption.
* Backends follow `fga_check` with `store_id` configured (`src/func_fga.c:129-163`). A backend may
  die while its request is under way, not once its slot is DONE and not before it has enqueued.
* The server answers each call once, with any status and any result map.
* The generation changes only between cache calls. Nothing in the repository changes it and
  nothing calls `fga_cache_store`; both are events that a run may contain at any point.
* Clock values are parameters. Where signed and unsigned comparison of expiry times must agree,
  times lie after the epoch; `L1Cache.UnsignedComparisonExactlyWhen` says exactly when they agree.
* Two levels can only agree on keys that both tell apart alike. The first level compares `low` and
  `high` only (`src/cache_l1.h:70-73`), the second the whole key, and `fga_cache_key` leaves
  `relation_id` and `_pad` as they were (`src/cache_key.h:46-74`). `PermissionCache.Normalised`
  states where a result needs keys with the same digest to be the same key. Provenance does not
  need it.
* The two hash functions are parameters. Nothing is claimed about collisions.
* The cache has at least one slot, and fewer than 2^32.

## Where the code and what it says about itself differ

* The clock sweep is not always an argmin. The hand is a 32-bit counter taken modulo the capacity,
  so when it wraps it jumps back to slot 0 unless the capacity divides 2^32
  (`src/cache_l2.h:96-103`). `ClockSweep.ArgminExactlyWhen` gives the exact condition.
* The sweep's give-up counter is reset whenever a count is lowered (`src/cache_l2.h:117-128`), so
  giving up happens only with a single slot that is live, in use and holds another key.
  `L2Cache.StoredKeyPresentExactlyWhen` states it. The comment that the hand stays in
  `0..capacity-1` (`src/cache_l2.h:41`) is not what the code does.
* A batch carries the store and model of its first item (`src/client/openfga_client_check.cpp:51-53`),
  although both are settings that may differ between sessions. So items are answered for their own
  store and model, whatever the server knows, if and only if they all share them:
  `BatchCheck.OwnAnswersExactlyWhen`.
* `queue_init` takes its capacity as a 16-bit number (`src/channel_slot.h:43`). That is legal exactly
  up to 2^15 slots, so always by default but not for every configured `max_slots`:
  `ChannelShmem.InitQueue`.
* `fga_check` returns an uninitialised `allowed` when the response is not OK
  (`src/func_fga.c:131-162`). The model has no verdict in that case.
* The first level has 16384 sets; its header comment says 4096 (`src/cache_l1.h:9-10,24-25`).
* The victim marker is called pseudo-LRU (`src/cache_l1.h:7`); for two ways it is exact.

## Model

| member | source | states |
|---|---|---|
| ClockSweep.SweepIsArgmin | src/cache_l2.h:96-130 | A sweep whose hand does not jump returns the slot with the least pair (uses left, distance from the hand), after exactly that many full rounds plus the distance; every slot has been passed once per round and once more if it lies ahead of the victim. |
| ClockSweep.ArgminExactlyWhen | src/cache_l2.h:96-130 | The sweep is this argmin for all usage counts if and only if the capacity divides 2^32 or the 32-bit hand cannot wrap within five rounds; otherwise counts are given that make it evict the wrong slot. |
| ClockSweep.ArgminExists | src/cache_l2.h:105-130 | For every usage table and hand there is such a least slot. |
| ClockSweep.PassesClosedForm | src/cache_l2.h:96-103 | How often the hand has passed each slot after any number of moves without a jump. |
| ClockSweep.SweepLengthBound | src/cache_l2.h:105-130 | A single sweep makes at most 1 + sum of usage counts visits, hence at most 5 * capacity + 1, even if the hand jumps. |
| ClockSweep.SweepSpends | src/cache_l2.h:117-121 | Each visit before the last takes exactly one unit from the total usage. |
| ClockSweep.StopUnique | src/cache_l2.h:109-129 | The stopping point of the sweep is determined by the counts and the hand. |
| L2Cache.SharedCache.constructor | src/cache.c:50-63 | A new cache has no valid entry, an empty index, hand and generation zero. |
| L2Cache.SharedCache.AdvanceHand | src/cache_l2.h:96-103 | Fetch-and-add of the 32-bit hand with wrap-around, reduced by the capacity. |
| L2Cache.SharedCache.SweepLoop | src/cache_l2.h:105-130 | The loop stops at the first visit whose slot is dead or used up, having lowered every other slot by its passes; it gives up only for one live slot in use. |
| L2Cache.SharedCache.FindVictimSlot | src/cache_l2.h:105-130 | The loop returns the sweep's victim and leaves the swept state. |
| L2Cache.SharedCache.Lookup | src/cache_l2.h:152-188 | The result and whole new state of a lookup: saturating count on a hit, count zero on a dead entry, nothing else. |
| L2Cache.SharedCache.Store | src/cache_l2.h:190-242 | The whole new state of a store; the assertion that the inserted key was absent holds and the out-of-memory branch is not reached. |
| L2Cache.InitialInv | src/cache.c:50-63 | The empty cache satisfies the invariant, is the empty map and has potential zero. |
| L2Cache.LookupRefines | src/cache_l2.h:152-188 | A lookup returns exactly the live binding of the abstract map and changes no binding. |
| L2Cache.StoreRefines | src/cache_l2.h:190-242 | A store updates one binding, or inserts one and removes at most the victim's; every other binding stays, and index and array keep corresponding exactly. |
| L2Cache.StoredKeyPresentExactlyWhen | src/cache_l2.h:105-130 | The stored key is present afterwards unless the cache has one slot that is live, in use and holds another key. |
| L2Cache.StoreEvictsArgmin | src/cache_l2.h:190-242 | A store that needs room overwrites the argmin slot with the new entry at usage 5 and leaves the hand one past it; every other entry has lost exactly its passes; a live entry in use goes only if no slot is dead or used up, and then one used least. |
| L2Cache.StoreGivesUp | src/cache_l2.h:213-219 | A store that gives up takes one use from the only entry, moves the hand by one and changes nothing else. |
| L2Cache.StoreUpdatesInPlace | src/cache_l2.h:202-210 | A store of a key that is present rewrites its entry at usage 5 and touches neither index, hand nor another entry. |
| L2Cache.LookupCounts | src/cache_l2.h:164-186 | A hit adds one use up to five, a dead entry drops to zero, and no other entry, index or hand changes. |
| L2Cache.IndexFitsHash | src/cache_l2.h:66-69 | The index never has more keys than slots, hence fits a table of twice the capacity. |
| L2Cache.IndexExactAfterRun | src/cache_l2.h:152-242 | After every run the index maps a key to a slot if and only if the slot is valid and holds that key. |
| L2Cache.StorePays | src/cache_l2.h:71-80 | Iterations of a store plus the potential after it are at most the potential before it plus six. |
| L2Cache.LookupPays | src/cache_l2.h:173-181 | Only a hit raises the potential, by at most one. |
| L2Cache.AmortisedCost | src/cache_l2.h:105-242 | Over every run from any state the sweep iterations are at most the starting potential plus 6 per store plus 1 per hit. |
| L2Cache.AmortisedCostFromStart | src/cache_l2.h:105-242 | From the empty cache: at most 6 per store plus 1 per hit. |
| L1Cache.SetOf | src/cache_l1.h:60-63 | Every digest has a set below 16384. |
| L1Cache.FindWay | src/cache_l1.h:135-143 | The first way that holds the digest, and none exactly if neither does. |
| L1Cache.LookupIsLru | src/cache_l1.h:126-166 | A lookup acts on the set as on a least-recently-used list: a hit moves to the front, a dead entry is dropped, and the answer is the live entry's. |
| L1Cache.StoreIsLru | src/cache_l1.h:174-221 | A store puts its entry in front and drops another key only if the list was full, then the last one. |
| L1Cache.StepInv | src/cache_l1.h:126-270 | Lookup, store and both invalidations keep every key in its own set and no set holds a key twice. |
| L1Cache.VictimIsLeastRecent | src/cache_l1.h:82-91 | After every run, in every full set, the victim bit names the entry whose last use lies further back. |
| L1Cache.EvictsLeastRecent | src/cache_l1.h:211-220 | Whenever a store drops another key, that key was used less recently than the one kept. |
| L1Cache.UnsignedComparisonExactlyWhen | src/cache_l1.h:146 | Comparing a signed clock with an unsigned expiry is right if and only if both lie on the same side of the epoch. |
| L1Cache.LiveExactlyWhen | src/cache_l1.h:145-157 | For times after the epoch an entry counts as live if and only if the clock is before its expiry and the generation is its own. |
| L1Cache.InvalidatesExactly | src/cache_l1.h:227-270 | Invalidation makes exactly the entries of the given generation, or all, invalid; every other entry keeps its place and data, and the markers change only when everything goes. |
| L1Cache.BackendCache.constructor | src/cache_l1.h:96-118 | A new first level is empty. |
| L1Cache.BackendCache.MarkUsed | src/cache_l1.h:82-86 | The other way of this set becomes the victim and no other set changes. |
| L1Cache.BackendCache.Lookup | src/cache_l1.h:126-166 | The result and whole new state of a lookup, dead entries invalidated. |
| L1Cache.BackendCache.Store | src/cache_l1.h:174-221 | The whole new state of a store: update in place, else the first empty way, else the victim. |
| L1Cache.BackendCache.InvalidateAll | src/cache_l1.h:227-243 | No entry is valid afterwards and every marker is zero. |
| L1Cache.BackendCache.InvalidateByGeneration | src/cache_l1.h:251-270 | Exactly the entries of that generation become invalid; markers stay. |
| PermissionCache.Handle.Lookup | src/cache.c:71-101 | The answer and new state of both levels: first level, then second, a second-level hit copied down with its own expiry. |
| PermissionCache.Handle.Store | src/cache.c:103-119 | The new state of both levels after a store, nothing when disabled. |
| PermissionCache.AnswerIsLive | src/cache.c:71-101 | Every hit answers with an entry of the level it came from that is unexpired and of the current generation. |
| PermissionCache.AnswerExactlyWhen | src/cache.c:71-101 | A lookup hits if and only if the first level holds the digest, or the second the key, unexpired and of the current generation; the first level takes precedence. |
| PermissionCache.LookupEffect1 | src/cache.c:85-97 | A second-level hit leaves the first level with that verdict, expiry and generation; any other lookup at most drops an entry. |
| PermissionCache.AllTracked2 | src/cache_l2.h:190-242 | In every run every second-level binding has verdict, expiry and generation of the last store of its key by any backend. |
| PermissionCache.AllTracked1 | src/cache.c:92-95 | In every run every first-level entry has the data of the store it came from, directly or by a copy, so a copy never extends a lifetime. |
| PermissionCache.HitProvenance | src/cache.c:71-119 | For any number of backends every hit returns the verdict of one earlier store for the same digest, before that store's lifetime ends, with equal generations, which means no bump in between if there were fewer than 2^16. |
| PermissionCache.HitExactlyWhen | src/cache.c:71-119 | In every run a lookup returns the verdict of the store its first-level entry came from if that is held and still fresh, else of the key's last store if the second level holds the key and that is fresh, else nothing. |
| PermissionCache.StoreIsVisible | src/cache.c:103-119 | The lookup that follows a store within its lifetime hits, on any backend if there are two slots or more, and returns the verdict just stored on the storing backend. |
| PermissionCache.SourceMonotone | src/cache.c:71-119 | The store behind a backend's entry for a digest never moves back in time. |
| PermissionCache.ReadsMoveForward | src/cache.c:71-119 | A hit is never older than the backend's own last store of the key, nor than what an earlier hit of that backend returned. |
| PermissionCache.SingleBackendLatest | src/cache.c:71-119 | When one backend stores a key, each of its hits returns its most recent store. |
| PermissionCache.LevelsAgree | src/cache.c:92-118 | In that setting an entry present in both levels has the same verdict, expiry and generation in both. |
| CacheKey.RoundTrip | src/cache_key.h:14-44 | Decoding length-prefixed fields gives back every field and what follows them. |
| CacheKey.EncodingInjective | src/cache_key.h:46-74 | Two keys are hashed from the same bytes if and only if store, model, object type, object id, subject type, subject id and relation all agree, null and empty alike; the object keys if and only if the first four do. |
| CacheKey.EncodingFits | src/cache_key.h:55-68 | The object part is a prefix of the whole and at most 888 of the 1024 bytes are used. |
| CacheKey.AppendField | src/cache_key.h:14-44 | A length byte and the bytes are appended; what was written before stays. |
| CacheKey.WriteObject | src/cache_key.h:58-61 | The first four fields are encoded from the start of the buffer. |
| CacheKey.WriteSubject | src/cache_key.h:66-68 | The last three fields are appended. |
| CacheKey.BuildKey | src/cache_key.h:46-74 | The object key hashes the first four fields, the digest all seven; the other key fields stay as they were. |
| RingQueue.SizeIsLength | src/channel_slot.h:54-67 | The masked difference of the indices is the queue's length whatever their wraps, and equal indices mean empty. |
| RingQueue.PutAppends | src/channel_slot.h:85-94 | Writing at the masked head appends one element and disturbs none. |
| RingQueue.TakeDropsFirst | src/channel_slot.h:102-111 | Advancing the tail drops exactly the oldest element, which is the one read. |
| RingQueue.RingIsFifoForever | src/channel_slot.h:43-111 | For every power-of-two capacity up to 2^15 and any sequence of operations the ring answers like a queue of capacity - 1 elements. |
| RingQueue.SlotQueue.constructor | src/channel_slot.h:43-52 | A new queue is empty. |
| RingQueue.SlotQueue.Size | src/channel_slot.h:54-57 | The length of the queue. |
| RingQueue.SlotQueue.IsEmpty | src/channel_slot.h:59-62 | True exactly for the empty queue. |
| RingQueue.SlotQueue.IsFull | src/channel_slot.h:64-67 | True exactly at capacity - 1 elements. |
| RingQueue.SlotQueue.Available | src/channel_slot.h:73-77 | The remaining room. |
| RingQueue.SlotQueue.Enqueue | src/channel_slot.h:85-94 | Appends unless full, and otherwise changes nothing. |
| RingQueue.SlotQueue.Dequeue | src/channel_slot.h:102-111 | Removes and returns the oldest element, or reports an empty queue. |
| RingQueue.SlotQueue.Drain | src/channel_slot.h:119-130 | Takes the first min(max, size) elements in order and leaves the rest. |
| RingQueue.SlotQueue.Peek | src/channel_slot.h:138-146 | Reads the element at an index below the size, and fails otherwise. |
| ChannelShmem.RunDoubles | src/channel_shmem.c:17-21 | ORing in a copy shifted by s doubles the run of ones at the top. |
| ChannelShmem.Cascade | src/channel_shmem.c:17-21 | The five shift-or steps fill a number of at most 32 bits with ones. |
| ChannelShmem.Pow2Ceil | src/channel_shmem.c:11-24 | The least power of two that is at least x for all x up to 2^31, and zero beyond. |
| ChannelShmem.SlotCount | src/channel_shmem.c:40-57 | The slot count is as configured if positive, and otherwise twice the connections clamped between 1024 and 16384. |
| ChannelShmem.CapacityFitsExactlyWhen | src/channel_slot.h:43-47 | The capacity survives the conversion to 16 bits if and only if there are at most 2^15 slots. |
| ChannelShmem.InitQueue | src/channel_shmem.c:77-104 | The queue is set up legally if and only if there are at most 2^15 slots, always by default, and is then empty and of the right capacity. |
| ChannelShmem.RejectedExactlyWhen | src/channel_slot.h:64-94 | A queue of distinct slots is full for an unqueued slot if and only if the slot count equals the capacity and every other slot is queued. |
| ChannelObjects.SharedChannel.constructor | src/channel_slot.h:18-34 | All slots are empty and on the free list, the last one first; no request id is issued. |
| ChannelObjects.SharedChannel.AcquireSlot | src/channel.c:107-133 | Pops the free list, marks the slot pending, resets its payload, issues the next 64-bit request id; none if the list is empty. |
| ChannelObjects.SharedChannel.ReleaseSlot | src/channel.c:135-141 | Marks the slot empty and pushes it on the free list. |
| ChannelObjects.SharedChannel.SubmitSlot | src/channel.c:165-181 | Writes the question and enqueues the slot, or gives it back if the queue is full. |
| ChannelObjects.SharedChannel.CancelSlot | src/channel.c:80-97 | A pending or processing slot is marked canceled, a finished one released, and the process id cleared. |
| ChannelObjects.SharedChannel.TakeAnswer | src/func_fga.c:152-162 | A verdict exactly if the response is OK; the slot is released. |
| ChannelObjects.SharedChannel.DrainSlots | src/channel.c:143-163 | The first slots of the queue in order, as many as asked for or there are, at most sixty-four. |
| ChannelObjects.Processor.BeginProcessing | src/bgw/processor.cpp:78-98 | Pending becomes processing, a canceled slot is released, anything else is left. |
| ChannelObjects.Processor.EnqueueCompleted | src/bgw/processor.cpp:101-108 | The slot is appended to the completed queue. |
| ChannelObjects.BeginAllExactly | src/bgw/processor.cpp:51-66 | Beginning distinct slots turns the pending ones to processing, empties the canceled ones onto the free list, and changes nothing else. |
| ChannelObjects.PendingOfExactly | src/bgw/processor.cpp:51-66 | What is sent is exactly the pending slots, once each and in the order of the queue. |
| ChannelObjects.HandleAllExactly | src/bgw/processor.cpp:124-149 | Handling distinct completed slots makes each one done whose backend has not canceled and can be woken, empties every other onto the free list, and changes no other slot. |
| ChannelObjects.Processor.HandleResponse | src/bgw/processor.cpp:130-149 | A canceled slot is released; another is marked done, and released if its backend cannot be woken. |
| ChannelObjects.Processor.DrainCompleted | src/bgw/processor.cpp:110-128 | The completed queue is emptied and every one of its slots handed to its backend or freed. |
| ChannelObjects.Processor.BeginDrained | src/bgw/processor.cpp:31-66 | Exactly the pending slots among the first fifty are sent, in order, and are processing; the canceled ones are freed. |
| ChannelObjects.Processor.Execute | src/bgw/processor.cpp:31-76 | One undisturbed cycle: the first fifty slots are begun or freed, the pending ones sent, and every completed slot handed over or freed. |
| WorkerCycle.CycleIsRun | src/bgw/processor.cpp:31-76 | The cycle that `Execute` performs is a run of protocol steps that ends in the same channel, with the pending slots in flight and the worker's lists empty. |
| Protocol.StepKeeps | src/bgw/processor.cpp:31-149 | Each of the thirteen kinds of step keeps the ownership invariant. |
| ProtocolRuns.SlotPartition | src/channel.c:55-198 | In every reachable state every slot is in exactly one of nine hands, its state word agrees with it, and no list holds a slot twice. |
| ProtocolRuns.BackendsExclusive | src/channel.c:107-133 | No two backends ever have the same slot. |
| ProtocolRuns.NoUnexpectedState | src/bgw/processor.cpp:85-96 | A drained slot is pending or canceled and a waiting backend never sees its slot canceled, so both defensive branches are dead. |
| ProtocolRuns.NoMixUp | src/channel.c:186-198 | A backend that leaves the wait finds a response to its own question under its own request id. |
| AnswerHistory.AnswerProvenance | src/channel.c:107-198 | A backend that leaves the wait reads exactly what the server replied, in one later step, to the question it enqueued on the slot it acquired and has held ever since; nobody else replied into that slot in between. |
| AnswerHistory.ResponseMoves | src/client/openfga_client_check.cpp:81-94 | The response in a backend's slot changes only by the client's reply, from absent to that very reply. |
| ProtocolRuns.CallbackOwnsSlot | src/channel.c:80-97 | A slot with the client is off the free list even if canceled, still carries the request that was sent, and belongs to no backend but the one that asked. |
| ProtocolRuns.HandledExactlyWhen | src/bgw/processor.cpp:130-149 | A completed slot goes to its backend if and only if that backend still waits; otherwise it goes straight to the free list. |
| ProtocolRuns.EnqueueRejectedExactlyWhen | src/channel.c:173-181 | In every run an enqueue fails if and only if the slot count is a power of two and every other slot is queued. |
| ProtocolRuns.OutstandingIdsDistinct | src/channel.c:130 | Slots in use have pairwise distinct request ids until the 64-bit counter comes round. |
| ProtocolRuns.DispatchedIdsDistinct | src/bgw/processor.cpp:48-72 | Every batch handed to the client has pairwise distinct correlation ids, as its demultiplexing requires. |
| Quiescence.StepLowers | src/bgw/processor.cpp:31-149 | Every step but an acquisition lowers the weighted sum of slot stages and the worker's phase. |
| Quiescence.PathBounded | src/bgw/processor.cpp:31-149 | Without acquisitions a path is at most as long as that measure. |
| Quiescence.SomeStep | src/channel.c:165-198 | While a slot is in use, some step other than an acquisition, an error or a death can happen. |
| Quiescence.DrainsToQuiescence | src/bgw/processor.cpp:31-149 | From every reachable state ordinary steps return all slots to the free list, and there is a bound on every run without acquisitions. |
| BatchCheck.DecimalInjective | src/client/openfga_client_check.cpp:61 | Different request ids print differently. |
| BatchCheck.BuildBatch | src/client/openfga_client_check.cpp:49-66 | One item per request in order, under its id, with the store and model of the first. |
| BatchCheck.DeliverBatch | src/client/openfga_client_check.cpp:71-121 | For every result map and every way the call can end, each response is OK exactly if the call succeeded with a verdict under its item's id, and then carries that verdict; it grants nothing otherwise and says which side failed, with the message cut to 127 characters. Every callback runs once in order and no other response changes. |
| BatchCheck.OutcomeTruthful | src/client/openfga_client_check.cpp:71-121 | The same for one response, whatever it held before. |
| BatchCheck.OwnResult | src/client/openfga_client_check.cpp:71-110 | With distinct ids each item receives the server's answer to its own tuple. |
| BatchCheck.OwnAnswersExactlyWhen | src/client/openfga_client_check.cpp:51-53 | Every item is answered for its own store and model, for every server, if and only if the items share them. |
| BatchCheck.ProcessBatch | src/client/openfga_client.cpp:70-131 | A single item goes alone; of several, the checks go into one batch and the others alone, in order. |
| BatchCheck.SelectedOnce | src/client/openfga_client.cpp:106-126 | Each item of a batch is selected once, by its kind. |
| BatchCheck.SelectedInOrder | src/client/openfga_client.cpp:106-126 | Both selections keep the order of the items. |
| BatchCheck.CallbackOnceExactlyWhen | src/client/openfga_client.cpp:106-131 | If each call is answered once, an item's callback runs exactly once for check, write, delete, create-store and delete-store requests and never for the others. |

## Left out

- The generated protobuf and gRPC code, TLS, deadlines and channel options: the server is an environment.
- XXH3: the hashes are parameters, so nothing about collisions follows.
- PostgreSQL itself: latches, lock implementation, dynahash, memory contexts and error handling. Locks are atomicity, the hash table a finite map, the free list a sequence.
- The write, delete and store functions of `src/func_fga.c`: their catch blocks release the slot a second time, so exclusive ownership does not hold for them; nor does it for `fga_check` when it fails between acquiring and enqueuing (`src/func_fga.c:147`).
- Finer interleavings inside the two sections assumed atomic above.
- Death of a backend whose slot is DONE or not yet enqueued, reuse of process ids, worker restart and configuration reload.
- Whether a latch wakes the worker: it starts a cycle when there is work, and the number of wakes needed for more than fifty queued slots is not modelled.
- ProtocolRuns.OutstandingIdsDistinct: holds for the first 2^64 - 1 acquisitions; the shared counter wraps after that.
- BatchCheck.CallbackOnceExactlyWhen: counts callbacks for get-store and unsupported requests as never run, as in the code; those slots would stay with the client.
- BatchCheck.DeliverBatch: text of error messages is a sequence of characters; the terminating byte and encoding are not modelled.
- L2Cache.SharedCache.Lookup: the entry field `object_gen`, which nothing reads, is not modelled.
- The conversion of the configured cache size to a capacity, shared-memory layout and sizes, statistics and logging.
- The foreign data wrapper, `src/relation.c`, `src/guc.c`, and the unused `task_slot`, `queue` and `counter` helpers: easy claims or demonstration code.
