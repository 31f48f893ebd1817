# A verified model of DeepSeek_Web_To_API

DeepSeek_Web_To_API is a gateway, written in Go, that offers several API surfaces on top of the DeepSeek
web client. This project models the parts of it where stateful or optimised code has to agree with
something much simpler, and proves that it does.

- **Proof of work** (`Keccak`, `Sponge`, `Pow`). The unrolled permutation is proved equal to rounds 1 to 23
  of the step mappings of FIPS 202, section 3.2. The rotation offsets and round constants are derived from
  the algorithms of that standard. The hash is the sponge of FIPS 202, section 4, over a padding that can be
  undone. `SolvePow`, which absorbs the prefix once and writes digits in place, returns the least nonce that
  hashing the whole text from scratch would accept.
- **Response cache** (`ResponseCache`, `SingleFlight`). Every sequential run of the two-tier cache refines a
  plain map from keys to the latest entry, up to the keys that a failed disk write or an oversized entry has
  put in doubt, and misses no key whose record was written and kept. The byte counter, the session index and the order of eviction are
  exact in every run. The owner and waiter protocol is a state machine over interleaved steps.
- **Account pool** (`AccountPool`, `KeyedLock`). Slots stay within the caps and equal the outstanding leases.
  In every run the rotating queue serves an account that stays eligible by the time it has been asked as often
  as it is long. A request ends holding exactly the slot it reports, or none. The reference-counted
  locks, which are deleted and created again, exclude each other in every interleaving.
- **Proxy routing** (`Routing`). One pass of automatic routing is stable and balanced. Migration off deleted
  nodes either changes nothing or leaves no account behind.
- **History** (`HistoryRollup`). Pruning conserves the reported outcome and token totals.
- **Self-update** (`SelfUpdate`). The marker files survive a stop at any step, however often confirmation or
  recovery is stopped and started over. The recovery is the one in the container's entrypoint.
- **Prompt construction** (`PromptXml`, `Compress`, `ToolFields`, `ToolRepair`, `ToolRepairTwice`,
  `ToolRepairLedger`, `ToolRepairIds`, `ToolRepairClash`, `ToolRepairCalls`). CDATA output reads back as the text by
  XML 1.0, section 2.7. Compression keeps whole turns. The calls, results and texts of tool messages can be read off
  the repaired messages. Tool messages are repaired twice on every request, and the second repair changes nothing exactly
  when no result wraps a result block twice, given ids that tell the calls apart.

Objects that the source updates under a lock are classes with the same fields. Their methods are proved
against functions on values, and the properties are lemmas about those functions. Concurrent protocols are
state machines whose steps are the source's atomic sections.

Clocks are `now` parameters. Disk writes, marker writes, commits and logins are parameters that say whether
the operation works, fails or stops the process. Hashing of session keys, JSON encoding and the building of
prompts are functions passed in, or are left out.

## Where the code does less than one might expect

- A replacement that is too large for the memory tier leaves the older copy there, and it is served until it
  expires (`internal/responsecache/cache.go:871-873`). `ResponseCache.Cache.Set` states exactly when.
- An in-flight slot leaves the map one step before its channel is closed
  (`internal/responsecache/cache.go:1050-1060`), so a new owner can start while the old channel is still open.
  `SingleFlight.OpenWhileRegistered` states exactly when a slot is open.
- Pruning adds to the separate token database before the history transaction commits. If that commit fails,
  the pruned rows are counted twice. `HistoryRollup.Store.Prune` states exactly when.
- `Apply` can leave a pending candidate without its rollback marker, when removing the failed marker and then
  the pending marker both fail. `SelfUpdate.Manager.Apply` states exactly when.
- `Rollback` is not restartable: a stop between its two writes loses the release that was current, and rolling
  back again after both swaps back. `SelfUpdate.RollbackRerun` states exactly when a second run is harmless.
- `Rollback` can also leave a pending candidate without its rollback marker, when only the pending marker cannot
  be removed (`SelfUpdate.UnguardedRollback`).
- Distinct call ids do not suffice for a second repair to be harmless: a client may send an id of the form
  that repair generates (`ToolRepairClash.GeneratedIdCanCollide`).
- Calls of one message that share an id under different names may be followed by results that a second repair
  changes. `ToolRepairClash` states exactly for which calls this can happen; two calls alone are harmless.
- The comment on `dropLeadingOrphanToolResults` speaks of tool results at the front of a cut. In
  `CompressMessages` there are none, because every cut is at a user message.

## Model

| member | source | states |
|---|---|---|
| `Keccak.KeccakF23` | pow/deepseek_hash.go:18-122 | the in-place unrolled loop leaves the array equal to rounds 1 to 23 of theta, rho, pi, chi and iota of FIPS 202 applied to the old array, for every 25-lane state |
| `Keccak.RhoTableMatchesAlgorithm` | pow/deepseek_hash.go:62-86 | the rotation offsets are those computed by the walk of FIPS 202, section 3.2.2 |
| `Keccak.RoundConstantsMatchAlgorithm` | pow/deepseek_hash.go:7-14 | the constants of rounds 1 to 23 are those produced by the shift register of FIPS 202, section 3.2.5 |
| `Keccak.RotlIsRotate` | pow/deepseek_hash.go:16 | the shift-and-or rotation is rotation of a 64-bit word, for every amount used |
| `Keccak.ThetaUnrolled` | pow/deepseek_hash.go:26-60 | the ten column lines and twenty-five xors are theta |
| `Keccak.RhoUnrolled` | pow/deepseek_hash.go:62-86 | the rotation amounts in the code are those of rho |
| `Keccak.PiUnrolled` | pow/deepseek_hash.go:62-86 | the target lanes in the code are those of pi |
| `Keccak.ChiUnrolled` | pow/deepseek_hash.go:88-112 | the twenty-five lines of the row step are chi |
| `Keccak.IotaUnrolled` | pow/deepseek_hash.go:114 | the constant is xored into lane 0 only |
| `Sponge.LoadStore` | pow/deepseek_hash.go:147-151 | writing a lane little-endian and reading it back gives the lane |
| `Sponge.StoreLoad` | pow/deepseek_hash.go:131-133 | reading eight bytes as a lane and writing it gives the bytes |
| `Sponge.UnpadPad` | pow/deepseek_hash.go:138-141 | the padding can be undone for every message, including the single-byte case |
| `Sponge.PadInjective` | pow/deepseek_hash.go:138-141 | different messages have different padded forms |
| `Sponge.FinalBlockIsPad` | pow/deepseek_hash.go:138-141 | the buffer with its two marker bytes is the padded tail, also when both bytes coincide |
| `Sponge.AbsorbAllSplit` | pow/deepseek_hash.go:129-136 | absorbing two whole-block parts one after the other is absorbing their concatenation |
| `Sponge.HashSplit` | pow/deepseek_hash.go:129-145 | the full blocks and then the final block give the hash of the whole message |
| `Sponge.AbsorbBlock` | pow/deepseek_hash.go:131-134 | the state array is xored with one block and permuted |
| `Sponge.AbsorbFullBlocks` | pow/deepseek_hash.go:129-136 | the loop absorbs exactly the full blocks and stops with fewer than 136 bytes left |
| `Sponge.DeepSeekHashV1` | pow/deepseek_hash.go:125-153 | for every input length the digest is the first 32 bytes after folding absorb over the blocks of the padded message |
| `Pow.ParseOfDecimal` | pow/deepseek_pow.go:70-82 | a nonce can be read back from its text and the text has no leading zero |
| `Pow.ParseOfFormat` | pow/deepseek_pow.go:25-27 | a signed number is read back from its text |
| `Pow.PrefixReadsBack` | pow/deepseek_pow.go:25-27 | salt and expiry are read back from the prefix, whatever underscores the salt has |
| `Pow.ReadPrefixIsExact` | pow/deepseek_pow.go:25-27 | the prefix is the one text without redundant zeros or signs that reads back as that salt and expiry |
| `Pow.HexDecodeReads` | pow/deepseek_pow.go:35-38 | decoding succeeds exactly on pairs of hex digits of either case, and encoding the bytes gives the text in lower case |
| `Pow.HexEncodeInjective` | pow/deepseek_pow.go:35-38 | different bytes have different hex texts |
| `Pow.Int64Digits` | pow/deepseek_pow.go:70-82 | twenty digits are enough for every 64-bit nonce, so the digit buffer never runs out |
| `Pow.WriteDecimal` | pow/deepseek_pow.go:70-82 | the digit loop leaves the decimal text of n at the end of the buffer, without going out of bounds |
| `Pow.PreabsorbedHash` | pow/deepseek_pow.go:31-118 | continuing from the absorbed prefix blocks gives the hash of the whole text |
| `Pow.ShortRest` | pow/deepseek_pow.go:83-112 | a tail of fewer than 136 bytes needs one final block |
| `Pow.LongRest` | pow/deepseek_pow.go:83-112 | a tail of 136 bytes or more, 136 included, needs a full block and then a final one |
| `Pow.HashTail` | pow/deepseek_pow.go:83-112 | both tail branches leave the state of absorbing the padded tail and digits |
| `Pow.LanesMatchTarget` | pow/deepseek_pow.go:113 | comparing four lanes is comparing the 32-byte digest |
| `Pow.TryNonce` | pow/deepseek_pow.go:69-115 | one iteration hits exactly when hashing prefix and decimal text from scratch gives the target |
| `Pow.SolvePow` | pow/deepseek_pow.go:31-118 | the error for a bad length exactly when the length is not 64, and for bad hex exactly when a character is no hex digit; otherwise, for every prefix text that reads back as the salt and expiry, every target whose hex text is the challenge and every difficulty of 64 bits, the result is the first nonce whose text after the prefix hashes to the target, or the error of the first cancelled check before it, or no solution |
| `Pow.UncancelledOutcome` | pow/deepseek_pow.go:31-118 | an uncancelled search succeeds exactly when some nonce below the difficulty answers, and then returns the least one |
| `KeyedLock.RegisterKeepsInv` | internal/account/affinity.go:88-99 | registering under the guard keeps counts, entries and owners consistent |
| `KeyedLock.UnregisterKeepsInv` | internal/account/affinity.go:100-110 | dropping a reference and deleting the last entry keeps them consistent |
| `KeyedLock.RunKeepsInv` | internal/account/affinity.go:88-111 | every interleaving of register, lock, unlock and unregister keeps the invariant |
| `KeyedLock.MutualExclusion` | internal/account/affinity.go:88-111 | after every run at most one goroutine holds the lock of a key, although lock objects are deleted and created again |
| `KeyedLock.EntryCountsParticipants` | internal/proxyservice/subscriptions.go:84-104 | after every run a key has an entry exactly when someone is registered, and the count is the number registered |
| `KeyedLock.UnregisterGuard` | internal/proxyservice/subscriptions.go:84-104 | whoever unregisters finds its own lock in the map and the count never goes below zero |
| `KeyedLock.WaitsOnlyForHolder` | internal/account/affinity.go:88-111 | a registered goroutine can take the lock unless another one holds the same key |
| `SingleFlight.BecomeOwner` | internal/responsecache/cache.go:1034-1046 | the first request for a key becomes its owner and opens the slot |
| `SingleFlight.RemoveKeepsInv` | internal/responsecache/cache.go:1050-1057 | taking the slot out of the map keeps the invariant while the channel is still open |
| `SingleFlight.CloseKeepsInv` | internal/responsecache/cache.go:1050-1060 | closing the channel afterwards keeps the invariant |
| `SingleFlight.RunKeepsInv` | internal/responsecache/cache.go:337-413 | every interleaving of requests keeps the invariant, with panics, timeouts, cancellation and eviction |
| `SingleFlight.OneOwnerPerKey` | internal/responsecache/cache.go:1034-1060 | at every reachable state a key has at most one in-flight owner |
| `SingleFlight.OpenWhileRegistered` | internal/responsecache/cache.go:1034-1060 | a slot is open exactly while it is in the map or its owner is between removing and closing it |
| `SingleFlight.WaitersHaveLiveOwner` | internal/responsecache/cache.go:394-413 | every waiter's slot is closed or has a live owner that will close it |
| `SingleFlight.StoredBeforeClosed` | internal/responsecache/cache.go:337-385 | a closed slot's cacheable result was stored before the close, and is in the cache unless it was evicted |
| `SingleFlight.WokenWaiterIsServed` | internal/responsecache/cache.go:394-413 | a woken waiter whose owner stored a result is served from the cache unless it was evicted |
| `SingleFlight.CacheableAnswerIsCached` | internal/responsecache/cache.go:378-383 | in every run in which upstream gives an owner a cacheable answer and the owner's slot is closed, the owner has stored since, and the key is in the cache unless an eviction of it came after that store |
| `SingleFlight.AnswerReachesWaiter` | internal/responsecache/cache.go:394-413 | in every such run the lookup of a waiter woken by that slot ends its request, unless the key was evicted after the owner's store |
| `SingleFlight.ServedIfCached` | internal/responsecache/cache.go:337-365 | a lookup, before the slot machinery or after a wait, ends the request exactly when its key is cached and changes nothing else |
| `SingleFlight.UnownedAnswerIsCached` | internal/responsecache/cache.go:337-385 | after a cacheable answer to a request without a slot, a lookup of its key is served unless the key was evicted since |
| `SingleFlight.OnlyAnswersAreCached` | internal/responsecache/cache.go:337-385 | in every run each cached key was given a cacheable answer for a request of that key |
| `SingleFlight.UnownedAfterTwoWaits` | internal/responsecache/cache.go:337-385 | a request runs upstream unowned only after two waits |
| `SingleFlight.ReleaseFindsOwnSlot` | internal/responsecache/cache.go:1050-1060 | the slot that a release finds in the map and closes is always the releasing request's own |
| `SingleFlight.TwoSlotsOpen` | internal/responsecache/cache.go:1050-1060 | a run in which a slot is open and out of the map while a new owner's slot for the same key is open |
| `ResponseCache.UnlinkExact` | internal/responsecache/cache.go:732-744 | removing a key keeps the session index the exact inverse of the items, with no empty bucket |
| `ResponseCache.RelinkExact` | internal/responsecache/cache.go:714-744 | replacing a key under another session keeps the index exact |
| `ResponseCache.LeaseKeepsTotal` | internal/responsecache/cache.go:671-710 | moving expiry times leaves the sum of sizes alone |
| `ResponseCache.SetMemoryAgrees` | internal/responsecache/cache.go:866-914 | after a put the memory tier agrees with the latest values exactly when no older copy was left by an oversized replacement |
| `ResponseCache.SetDiskAgrees` | internal/responsecache/cache.go:1102-1153 | after a disk write the disk tier agrees with the latest values exactly when no older file outlived a failed write |
| `ResponseCache.SetMemoryDoubts` | internal/responsecache/cache.go:866-914 | whatever was in doubt before, a put leaves a key in doubt in memory only when its entry is too large to store and it was set before |
| `ResponseCache.SetDiskDoubts` | internal/responsecache/cache.go:1102-1153 | a disk write leaves a key in doubt only when the record could not be written and it was set before |
| `ResponseCache.OversizedReplacementIsServed` | internal/responsecache/cache.go:871-873 | two sets and a get after which the older body is served |
| `ResponseCache.OrderedEviction` | internal/responsecache/cache.go:951-967 | dropping a prefix of the expiry order never drops an entry that expires later than a survivor, and the last one dropped expires last of them |
| `ResponseCache.EvictionEnds` | internal/responsecache/cache.go:929-972 | when the loop stops the rest fits, and the last entry dropped would not fit back in |
| `ResponseCache.NothingEvicted` | internal/responsecache/cache.go:929-932 | items that fit already are all kept |
| `ResponseCache.FittingRunIsExact` | internal/responsecache/cache.go:628-774 | when all entries fit and all records are written, every hit of a run is the latest entry of its key, before the deadline fixed when it was stored |
| `ResponseCache.StoredStays` | internal/responsecache/cache.go:866-914 | an entry that has room beside the live items, or fits and expires after all of them, is in memory after a put |
| `ResponseCache.LastToExpireStays` | internal/responsecache/cache.go:929-972 | eviction spares an item that fits and expires after all others |
| `ResponseCache.SetThenGet` | internal/responsecache/cache.go:755-774 | a storable response without a deadline is found in memory, with its status, body and header and the deadline fixed when it was set, until its lease or that deadline ends; if its record was written and not swept it is found until the last second of its disk lifetime |
| `ResponseCache.HitThenHit` | internal/responsecache/cache.go:628-710 | after a memory hit, a get of the same key or of a live key of its session hits in memory until the renewed lease or the deadline ends |
| `ResponseCache.WrittenIsKept` | internal/responsecache/cache.go:755-774 | a storable response without a deadline whose record is written is kept with the deadline now plus the disk lifetime |
| `ResponseCache.SparedRunKeeps` | internal/responsecache/cache.go:628-774 | through every run without a sweep of the record, another response set for its key, or a get of it in its last second or under a smaller limit, it stays the latest entry of its key, and a get before its last second and within the limit hits |
| `ResponseCache.Cache.constructor` | internal/responsecache/cache.go:169-221 | a new cache has the given limits or their defaults, is empty, and agrees with its directory |
| `ResponseCache.Cache.Drop` | internal/responsecache/cache.go:929-972 | dropping a key subtracts exactly its size, never below zero, and unlinks its session |
| `ResponseCache.Cache.SweepMemory` | internal/responsecache/cache.go:916-927 | exactly the unexpired entries remain and the accounting stays exact |
| `ResponseCache.Cache.BumpMemoryExpiry` | internal/responsecache/cache.go:671-710 | a hit extends the entry and its live siblings and changes nothing but leases |
| `ResponseCache.Cache.SortedByExpiry` | internal/responsecache/cache.go:929-972 | every key once, in order of expiry |
| `ResponseCache.Cache.EnforceMemoryLimit` | internal/responsecache/cache.go:929-972 | the bytes end within the cap, nothing dropped expires later than a survivor, and the last entry dropped would not fit back in |
| `ResponseCache.Cache.PutMemory` | internal/responsecache/cache.go:866-914 | the put's outcome in every branch, with sum of sizes, cap and session index kept |
| `ResponseCache.Cache.GetDisk` | internal/responsecache/cache.go:1155-1204 | an unexpired, cacheable entry is returned; anything else is removed |
| `ResponseCache.Cache.Get` | internal/responsecache/cache.go:628-658 | a hit is the live memory entry or else the live disk entry, never at or after the disk deadline, and the latest entry set unless the key is in doubt; it renews the leases of its session; a key whose record is kept and whose deadline is ahead is not missed |
| `ResponseCache.Cache.Set` | internal/responsecache/cache.go:755-774 | a response that is not storable changes nothing; otherwise both tiers after the set, exact agreement afterwards exactly when neither tier keeps a stale copy, and agreement up to the keys in doubt and with the records kept always |
| `ResponseCache.Cache.ApplyOptions` | internal/responsecache/cache.go:223-257 | new limits with defaults, an emptied memory tier, and agreement kept when the directory stays |
| `ResponseCache.Cache.Step` | internal/responsecache/cache.go:628-774 | each operation, with any entry and any outcome of the disk write, refines the plain map; a hit is the latest entry unless the key is in doubt, and a key whose record is kept is not missed before its deadline |
| `ResponseCache.Cache.Run` | internal/responsecache/cache.go:628-774 | every sequential run refines the plain map: each hit is before the deadline of what it returns and returns the latest entry of its key unless a set has put the key in doubt, and a get misses only if the key was not set, its record was not written or was removed, or its whole-second deadline has passed |
| `AccountPool.TotalIsLeases` | internal/account/pool_limits.go:132-138 | counters that match the leases sum to the number of leases |
| `AccountPool.BumpPermutes` | internal/account/pool_acquire.go:126-135 | bumping permutes the queue |
| `AccountPool.BumpMovesForward` | internal/account/pool_acquire.go:126-135 | bumping another account moves an account forward by one exactly when the other was ahead of it |
| `AccountPool.PassedOverBound` | internal/account/pool_acquire.go:83-135 | an account that stays eligible is passed over by at most as many grants from the queue as its position, with targeted grants interleaved |
| `AccountPool.GrantedWithinQueueLength` | internal/account/pool_acquire.go:83-135 | in a legal list of grants such an account is granted within one queue length of grants from the queue |
| `AccountPool.RunIsLegal` | internal/account/pool_acquire.go:83-135 | the grants of every run of the pool go to the first eligible account whenever the queue is asked, and account for the queue |
| `AccountPool.AsksAreGranted` | internal/account/pool_acquire.go:83-124 | an account in the queue that is eligible whenever the queue is asked makes every such request succeed |
| `AccountPool.EligibleAccountIsServed` | internal/account/pool_acquire.go:83-135 | in every run without a reset, with targeted and preferred grants, releases, new limits and changes of health between, such an account is granted by the time the queue has been asked as often as it is long |
| `AccountPool.GrantsMayServe` | internal/account/pool_acquire.go:83-124 | a granted account is configured, enabled, healthy, not excluded and below both caps; a named account for which that holds is the one granted; nothing is granted only when it holds of no account asked for |
| `AccountPool.TotalBound` | internal/account/pool_limits.go:132-138 | accounts within the limit per account use at most that many slots times their number |
| `AccountPool.DerivedCapHasRoom` | internal/account/pool_limits.go:11-36 | a derived global cap is the limit per account times the number of accounts, and is not reached while an account is below its own limit |
| `AccountPool.GivenCap` | internal/account/pool_limits.go:11-36 | a given global limit is the cap, and a pool without accounts is capped at the limit per account |
| `AccountPool.TakenCounts` | internal/account/pool_limits.go:112-138 | a grant keeps the counters those of the leases and both caps |
| `AccountPool.EnabledAreQueued` | internal/account/pool_core.go:47-68 | exactly the enabled accounts are queued |
| `AccountPool.Pool.CurrentInUse` | internal/account/pool_limits.go:132-138 | the loop returns the sum of the counters |
| `AccountPool.Pool.CanAcquireId` | internal/account/pool_limits.go:112-130 | the guard over known, disabled, health, per-account cap and global cap |
| `AccountPool.Pool.BumpQueue` | internal/account/pool_acquire.go:126-135 | the first occurrence moves to the end |
| `AccountPool.Pool.Take` | internal/account/pool_acquire.go:92-94 | a grant adds one lease, held by the request, rotates the queue and stays within both caps |
| `AccountPool.Pool.TryAcquire` | internal/account/pool_acquire.go:109-124 | the first eligible account in the queue is granted; without one nothing changes |
| `AccountPool.Pool.Acquire` | internal/account/pool_acquire.go:83-98 | a target is granted exactly when it is eligible and no other account for it; without a target the first eligible account of the queue, or none when there is none |
| `AccountPool.Pool.AcquirePreferred` | internal/account/pool_acquire.go:100-107 | an eligible preferred account is granted, otherwise the first eligible one of the queue, or none when there is none |
| `AccountPool.Pool.Release` | internal/account/pool_core.go:140-157 | a release removes one lease of the account and wakes the first waiter, and without a lease changes nothing |
| `AccountPool.Pool.NotifyWaiter` | internal/account/pool_waiters.go:18-25 | the first waiter is closed and leaves the queue |
| `AccountPool.Pool.Enqueue` | internal/account/pool_acquire.go:30-36 | a request that was found room joins at the end with a new channel, and the queue stays within its size |
| `AccountPool.Pool.RemoveWaiter` | internal/account/pool_waiters.go:27-36 | the waiter leaves the queue and no other does |
| `AccountPool.Pool.DrainWaiters` | internal/account/pool_waiters.go:38-43 | every waiter is closed and the queue is empty |
| `AccountPool.Pool.Reset` | internal/account/pool_core.go:41-121 | a reset queues the enabled accounts, those with a token first, installs the limits, clears the slots and wakes every waiter |
| `AccountPool.Pool.ApplyRuntimeLimits` | internal/account/pool_limits.go:11-36 | new limits with their defaults, slots in use untouched, and the first waiter woken |
| `AccountPool.Pool.Run` | internal/account/pool_acquire.go:83-135 | every result of a run is the one the operations on values give |
| `AccountPool.Pool.WaitForSlot` | internal/account/pool_acquire.go:15-81 | whatever others do between attempts, the request ends holding one slot more or exactly what it held and leaves none of its channels in the queue; it goes without only when its context has ended or when no account can be had and it may not wait |
| `AccountPool.Pool.TryAccount` | internal/auth/request.go:224-256 | one round: a slot whose login fails is given back |
| `AccountPool.Pool.AcquireManaged` | internal/auth/request.go:215-259 | the request ends holding exactly one slot more on success and exactly what it held otherwise, with no channel of its own left in the queue; without success every account tried failed to log in, and it stopped because its context ended, all accounts were tried, it was refused, or its one account failed |
| `Routing.CountOnUpdate` | internal/proxyservice/router.go:51-68 | changing one account changes the counts of its old and new node only |
| `Routing.LeastAssignedRoute` | internal/proxyservice/router.go:395-415 | the chosen node precedes every other available node by count, latency and id |
| `Routing.BeforeIsLeastAssigned` | internal/proxyservice/router.go:395-426 | a node precedes another exactly when it has no more accounts and, with as many, has a measured latency that is not higher where the other has one, and the smaller id where latency does not decide |
| `Routing.AvailableIsRoutable` | internal/proxyservice/router.go:339-345 | an id is available exactly when it is not excluded and has a routable entry, and the last such entry gives its latency |
| `Routing.FindProxyFindsLast` | internal/proxyservice/router.go:154-165 | the fallback is missing exactly when no proxy has its id, and otherwise the last entry with the id decides |
| `Routing.MoveKeepsCounts` | internal/proxyservice/router.go:335-393 | the running counts stay equal to recomputed counts on available nodes |
| `Routing.MoveKeepsBalance` | internal/proxyservice/router.go:335-393 | a move to the least assigned node keeps every receiving node within one of the minimum |
| `Routing.Config.AssignmentCounts` | internal/proxyservice/router.go:308-324 | the loop counts the enabled accounts on each node that is not excluded |
| `Routing.Config.InOrder` | internal/proxyservice/router.go:335-393 | each index once, ordered by identifier |
| `Routing.Config.RouteOne` | internal/proxyservice/router.go:335-393 | one account of the pass: stays on an available node or moves to the least assigned one |
| `Routing.Config.ApplyAutoRouteChanges` | internal/proxyservice/router.go:335-393 | manual and disabled accounts and those without a password stay as they are, no account on an available node moves, moved tokens are cleared, a second pass changes nothing, every receiving node ends within one of the minimum count, and the changes reported are the moves in the order of the identifiers |
| `Routing.Config.MigrateManual` | internal/proxyservice/router.go:139-252 | manually routed accounts move to the fallback |
| `Routing.Config.MigrateAutomatic` | internal/proxyservice/router.go:139-252 | automatically routed accounts move to available nodes, balanced |
| `Routing.Config.ReassignDeleted` | internal/proxyservice/router.go:139-252 | refused exactly on an early objection, for that reason and with nothing changed; otherwise no account, enabled or disabled, stays on a deleted node or loses its route, and the changes reported are the moves of the enabled accounts, manual ones first; the late errors cannot occur |
| `Routing.Config.ReassignSubscriptionRemoved` | internal/proxyservice/router.go:259-306 | the same for nodes a subscription no longer lists, with balance, reasons and reported changes, and with the fallback cleared exactly when it goes and nobody needs it |
| `HistoryRollup.TallySums` | internal/chathistory/metrics.go:330-366 | the outcome classes of any rows sum to their number |
| `HistoryRollup.ClassesCount` | internal/chathistory/metrics.go:330-366 | each outcome class is the number of rows with its status and, among failed and stopped rows, its status code and finish reason |
| `HistoryRollup.TokensAdd` | internal/chathistory/sqlite_metrics.go:11-91 | each token total is the sum of its field over the rows that have tokens, and the requests are their number |
| `HistoryRollup.ModelTokensAdd` | internal/chathistory/sqlite_metrics.go:11-91 | the totals of a model are the totals of its rows |
| `HistoryRollup.NewerIsOrder` | internal/chathistory/sqlite_helpers.go:64-102 | the order rows are pruned by is a strict order in which only rows with the same two times are level |
| `HistoryRollup.NoRequestsNoTokens` | internal/chathistory/sqlite_helpers.go:112-136 | rows without counted requests carry no tokens, so skipping their rollup loses nothing |
| `HistoryRollup.KeptWithinLimit` | internal/chathistory/store.go:1125-1139 | the rows kept are within the limit, and below it for the maximum limit |
| `HistoryRollup.KeptExactly` | internal/chathistory/store.go:1125-1139 | 20,000 rows are cut to 500 under the largest or an unknown limit, fewer are left alone, the limits 10, 20 and 50 keep their number, and a disabled history keeps all |
| `HistoryRollup.OutcomesConserved` | internal/chathistory/sqlite_helpers.go:112-136 | rolling up the pruned rows leaves rollup plus retained outcomes unchanged |
| `HistoryRollup.TokensConserved` | internal/chathistory/sqlite_helpers.go:185-212 | the same for tokens, overall and per model |
| `HistoryRollup.AddByModel` | internal/chathistory/metrics.go:186-190 | per-model totals are added pointwise |
| `HistoryRollup.Accumulate` | internal/chathistory/sqlite_metrics.go:11-91 | the row loop adds exactly the rows' tokens, overall and per model |
| `HistoryRollup.TallyRows` | internal/chathistory/sqlite_metrics.go:144-181 | the row loop adds exactly the rows' outcomes |
| `HistoryRollup.PrunedMetrics` | internal/chathistory/sqlite_helpers.go:138-172 | the metrics of the rows to be pruned |
| `HistoryRollup.Store.OutcomeStats` | internal/chathistory/sqlite_metrics.go:144-204 | rollup plus retained rows, with classes that sum to the total |
| `HistoryRollup.Store.TokenUsageStats` | internal/chathistory/sqlite_metrics.go:11-91 | rollup plus retained rows, overall and per model |
| `HistoryRollup.Store.AddTokenRollup` | internal/chathistory/sqlite_helpers.go:185-212 | both rollup stores gain exactly the pruned rows |
| `HistoryRollup.Store.Prune` | internal/chathistory/sqlite_helpers.go:64-102 | a committed prune keeps all reported totals, keeps the newest rows and drops only rows that are no newer; a failed commit adds the pruned rows' tokens once more, overall and per model, when the separate token store is open, and keeps the totals exactly when it is not or there is nothing to count |
| `HistoryRollup.FailedPruneCountsTwice` | internal/chathistory/sqlite_helpers.go:185-212 | eleven rows under a limit of ten for which a failed prune reports one token more |
| `SelfUpdate.RerunAfterStop` | internal/selfupdate/staging.go:233-301 | confirming again after a stop gives the same markers exactly when the displaced release was recorded, or the stop was not between the two writes, or there was nothing to write |
| `SelfUpdate.RerunAfterStableApply` | internal/selfupdate/staging.go:233-301 | after an update applied under a stable tag every stop is harmless |
| `SelfUpdate.RerunCanLoseDisplaced` | internal/selfupdate/staging.go:262-281 | without the record a stop after the first write loses the displaced release |
| `SelfUpdate.ConfirmKeepsRollback` | internal/selfupdate/staging.go:233-301 | in every prefix of a confirmation a pending candidate keeps its rollback marker |
| `SelfUpdate.ConfirmStoppedTracks` | internal/selfupdate/staging.go:233-301 | what any number of stopped confirmations can have done so far |
| `SelfUpdate.UpdateSurvivesStops` | internal/selfupdate/staging.go:233-301 | however often confirmation is stopped and started over, with or without an attempt or a failed marker, the rollback marker is right while pending and the end is the new tag with the old one as previous |
| `SelfUpdate.RecoverStoppedTracks` | docker/entrypoint.sh:215-255 | what any number of stopped recoveries can have done so far |
| `SelfUpdate.QuarantinedFirst` | docker/entrypoint.sh:215-255 | once a recovery has done one operation the candidate is quarantined, whatever stops follow, and before that nothing has changed |
| `SelfUpdate.RecoveryRestarts` | docker/entrypoint.sh:209-256 | wherever the candidate died and however often recovery is stopped, the candidate is quarantined, the previous marker is as before the update and the running release is current again |
| `SelfUpdate.RollbackTwice` | internal/selfupdate/staging.go:183-227 | two rollbacks return to the start exactly when both releases can be started, or none was current and the previous one cannot be |
| `SelfUpdate.RollbackRerun` | internal/selfupdate/staging.go:183-227 | for a stop after any number of operations, rolling back again gives what one rollback gives exactly when nothing was written yet, or there was nothing to swap, or both markers were written and neither release can be started |
| `SelfUpdate.Manager.Apply` | internal/selfupdate/staging.go:112-181 | each result exactly by its cause, every marker after any combination of works, fails and stops, and a right rollback marker while pending, except in the one unguarded case |
| `SelfUpdate.Manager.ApplyThenStops` | internal/selfupdate/staging.go:112-301 | Apply stopped anywhere and then confirmation stopped any number of times: a candidate left pending with its record survives |
| `SelfUpdate.UnguardedApply` | internal/selfupdate/staging.go:173-178 | outcomes of the file operations after which a candidate is pending without its rollback marker |
| `SelfUpdate.UnguardedRollback` | internal/selfupdate/staging.go:219-224 | the same for a rollback |
| `SelfUpdate.Manager.UndoSidecars` | internal/selfupdate/staging.go:150-177 | what the cleanup removes when it works, fails or stops |
| `SelfUpdate.Manager.ConfirmStartup` | internal/selfupdate/staging.go:233-301 | each result exactly by its cause: ignored, mismatched, promoted when the release is staged and every operation up to the commit works and no cleanup stops, failed when the first operation that does not work fails; every marker after any combination of outcomes, a kept rollback marker, and before the commit a prefix of the three writes |
| `SelfUpdate.Manager.Rollback` | internal/selfupdate/staging.go:183-227 | each result exactly by its cause, every marker after any combination of outcomes, and exactly when a pending candidate loses its guard |
| `PromptXml.ReadOne` | internal/prompt/tool_calls.go:306-314 | a section whose body has no terminator is read as that body, even when it ends in brackets |
| `PromptXml.ReplaceFirst` | internal/prompt/tool_calls.go:310-312 | the first terminator ends one section after its brackets and opens the next before its last character |
| `PromptXml.RenderedTextReadsBack` | internal/prompt/tool_calls.go:306-314 | every text is read back from its rendering as consecutive CDATA sections, none of which contains the terminator |
| `PromptXml.RenderTextInjective` | internal/prompt/tool_calls.go:306-314 | different texts render differently |
| `PromptXml.OneSectionPerTerminator` | internal/prompt/tool_calls.go:306-314 | a non-empty text renders as one section more than it has terminators, and the empty text as none |
| `PromptXml.EscapedAttributeReadsBack` | internal/prompt/tool_calls.go:320-330 | every attribute value is read back from its escaped form |
| `Compress.TurnStartCounts` | internal/promptcompat/prompt_compress.go:129-139 | exactly n turns follow from the n-th user message from the end |
| `Compress.CompressedIsWindow` | internal/promptcompat/prompt_compress.go:109-151 | a cut leaves the leading system run and a suffix that starts at a user message and holds exactly max(keepRecent, 1) turns |
| `Compress.SmallerWindowIsSuffix` | internal/promptcompat/prompt_compress.go:109-151 | the window of fewer turns is a suffix of the window of more turns |
| `Compress.CompressTwice` | internal/promptcompat/prompt_compress.go:227-255 | compressing in steps gives what compressing once to the smaller window gives |
| `Compress.DropLeadingOrphanToolResults` | internal/promptcompat/prompt_compress.go:94-100 | exactly the leading tool results are dropped |
| `Compress.SplitLeadingSystem` | internal/promptcompat/prompt_compress.go:114-124 | the list is cut after its leading system run |
| `Compress.TurnStarts` | internal/promptcompat/prompt_compress.go:129-134 | the loop collects the user messages, the n-th from the end at the n-th place from the end |
| `Compress.KeptWindow` | internal/promptcompat/prompt_compress.go:139-145 | a window cut at a user message loses nothing and is not empty |
| `Compress.CompressMessages` | internal/promptcompat/prompt_compress.go:109-151 | the result is the window, and something is dropped exactly when there are more turns than kept |
| `Compress.CompactMessages` | internal/promptcompat/prompt_compress.go:158-178 | whole turns are dropped, at least one, exactly when there is more than one |
| `Compress.CompressForRotation` | internal/promptcompat/prompt_compress.go:185-215 | a message window of twice the turns kept, at least two, is cut exactly when there are more messages; it is never empty, loses only leading tool results, and starts with one only when it is that one alone |
| `Compress.UnitsAreUtf16` | internal/promptcompat/prompt_compress.go:15-20 | the length of a text is the number of its UTF-16 code units, from which the text is read back |
| `Compress.CompressToFit` | internal/promptcompat/prompt_compress.go:227-255 | changed exactly when compression is on, the prompt has more UTF-16 units than the limit of its kind of model, expert or default, and there is more than one turn; then cut to the largest number of turns tried that fits, or to one turn; it fits afterwards exactly when some number tried fits |
| `ToolRepair.RepairCallSettles` | internal/promptcompat/tool_message_repair.go:206-244 | a repaired call is left alone by repair and waits under a non-empty id and name |
| `ToolRepair.ConsumeReplays` | internal/promptcompat/tool_message_repair.go:292-328 | a matched result has a non-empty id, and matching it again takes the same waiting call |
| `ToolRepair.ConsumeTakes` | internal/promptcompat/tool_message_repair.go:292-341 | a result whose final id belongs to a waiting call takes exactly one such call; any other takes none, and only when nothing waits, or it has its own id, its name fits none and several wait |
| `ToolRepair.Repairer.RecordPendingToolCalls` | internal/promptcompat/tool_message_repair.go:270-290 | the calls are appended to the waiting ones in order |
| `ToolRepair.Repairer.ConsumePendingToolCall` | internal/promptcompat/tool_message_repair.go:292-328 | matching by id, then by name, then the only or first one, then a generated id |
| `ToolRepair.Repairer.RepairToolCall` | internal/promptcompat/tool_message_repair.go:206-244 | a named call in the canonical shape that keeps name, arguments and own id (`ToolRepairCalls.RepairCallKeeps`), with a generated id only when it has none, and nothing for a call without a name |
| `ToolRepair.Repairer.RepairToolCalls` | internal/promptcompat/tool_message_repair.go:183-204 | the named calls repaired in order and recorded |
| `ToolRepair.Repairer.RepairAssistantContentBlocks` | internal/promptcompat/tool_message_repair.go:80-120 | calls and texts of the content blocks, and no change when there is no call |
| `ToolRepair.Repairer.RepairToolResultMessage` | internal/promptcompat/tool_message_repair.go:246-268 | the canonical tool message for a result |
| `ToolRepair.Repairer.RepairToolResultsFromContent` | internal/promptcompat/tool_message_repair.go:122-170 | texts and results split in order, or nothing |
| `ToolRepair.Repairer.RepairToolMessage` | internal/promptcompat/tool_message_repair.go:37-78 | the branch taken for each role and type |
| `ToolRepair.RepairToolMessages` | internal/promptcompat/tool_message_repair.go:20-35 | the loop computes the repair of the whole list, of which the lemmas of the modules beside it say what it keeps |
| `ToolRepairTwice.MessageStays` | internal/promptcompat/tool_message_repair.go:37-78 | what a message is repaired to stays as it is and leaves the same calls waiting |
| `ToolRepairTwice.RepairTwice` | internal/promptcompat/message_normalize.go:11-13 | a second repair changes nothing exactly when no result wraps a result block twice, for every list in which calls that share an id share a name |
| `ToolRepairLedger.MessagePosted` | internal/promptcompat/tool_message_repair.go:37-78 | books of calls and answers kept on the emitted messages move as the repair's waiting calls do |
| `ToolRepairLedger.EachCallAnsweredOnce` | internal/promptcompat/tool_message_repair.go:270-341 | read on its own, the repaired list makes the calls the repair made, its results answer the calls the repair matched, in the same order and each at most once, and what is left open is what waits |
| `ToolRepairTwice.ResultsKeptWithIds` | internal/promptcompat/tool_message_repair.go:246-268 | every result keeps its content and its order, none is added, and each has a non-empty id |
| `ToolRepairCalls.TrimCuts` | internal/prompt/tool_calls.go:51-55 | trimming cuts white space from both ends and nothing else |
| `ToolRepairCalls.SpaceIsWhiteSpace` | internal/prompt/tool_calls.go:51-55 | the characters trimmed are those with the property White_Space of the Unicode standard |
| `ToolRepairCalls.FoldIsLowerCase` | internal/promptcompat/tool_message_repair.go:80-94 | folding replaces each capital letter by its small one and nothing else |
| `ToolRepairCalls.NameReads` | internal/promptcompat/tool_message_repair.go:206-225 | the name of a call is the first text that is not blank among its name fields, and else among those of its function |
| `ToolRepairCalls.ArgumentsRead` | internal/promptcompat/tool_message_repair.go:226-241 | the arguments of a call are the first field present among its argument fields, and else among those of its function |
| `ToolRepairCalls.StringifyReads` | internal/prompt/tool_calls.go:47-68 | arguments become their trimmed text, the encoding of another value, or an empty object |
| `ToolRepairCalls.RepairCallKeeps` | internal/promptcompat/tool_message_repair.go:206-244 | a repaired call has the name and arguments of the call and its own id if it has one |
| `ToolRepairCalls.CallsKeptWithArguments` | internal/promptcompat/tool_message_repair.go:20-78 | the calls in the emitted messages are the named calls of the input in order, each with its name, its arguments as text, and its own id or else a generated one |
| `ToolRepairCalls.ResultsKeptWithContents` | internal/promptcompat/tool_message_repair.go:246-268 | the tool messages carry in order the contents of the results of the input, each found in the first content field present and once more inside a result block |
| `ToolRepairCalls.AssistantTextsKept` | internal/promptcompat/tool_message_repair.go:80-120 | an assistant message with calls among its blocks is emitted with what the other blocks say, in order, as its content; any other keeps its content |
| `ToolRepairCalls.SplitTextsKept` | internal/promptcompat/tool_message_repair.go:122-170 | the text messages split off beside results together say what the text blocks say, in order |
| `ToolRepairCalls.SplitContentTextsKept` | internal/promptcompat/tool_message_repair.go:122-170 | no text of a message with results is lost, and the text messages have its role, a developer's being a system's and a missing one a user's |
| `ToolRepairIds.GeneratedIdInjective` | internal/promptcompat/tool_message_repair.go:330-333 | different counts generate different ids |
| `ToolRepairIds.RepairTwiceDistinctIds` | internal/promptcompat/request_normalize.go:22 | ids that are distinct and not of the generated form are enough for the equivalence above |
| `ToolRepairClash.UnbreakableReplays` | internal/promptcompat/tool_message_repair.go:292-328 | waiting calls that are not breakable give every list of results the same ids and names twice |
| `ToolRepairClash.BreakableDoesNotReplay` | internal/promptcompat/tool_message_repair.go:292-328 | for breakable calls a given list of results is not given the same twice |
| `ToolRepairClash.ResultsReplay` | internal/promptcompat/tool_message_repair.go:20-78 | after a message with calls, results are repaired the same twice exactly when their matching replays |
| `ToolRepairClash.UnbreakableCalls` | internal/promptcompat/tool_message_repair.go:20-78 | calls of a message may be followed by any results unless a call shares its id with an earlier one of another name and at least two calls have other names than it has |
| `ToolRepairClash.BreakableCalls` | internal/promptcompat/tool_message_repair.go:20-78 | such calls can be followed by results that a second repair changes |
| `ToolRepairClash.TwoCallsAreHarmless` | internal/promptcompat/tool_message_repair.go:20-78 | two calls alone may be followed by any results, whatever their ids and names |
| `ToolRepairClash.GeneratedIdCanCollide` | internal/promptcompat/tool_message_repair.go:330-333 | a concrete list with distinct ids that a second repair changes |

## Left out

- HTTP handlers, routers, CORS, request guards, the admin API and JWT code: thin branching around input and output.
- SQLite, gzip, JSON encoding, temporary files and renames: abstract maps, or atomic steps that work, fail or stop.
- Cache-key normalisation, session-key hashing and affinity bindings: library calls and plain map updates.
- Hit, miss and path counters of the cache, the disk size limit and header sanitisation: easy members.
- Per-path cache policies: the lifetimes are those of one policy.
- Waiter liveness in the account pool: one waiter is woken per release, so no such claim holds.
- Account targets that are not in identifier form: acquiring counts under the raw text and releasing under the identifier.
- Health expiry in the account pool: whether an account is blocked is a field that other operations set.
- The subscription download and the update closure of its refresh: parsing and field-by-field copying.
- Time windows and success rates of the statistics, and statistics per account: the same loops over a filter.
- Opening the history before the token store is attached: agreement of the rollups is stated from where both are open.
- Marker files with unreadable contents and an invalid active version: each marker is absent or a canonical tag.
- The entrypoint's choice of the release to start: only its recovery of a failed candidate is modelled.
- Upstream login, server-sent events, process control, archive download and extraction: foreign calls.
- Letter case outside ASCII in roles, types and tool names: folding is that of ASCII letters.
- Pow.SolvePow: the clock is not modelled; cancellation is an arbitrary predicate on the nonces at which it is checked.
- AccountPool.Pool.AcquireManaged: whether a login works is a fixed predicate on accounts, because a login is a foreign call.
- Compress.CompressToFit: the prompt builder is a function of the messages, because the request's other fields do not change.
- ToolRepairTwice.RepairTwice: for lists in which one id has two names, the exact condition is given for the calls of one message and the results after it, in ToolRepairClash; for several messages with such calls it is not.
- AccountPool.Pool.Reset: does not refresh the health entries, because health is a field that other operations set; the accounts' order and the limits are modelled.
- AccountPool.Pool.WaitForSlot: other goroutines may do anything meanwhile except reset the pool, because a reset forgets every lease.
