# Verification of go_memoize

A Dafny model of `go_memoize`: a memoizing cache with time-to-live, stale-while-revalidate and
stale-on-error policies, its in-memory LRU and sharded stores, its argument hashing, the tiered
store, and the background publisher and mirrors. Code that changes state step by step is modelled
by classes and loops proved against specification functions; concurrent code by transition systems
whose theorems hold on every run.

`dafny verify dfyconfig.toml` checks everything.

## How the files fit together

- `Envelope`: cache entries, their fresh / stale / expired states, expiration policies. `Sets`: sizes of
  finite sets.
- `LruSpec`, `LruTheorems`, `LruInclusion`: a plain LRU cache as a sequence of entries from least to
  most recently used, what holds on every run of it, and when one such cache holds a part of what
  another one does. `LruSampling`: which hits of a run refresh recency. `LruRing`, `LruSlots`,
  `LruStore`: the array-backed store with its circular list, hash index and byte counter. Each method
  equals the `LruSpec` step of the same name, so every theorem about `LruSpec` runs is one about the
  store.
- `Words`, `Hashing`, `Sharding`: bits, 64-bit FNV-1a (section 2, FNV Basics, of
  draft-eastlake-fnv), shard counts and routing. `PairHashing`: over which types the hash of two
  arguments is injective. `StringHashing`: what the hash of a key depends on, strings in particular.
  `ShardedSpec`, `ShardedStore`, `ShardedTheorems`: the sharded store and its runs.
- `Flights`, `FlightRegistry`: the table of flights (one computation shared by all who wait for it)
  and the objects that hold it. `Engine`: `GetOrCompute`, `Get` and `Set` for any number of threads,
  one atomic step per critical section, clock reading, store call and computation. `EngineSafety`,
  `EngineTransparency`, `EngineProgress`, `EngineWindow`, `EngineOverlap`: the theorems on its runs.
  `EngineFates`, `EngineOutcomes`: on every run, which steps each call, each `Get`, each `Set` and each
  flight owes its result to.
  `EngineRenewal`, `EngineBelated`: whether values from before a `Delete` or a `Set` can be served after
  it. `EngineSolo`: how runs with a given effect are built.
- `CacheSpec`, `Cache`: the same cache used by one caller at a time, over the LRU store.
  `EngineAlone`: a call that has its key to itself in the transition system does what the sequential
  cache does. `EngineSequential`: such runs exist. `Options`: what `New` accepts.
- `DirectStore`, `Memoize`: the direct memoizers from arguments to answers.
- `Chain`: the tiered store. `Publish`, `Background`: the publisher and its mirrors.

## What the code does not do

Properties that fail are stated with the exact condition under which they hold.

- Memoizers key their cache by a 64-bit hash only. `RightIffInjective`: a memoizer is right for every
  function exactly if its hash is injective on its arguments. `Memoize1RightIff`: with one argument,
  exactly if that is no string. `Memoize2RightIff`: with two, exactly if neither is a string or a
  64-bit integer, the second is no boolean, not both are signed and not both have 32 bits. A boolean
  replaces the accumulator instead of mixing into it (`hashing.go:106-107`) and so hides the first
  argument; a 64-bit argument makes up for any difference in the other; two strings of the same hash
  exist for every seed; and over signed integers every pair whose first one is even has a partner:
  (0, 0) and (-2, -2) share a cache entry (`SignedPartner`).
- A background refresh does not look again whether its entry is fresh by now, so two readers of one
  stale entry can start two refreshes, one after the other (`StaleWindowOverlaps`). At most one
  computation per window is guaranteed exactly without a stale window (`OncePerWindowIff`).
- `docs/API.md:158` calls stale-on-error meaningful only with a stale window and describes it as
  serving stale entries. The code serves an entry after an error exactly if that entry has expired,
  with or without a stale window (`KeepStaleMattersWhenExpired`), as `docs/CONCEPTS.md:41` says;
  stale entries are served before anything is computed.
- A stale deadline that falls exactly on the zero instant counts as no stale window (`Timeline`).
- A store's capacity is truncated to 32 bits; `Set` on a store truncated to zero slots panics.
- A sharded store splits its byte limit, and a share of zero bytes means no limit. The limit as a
  whole is kept exactly if it covers one entry per shard (`ByteLimitKeptIff`, for every key type with a
  key in each shard, such as 64-bit integers); a key type of few keys may do with less
  (`FewKeysKeepLimit`).
- `Delete`, `Clear` and `Set` do not cancel what is in progress for the key: a value computed before can
  be stored or published afterwards, and be served. It cannot exactly if at that moment no computation
  for the key is under way and no older value is on its way to the store or to waiters
  (`ServesOnlyNewIff`, `DeleteIsFinalIff`).
- `nextPowerOfTwoInt` overflows above 2^62.
- A larger LRU store holds on every run what a smaller one holds exactly if, besides, the smaller has
  a single slot, or both refresh recency on every hit, or they have the same size and sampling
  interval (`InclusionIff`; a byte limit counts as the number of entries it covers).
- A tiered `Set`, `Delete` or `Clear` that fails half way leaves the tiers at odds unless those from
  the failing one on hold nothing else for the key (`FailedSetCoherentIff`, `FailedDeleteCoherentIff`,
  `FailedClearCoherentIff`); so a value half written can be seen and then lost again
  (`FailedSetGoesBack`).

## Assumptions

- The clock never goes back where `EngineWindow` says so; elsewhere it may read anything.
- A compute function ends and does not call the cache for its own key.
- A panic in a background refresh ends the process, because `refresh` does not recover.
- Each locked section, store call and atomic load or store is one step.
- The values of the byte cost are arbitrary and non-negative; theorems that need a constant cost,
  which is what `entryBytes` yields for fixed key and value types, say so.
- The tiers of a chain are distinct, and a failing call of a tier leaves the entry in question as it
  was. The register that a publisher writes to has no other writer while it runs, and a write
  through that fails takes effect during the call or not at all.

## Model

| member | source | states |
|---|---|---|
| Envelope.Timeline | stored.go:23-34 | an entry sealed by `Set` is fresh through its ttl, stale through its stale window, expired afterwards, with boundaries included; the zero-instant exception |
| Envelope.AgesMonotonically | stored.go:23-34 | as time passes any entry only goes from fresh to stale to expired |
| LruRing.UnlinkRing | stores/memory/store.go:224-236 | bypassing any slot of a ring of two or more leaves a ring of exactly the others in order, head included |
| LruRing.LinkRing | stores/memory/store.go:209-222 | linking a slot in makes it the most recent of a ring that is otherwise the same; also for the empty list |
| LruRing.RepointRing | stores/memory/store.go:262-277 | after an element moved to another slot, redirecting its neighbours gives the same ring through the new slot, also when it is its own neighbour |
| LruRing.Neighbours | stores/memory/store.go:209-236 | next and prev are inverse around the ring, and the head's next is the least recent slot |
| LruSlots.RemoveEntry | stores/memory/store.go:246-260 | taking a slot off the list removes exactly its entry from the recency order and its cost from the byte sum |
| LruSlots.RemovePayload | stores/memory/store.go:246-260 | swapping in the last entry keeps the live slots contiguous and the index a bijection |
| LruSlots.MoveLast | stores/memory/store.go:252-258 | moving the last entry into the hole keeps the ring and the recency order |
| LruSlots.TouchEntry | stores/memory/store.go:238-244 | moving a slot to the front moves exactly its entry to the recent end |
| LruStore.New | stores/memory/store.go:36-55 | panics exactly for a capacity that is not positive; otherwise an empty store with the capacity truncated to 32 bits |
| LruStore.Store.constructor | stores/memory/store.go:36-55 | a new store is in order and empty |
| LruStore.Store.LinkFront | stores/memory/store.go:209-222 | the slot becomes the most recent one of the ring |
| LruStore.Store.UnlinkLRU | stores/memory/store.go:224-236 | exactly that slot leaves the ring, self-loops included |
| LruStore.Store.RepointMoved | stores/memory/store.go:262-277 | the links of the moved element and of its neighbours end up as those of the ring through its new slot |
| LruStore.Store.RemoveAt | stores/memory/store.go:246-260 | for every position exactly that entry goes, the others keep their recency order, and index, links, contiguity and byte count stay right |
| LruStore.Store.MoveToFront | stores/memory/store.go:238-244 | the entry becomes the most recent one and nothing else changes |
| LruStore.Store.RefreshOnGet | stores/memory/store.go:101-107 | recency is refreshed on every n-th counted hit, the counter wrapping at 2^64 |
| LruStore.Store.Get | stores/memory/store.go:57-69 | returns the stored entry, and touches it if the hit is a sampled one |
| LruStore.Store.Peek | stores/memory/store.go:71-80 | returns the stored entry and changes nothing |
| LruStore.Store.PeekFreshValue | stores/memory/store.go:82-99 | hits exactly fresh entries; only such a hit counts and touches |
| LruStore.Store.Delete | stores/memory/store.go:148-155 | exactly the entry of the key goes |
| LruStore.Store.EvictOldest | stores/memory/store.go:123-125 | the evicted entry is the least recent one |
| LruStore.Store.EnforceBytes | stores/memory/store.go:136-140 | the loop ends and evicts from the least recent end until the limit holds or one entry is left |
| LruStore.Store.MakeRoomFor | stores/memory/store.go:123-125 | the loop ends and evicts from the least recent end until the entry fits; it reads out of bounds exactly with no slots |
| LruStore.Store.Set | stores/memory/store.go:109-134 | the whole store after an insert or an update is that of the plain LRU; panics exactly with no slots |
| LruStore.Store.Clear | stores/memory/store.go:157-168 | no entry is left, every slot is cleared, the hit counter stays |
| LruStore.Store.Len | stores/memory/store.go:170-176 | the number of entries |
| LruStore.Store.UsedBytes | stores/memory/store.go:178-184 | the counter is the sum of the costs of the entries |
| LruStore.Store.DeleteByTag | stores/memory/store.go:187-198 | the loop ends; exactly the untagged entries are left, in their order |
| LruTheorems.PutIsEvictThenAppend | stores/memory/store.go:109-140 | inserts and updates follow one rule: take the key out, evict until the entry fits, append it |
| LruTheorems.EvictsAsFewAsPossible | stores/memory/store.go:123-125 | evicted entries are a least recent prefix, and the shortest one that makes the entry fit |
| LruTheorems.PutKeepsLimits | stores/memory/store.go:109-140 | the entry just set survives its own evictions, within the limits |
| LruTheorems.RunKeepsLimits | stores/memory/store.go:109-198 | on every run keys are distinct, the capacity holds, and the byte limit too unless a single entry exceeds it |
| LruTheorems.RefinesLossyMap | stores/memory/store.go:57-198 | every operation is that of a map that may only forget on `Set`, and never the key just set |
| LruTheorems.ByteLimitIsItemLimit | stores/memory/store.go:113-145 | with a constant cost a byte limit is on every run the item capacity min(cap, max(1, maxBytes / cost)) |
| LruTheorems.UpdateNeverEvicts | stores/memory/store.go:114-121 | with a constant cost replacing a value evicts nothing |
| LruSampling.HitsCounted | stores/memory/store.go:101-107 | unless recency is exact the counter of the store is on every run the number of hits so far modulo 2^64: `Get`s of held keys and `PeekFreshValue`s of fresh entries |
| LruSampling.SampledRecency | stores/memory/store.go:57-107 | on every run the h-th hit makes its entry the most recent one exactly if the sampling interval divides h (modulo 2^64), and otherwise leaves the order alone |
| LruSampling.OtherReads | stores/memory/store.go:57-99 | misses, `Peek`s and `PeekFreshValue`s of entries that are not fresh change nothing on any run |
| LruInclusion.ExactInclusion | stores/memory/store.go:57-198 | with recency refreshed on every hit and no byte limit, the store of smaller capacity always holds a recency-order subsequence of the larger one, with equal entries |
| LruInclusion.PlainInclusion | stores/memory/store.go:57-198 | inclusion without a byte limit on every run, whatever entries cost, whenever the condition of the next rows holds |
| LruInclusion.PlainInclusionIff | stores/memory/store.go:57-198 | without a byte limit inclusion holds on every run exactly if the capacity is no larger and the smaller store has one slot, or both refresh on every hit, or size and sampling agree |
| LruInclusion.InclusionIff | stores/memory/store.go:101-145 | the same with byte limits and the constant cost of `entryBytes`, in terms of effective capacities |
| Hashing.MixUnmix | hashing.go:133-140 | mixing a word into the accumulator is invertible, whatever the word |
| Hashing.HashString | hashing.go:114-130 | the unrolled loop equals the byte-at-a-time fold for every seed and string |
| Hashing.FoldConcat | internal/hash/hash.go:13-25 | hashing two strings in turn is hashing their concatenation |
| Hashing.FoldBijective | internal/hash/hash.go:13-25 | for each string, hashing is a bijection on seeds, with its inverse |
| Hashing.ToWordInjective | hashing.go:80-99 | conversion to 64 bits loses nothing within one integer type |
| Hashing.Hash1Injective | hashing.go:34-36 | the hash of one integer or boolean argument is injective |
| Hashing.MixEqual | hashing.go:133-140 | two mixes agree exactly if inputs and accumulators differ in the same bits |
| Hashing.Hash2Collides | hashing.go:40-42 | exactly which pairs of integer arguments collide |
| PairHashing.WideSecond | hashing.go:40-42 | any two first arguments collide for some 64-bit second ones, signed or unsigned |
| PairHashing.WideFirst | hashing.go:40-42 | any two second arguments but booleans collide for some 64-bit first ones |
| PairHashing.SignedPartner | hashing.go:40-42 | over two signed types of any widths every pair with an even first integer has the hash of another pair |
| PairHashing.BothOf32 | hashing.go:40-42 | over two 32-bit types, not both signed, some pairs collide |
| PairHashing.StringsCollide | hashing.go:114-130 | for every seed two different strings have the same hash |
| PairHashing.NearProducts | hashing.go:133-140 | words that agree in their upper bits are not multiplied to words that agree in the complementary number of upper bits |
| PairHashing.PairsCollide | hashing.go:40-42 | every pair of types of the listed kinds has a collision |
| PairHashing.PairsApart | hashing.go:40-42 | every other pair of types has none: equal hashes only for equal arguments |
| StringHashing.AlikeApart | hashing.go:114-130 | strings that differ at most in two adjacent bytes, by a replaced byte or two swapped neighbours for instance, have different hashes for every seed |
| StringHashing.KeysApart | internal/hash/hash.go:38-73 | `hash` and `Comparable` tell apart any two such strings, and any two keys of one integer, floating-point or boolean type |
| StringHashing.SeedsApart | hashing.go:76-111 | both depend on all that was hashed before, except that a boolean hides it in `hash` |
| StringHashing.TestVectors | hashing.go:114-130 | the published FNV-1a values of the empty string and of "a" |
| Hashing.BooleanHidesFirst | hashing.go:106-107 | a boolean in second place makes the hash independent of the first argument, unlike in `internal/hash` |
| Hashing.StringBoundaryLost | hashing.go:40-42 | moving the boundary between two string arguments does not change the hash |
| Hashing.RouteSurjective | internal/hash/hash.go:27-29 | every word is the routing hash of some 64-bit key |
| Sharding.NextPowerOfTwo | stores/memory/sharded.go:155-167 | up to 2^62 the least power of two not below n, above it the overflow |
| Sharding.PowerOfTwoTest | stores/memory/sharded.go:32-34 | n & (n - 1) is zero exactly for powers of two |
| Sharding.ChooseShards | stores/memory/sharded.go:28-40 | panics exactly for a request that is no power of two; otherwise the largest power of two within request (or default) and capacity |
| Sharding.ShardIndexInRange | stores/memory/sharded.go:62-65 | the masked hash of every key is the index of a shard |
| Sharding.ShardReached | stores/memory/sharded.go:62-65 | up to 2^48 shards every shard is used by some key |
| Sharding.ShardIndexBits | stores/memory/sharded.go:62-65 | the shard is given by the bits of the hash from bit 16 on |
| Sharding.SharesAddUp | stores/memory/sharded.go:42-55 | the shares of a limit add up to it, and each is at least one if there are no more shards than units |
| Sharding.SharesEven | stores/memory/sharded.go:42-55 | they differ by one at most, the larger ones first |
| ShardedStore.Sharded.constructor | stores/memory/sharded.go:42-59 | the loop builds separate empty shards whose limits are the shares of the limits |
| ShardedStore.Sharded.New | stores/memory/sharded.go:20-60 | panics exactly for a capacity that is not positive or a count that is no power of two; otherwise empty shards, as many as possible |
| ShardedStore.Sharded.Shard | stores/memory/sharded.go:62-65 | the shard of a key exists |
| ShardedStore.Sharded.Get | stores/memory/sharded.go:67-69 | the answer of the key's shard, and no other shard changes |
| ShardedStore.Sharded.Peek | stores/memory/sharded.go:71-73 | the entry of the key's shard; nothing changes |
| ShardedStore.Sharded.PeekFreshValue | stores/memory/sharded.go:75-77 | hits exactly a fresh entry of the key's shard; no other shard changes |
| ShardedStore.Sharded.Set | stores/memory/sharded.go:79-81 | the LRU step on the key's shard and on no other; panics exactly if that shard has no slots |
| ShardedStore.Sharded.Delete | stores/memory/sharded.go:83-85 | the key goes from its shard, and no other shard changes |
| ShardedStore.Sharded.Clear | stores/memory/sharded.go:87-94 | all shards become empty |
| ShardedStore.Sharded.DeleteByTag | stores/memory/sharded.go:113-120 | tagged entries go from all shards |
| ShardedStore.Sharded.Len | stores/memory/sharded.go:97-103 | the sum over the shards |
| ShardedStore.Sharded.UsedBytes | stores/memory/sharded.go:105-111 | the sum over the shards |
| ShardedTheorems.SharesUsable | stores/memory/sharded.go:42-48 | below 2^32 every shard has a slot, so that no `Set` panics |
| ShardedTheorems.ShardsAreLrus | stores/memory/sharded.go:41-120 | on every run each shard is the plain LRU cache, with its share of the limits and the sampling interval of the store, that meets the operations on its keys and on all keys |
| ShardedTheorems.RunRouted | stores/memory/sharded.go:62-120 | on every run every shard is within its limits and every key is in the shard of its hash only |
| ShardedTheorems.RefinesOneMap | stores/memory/sharded.go:62-120 | on every run the whole store is one map that may forget, and `Set` disturbs its own shard only |
| ShardedTheorems.LenCountsKeys | stores/memory/sharded.go:97-103 | on every run `Len` is the number of distinct keys that lookups find |
| ShardedTheorems.LenWithinCapacity | stores/memory/sharded.go:42-48 | on every run `Len` is at most the capacity of the whole store |
| ShardedTheorems.BytesWithinLimit | stores/memory/sharded.go:49-55 | on every run the byte limit as a whole holds if it covers one entry per shard |
| ShardedTheorems.ByteLimitKeptIff | stores/memory/sharded.go:49-55 | over a key type with a key in every shard, exactly then: otherwise some run over keys of that type exceeds it |
| ShardedTheorems.WideReachesAll | stores/memory/sharded.go:62-65 | 64-bit integers have a key in every shard, for up to 2^48 shards |
| ShardedTheorems.FewKeysKeepLimit | stores/memory/sharded.go:79-111 | on no run are more bytes held than the cost of one entry for each key that was set |
| FlightRegistry.FlightObject.Wait | cache.go:18-24 | a follower gets the value and error, or the panic value, of the flight |
| FlightRegistry.Registry.constructor | options.go:28-32 | no flights at first |
| FlightRegistry.Registry.StartFlight | cache.go:129-140 | leader exactly if no flight is registered for the key; otherwise the registered flight and no change |
| FlightRegistry.Registry.Lookup | cache.go:117-121 | finds exactly the registered flight |
| FlightRegistry.Registry.FinishFlight | cache.go:142-150 | value and error published, key given up, waiters released, other flights untouched |
| FlightRegistry.Registry.FinishPanickedFlight | cache.go:152-160 | the same with the panic value |
| EngineSafety.ApplyKeepsSafe | cache.go:117-204 | every step keeps: one leader per unfinished flight, registered flights are unfinished and have their key, returned results are those of their flights |
| EngineSafety.ExecSafe | cache.go:117-339 | every reachable state is safe, for any number of threads and keys |
| EngineSafety.SingleFlight | cache.go:129-140 | at most one thread at a time leads a key, foreground or background |
| EngineSafety.ExecEvolves | cache.go:142-160 | along every run each flight gets its outcome once, is released once and never changes again |
| EngineSafety.FollowerFate | cache.go:162-166 | a follower is still waiting or has returned exactly the outcome of the flight it joined, whatever flights came later |
| EngineSafety.FinishingNeverWrites | cache.go:142-178 | on every run a thread whose computation is over only finishes, and none of its steps writes the store |
| EngineSafety.FailureLeavesStore | cache.go:168-200 | a computation that fails or panics leaves the store as it is, and on every run that follows its thread never writes it |
| EngineTransparency.ApplyTruthful | cache.go:206-339 | every honest step keeps all stored, published and returned values right for their keys |
| EngineTransparency.ExecTruthful | cache.go:206-339 | the same for every run, whatever the notion of a right value |
| EngineTransparency.Transparency | cache.go:276-339 | if computations for k yield f(k), every value any call returns for k is f(k), under every interleaving, eviction, failure and fallback |
| EngineProgress.StepDecreases | cache.go:117-339 | every step of a thread brings the end nearer, refreshes included |
| EngineProgress.StepsAreBounded | cache.go:117-339 | without new calls threads take only a bounded number of steps, however the clock moves and whatever the store loses |
| EngineProgress.NeverStuck | cache.go:117-178 | while a call has not returned some thread can step; a waiter's leader is not itself waiting |
| EngineProgress.RegisteredKeyHasLeader | cache.go:142-178 | no error or panic leaves a key registered without a live leader |
| EngineProgress.NothingLeftBehind | cache.go:142-160 | when all calls have returned no key is registered and all flights are released |
| EngineProgress.RunsToCompletion | cache.go:162-204 | from every reachable state all calls can return, unless a background panic ends the process |
| EngineWindow.ApplyOnTime | cache.go:239-252 | every quiet step keeps the windows of a key apart and the stored value at least as long-lived as its window |
| EngineWindow.ExecOnTime | cache.go:239-333 | the same for every quiet run |
| EngineWindow.ComputeBeginsAfterWindow | cache.go:315-333 | without a stale window a computation begins only after every earlier window of its key has ended |
| EngineWindow.ComputeRate | cache.go:315-333 | a key is computed at most once per ttl + 1 time units, and at most once without expiration |
| EngineOverlap.StaleWindowOverlaps | cache.go:180-204 | with a stale window some run computes a key twice in one window |
| EngineOverlap.OncePerWindowIff | cache.go:180-204 | at most one computation per window on every quiet run, exactly without a stale window |
| EngineFates.CallFate | cache.go:276-339 | every call on every run, wherever it is: the clock reading, the early look at the flights, the entry read, and the flight joined or started are those of steps of that run, and only a leader or a bypassed call has computed |
| EngineFates.CallReturns | cache.go:276-339 | what it returns is the error of a failing store; or the fresh or stale value read; or the outcome of the flight that was registered when it joined, or that it led since none was, settled with the expired value read exactly under stale-on-error |
| EngineFates.StaleReadReturns | cache.go:303-311 | a call whose entry read finds a stale entry never waits: on every run it returns that value, whatever flights there are, by a step of its own |
| EngineFates.FailedReadReturns | cache.go:288-302 | whenever the store fails a read of a call, that call returns exactly that error on every run, and neither computes nor touches store or flights |
| EngineOutcomes.LeaderFate | cache.go:162-204 | the outcome of a flight on every run is the store's error, a fresh value found by the second look, the failure of the computation, or its value once written, sealed at the clock reading of the write; or the error of that write |
| EngineOutcomes.AnythingCanHappen | cache.go:315-333 | a computation may end in any way and the store fail at any read or write of a leader, which then publishes exactly that error |
| EngineOutcomes.AnyoneCanCall | cache.go:206-276 | calls, `Get`s and `Set`s can begin at any time |
| EngineOutcomes.WindowsAreRecorded | cache.go:239-252 | the windows of the next theorems are recorded by successful writes of leaders alone; `LeaderFate` gives their bounds |
| EngineOutcomes.GetFate | cache.go:206-230 | every `Get` on every run: a value exactly if the store shows an entry that is fresh at the clock reading, or the store's error |
| EngineOutcomes.SetFate | cache.go:232-252 | every `Set` on every run writes the value sealed at its clock reading in one step that changes nothing else of the store, or returns the store's error |
| EngineSolo.SoloMiss | cache.go:315-333 | the run of one call that finds nothing, and its whole effect |
| EngineSolo.SoloRefresh | cache.go:180-204 | the run of one refresh after a stale read, and its whole effect |
| EngineAlone.AloneStep | cache.go:276-339 | while a call has its key to itself, every step of the call, of its refresh and of threads on other keys keeps it on the way to the sequential result |
| EngineAlone.AloneIsSequential | cache.go:276-339 | on every run on which a call has its key to itself, whatever other threads do with other keys and with any clock, its result and the entry of the key are those of the sequential cache for three clock readings of the run in order |
| EngineSequential.AloneReturns | cache.go:276-339 | from every state without a flight for the key such a run exists, however the computation ends |
| EngineRenewal.ThreadStepRenewed | cache.go:117-339 | every step of a thread keeps older values of the key out of the store, out of joinable flights and away from newer calls |
| EngineRenewal.ServesOnlyNew | cache.go:232-339 | if no computation or write of the key is outstanding, every call begun afterwards is served, on every run and by whichever way, the stored value or one set or begun to be computed afterwards |
| EngineBelated.OutstandingIsServed | cache.go:315-333 | otherwise, with a clock that may read anything, some run without any further Set or new computation serves the outstanding value to a later call |
| EngineBelated.ServesOnlyNewIff | cache.go:232-339 | from any state only the stored value and later ones are served, exactly if nothing is outstanding for the key |
| EngineBelated.DeleteIsFinalIff | cache.go:254-270 | after a `Delete` or a `Clear` only values made later are served, exactly if nothing is outstanding for the key |
| CacheSpec.CallIsReference | cache.go:276-339 | `GetOrCompute` in terms of the entry and its age alone: what is returned; writes exactly on successful computations; recency exactly on fresh hits |
| CacheSpec.KeepStaleMattersWhenExpired | cache.go:334-337 | stale-on-error makes a difference exactly for an error behind an expired entry |
| CacheSpec.OneCallAgrees | cache.go:101-115 | one call over an LRU store of any size and over a map that forgets what the store evicts: same result, same entries; its own key is never forgotten |
| CacheSpec.OneUseAgrees | cache.go:206-270 | the same for one `Set`, `Get`, `Delete` or `Clear` as well; the last three lose nothing else |
| CacheSpec.FastPathIsPlain | cache.go:101-115 | on every sequential run of calls, `Set`s, `Get`s, `Delete`s and `Clear`s and in a store of any size the fast path over the LRU store agrees with the plain path over a map that forgets what the store evicts |
| CacheSpec.FastPathWithRoom | cache.go:101-115 | with room for all keys in use nothing is forgotten |
| Cache.Cache.constructor | options.go:27-32 | a cache over a store in order starts with no flight in progress |
| Cache.Cache.Set | cache.go:232-252 | the envelope written has the deadlines of the policy; nothing is written in bypass mode |
| Cache.Cache.Get | cache.go:206-230 | returns exactly fresh values; a stale or expired entry is a miss and is not touched |
| Cache.Cache.Delete | cache.go:254-263 | exactly the entry of the key goes |
| Cache.Cache.Clear | cache.go:265-270 | no entry is left |
| Cache.Cache.Recheck | cache.go:315-333 | a leader returns a value that has become fresh meanwhile; otherwise computes and stores exactly a success |
| Cache.Cache.EndFlight | cache.go:142-160 | however the computation ended, its outcome is published, the key given up and the waiters released |
| Cache.Cache.Do | cache.go:162-178 | joins exactly a flight in progress, without any effect; otherwise leads one that is over, with its outcome, after a value, an error or a panic |
| Cache.Cache.RunRefresh | cache.go:185-203 | the goroutine stores exactly a success, without looking again, and ends its flight |
| Cache.Cache.Refresh | cache.go:180-204 | nothing happens if a flight is in progress; otherwise one refresh runs, and an unrecovered panic crashes |
| Cache.Cache.GetOrCompute | cache.go:276-339 | without a flight for the key: result and store of `CacheSpec.Call`, and none left registered; during one nothing is computed or written: a fresh entry is returned and touched, a stale one returned at once (with a stale window or stale-on-error), and any other call waits, to fall back on exactly an expired entry under stale-on-error |
| Options.New | options.go:27-61 | succeeds exactly for the option combinations that describe a cache; otherwise the error is the first that applies; the policy of a cache that caches is valid |
| Options.MergedFlags | direct_options.go:105-113 | each flag is set exactly if some option sets it |
| Options.MergedTTL | direct_options.go:98-101 | the ttl is that of the last option that has one |
| Options.MergedStaleTTL | direct_options.go:102-104 | the same for the stale window |
| Options.MergedStore | direct_options.go:90-97 | the same for the store |
| DirectStore.Store.constructor | direct_store.go:14-16 | empty at first |
| DirectStore.Store.Get | direct_store.go:18-23 | finds exactly the stored entry |
| DirectStore.Store.PeekFreshValue | direct_store.go:25-34 | hits exactly when the fresh-peek step of the transition system does |
| DirectStore.Store.Set | direct_store.go:36-41 | the entry of the key, and of no other, is replaced |
| DirectStore.Store.Delete | direct_store.go:43-48 | the entry of the key, and of no other, goes |
| DirectStore.Store.Clear | direct_store.go:50-55 | no entry is left |
| Memoize.InjectiveIsRight | memoize.go:23-39 | with an injective hash every call returns f of its argument, or fails if computations may, on every run |
| Memoize.CollisionIsWrong | memoize.go:23-39 | with a collision there is a function and a run on which a call returns the value of another argument |
| Memoize.RightIffInjective | memoize.go:23-39 | a memoizer is right for all functions and runs exactly if its hash is injective on its arguments |
| Memoize.Memoize1IsRight | memoize.go:23-39 | `Memoize1` and `Memoize1E` over an integer type or booleans are right on every run, without any assumption on collisions |
| Memoize.Memoize1ToldApart | memoize.go:23-39 | over arguments of which any two are told apart, such as strings that differ in one byte, `Memoize1` is right on every run |
| Memoize.Memoize1RightIff | memoize.go:23-39 | ... and over strings they are not |
| Memoize.Memoize2RightIff | memoize.go:41-57 | over exactly which pairs of integer, boolean and string types `Memoize2` is right for every function on every run |
| Chain.New | stores/chain/store.go:18-23 | panics exactly for fewer than two tiers; otherwise keeps them in order |
| Chain.ChainStore.constructor | stores/chain/store.go:18-23 | keeps the tiers in their order |
| Chain.ChainStore.Backfill | stores/chain/store.go:33-35 | the tiers above the hit, and no others, are written, failures ignored |
| Chain.ChainStore.Get | stores/chain/store.go:25-41 | the answer of the first tier that fails or has the key, and the state of every tier afterwards |
| Chain.ChainStore.Set | stores/chain/store.go:43-50 | succeeds exactly if all tiers do; tiers beyond the first failing one are untouched |
| Chain.ChainStore.Delete | stores/chain/store.go:52-59 | the same for a deletion |
| Chain.ChainStore.Clear | stores/chain/store.go:61-68 | the same for clearing |
| Chain.StepCoherent | stores/chain/store.go:25-68 | every operation whose writes succeed keeps all tiers that hold a key at the intended value |
| Chain.RunCoherent | stores/chain/store.go:25-68 | the same on every run, whatever tiers evict and whichever reads and backfills fail |
| Chain.NeverOverwrittenOrDeleted | stores/chain/store.go:25-41 | `Get` then returns the last value set or nothing, never an overwritten or deleted one |
| Chain.RunSame | stores/chain/store.go:25-68 | on every run without failing writes a tier from which no call evicts the key holds it exactly if it was set and not deleted since, with the last value: no operation disturbs other keys |
| Chain.GetFinds | stores/chain/store.go:25-41 | so with one such tier and no failing read `Get` finds the key exactly then |
| Chain.GetHeals | stores/chain/store.go:30-37 | a hit in a tier is written to every tier above it unless that write fails or evicts it; no other key and no tier below is touched |
| Chain.SetEffect | stores/chain/store.go:43-50 | what every tier has for every key after a `Set` that fails at some tier or nowhere |
| Chain.DeleteEffect | stores/chain/store.go:52-59 | the same for a `Delete` |
| Chain.FailedSetCoherentIff | stores/chain/store.go:43-50 | after a failing `Set` the chain is coherent exactly if no tier from the failing one on holds another value |
| Chain.FailedDeleteCoherentIff | stores/chain/store.go:52-59 | after a failing `Delete` the key is forgotten exactly if no tier from the failing one on holds it |
| Chain.FailedClearCoherentIff | stores/chain/store.go:61-68 | after a failing `Clear` the chain is empty exactly if the failing tier has evicted all and those behind it held nothing |
| Chain.FailedSetGoesBack | stores/chain/store.go:43-50 | a run on which a value half written is read and then lost to its predecessor |
| Publish.StepOk | background/background.go:19-116 | every step keeps all copies genuine and readers behind register and writer |
| Publish.OnlyLoadedValues | background/background.go:19-116 | on every run each local value is one the writer loaded, and no reader is ahead of the writer |
| Publish.NeverBackwards | background/background.go:38-48 | on every run no local value ever goes back to an earlier one, whatever fails or is lost |
| Publish.FailuresKeepValues | background/background.go:92-113 | failed loads, failed or missing reads, ignored write errors and lost entries change no local value; only a first failure ends a goroutine |
| Publish.CancelIsFinal | internal/refreshloop/refreshloop.go:24-40 | a goroutine can be stopped whenever it waits for a tick, and stays as it is on every run that follows |
| Publish.PollCatchesUp | background/background.go:92-107 | after a write-through that took effect, a successful poll brings the reader up to the writer |
| Publish.PositionsDoNotMatter | background/background.go:19-116 | no step depends on the positions that the other theorems speak of |
| Background.Value.Get | background/value.go:14-25 | the stored value, or the zero value before the first |
| Background.Value.Store | background/value.go:27-29 | replaces the value |
| Background.TickRuns | internal/refreshloop/refreshloop.go:24-40 | handling one tick is a run of the protocol with the local value and the register it should have |
| Background.OnTick | background/background.go:38-48 | one tick of the writer: local value, refresh callback, write-through, in the protocol |
| Background.Keep | background/background.go:19-51 | nothing without a first value; then the local value is the last one loaded, callbacks see the success or failure of the first load and of every tick once, and the run is one of the protocol; without a positive interval no tick is handled |
| Background.MirrorsRound | background/background.go:92-113 | a poll of a reader, between any steps of others, is a run of the protocol that stores exactly what the register holds |
| Background.Mirror | background/background.go:71-116 | as `Keep`, for a reader each of whose polls reads the register, whatever others do in between; misses are not reported as errors; the run is one of the protocol |

## Left out

- Redis and local stores and the serializers: network, files and encodings. To the engine a store is
  one whose reads and writes may fail; to the chain, one that may also evict.
- The examples (HTTP servers around the library), `metrics/` (hit and latency counters), `loader/` (a
  first-load flag on top of the refresh loop), `stores/memory/single.go` (a store of one entry) and
  the option builders, which copy a struct and set a field.
- Real clocks, tickers, timeouts and contexts: the clock is a value that steps change, and a
  timed-out computation is one that fails.
- The Go memory model below the level of locked sections, `runtime.Goexit`, and compute functions
  that call the cache for their own key.
- The remaining memoizers (`Memoize3` to `Memoize7`, and the `MemoizeCtx` family): the same shape over
  the same cache, with the same hash.
- Concurrent use of a chain: its operations are not atomic, and a racing backfill breaks coherence.
- Overflow of the 64-bit byte counter; integers of 32-bit platforms; keys of unsupported types, on
  which the code panics; floating-point keys beyond their hash; negative byte limits, which mean no
  limit, as zero does.
- Recency in the transition system: its store is a map from which entries may vanish at any
  time, which covers every store; the effect on recency is stated for one caller at a time.
- ShardedStore.Sharded.New: assumes that 16 times the number of processors is at most 2^62.
- LruStore.Store.UsedBytes: counts an arbitrary non-negative cost per entry, not `unsafe.Sizeof`.
- Cache.Cache.Set: the sequential cache is over a store with at least one slot; `LruStore.Store.Set` says
  what happens without.
- `hasTag`: its loop is sequence membership.
- PairHashing.PairsApart: leaves floating-point arguments out, whose equality is not that of their bits.
- Chain.ChainStore.Get: like the other operations of a chain, for tiers that are different objects; the
  same tier listed twice is not modelled.
