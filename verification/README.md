# A verified model of the serving engine's host-side bookkeeping

The serving engine answers requests for one large language model. Before any kernel runs,
host code decides which tokens are computed next, where their keys and values are stored,
who owns those pages, and what is told to the user. This project models that host code in
Dafny and proves that it keeps its own books.

There are four groups.

**Paged, prefix-shared ownership.** `RadixTree`, `RadixLocks`, `PrefixMap`, `RadixSteps`,
`RadixRoom` and `RadixCache` model the radix tree over page-aligned token prefixes. A ghost
map labels every node with its full path, so the tree refines a flat map from stored
prefixes to pages (`FlatOf`); splits change nothing of it, inserts only add to it and
evictions remove exactly the evicted segments. `PagePool`, `PoolSpec` and `KvPool` model the
page pool: five lanes (full tokens, sliding window, two compressed lanes and the indexer)
with reference counts, free lists, maps from full pages and the ownership version.
`Ownership`, `PoolOwnership`, `CacheSteps`, `Paging` and `CacheManager` prove that in every
lane each page has exactly one owner - the free list, one entry of the tree, the private
tail of one request, or the hands of the running call - and that therefore no double-free,
missing-mapping or integrity error can be raised. What a lock does not do is stated too:
storing one request can take the window pages of another that shares its prefix
(`CacheSteps.StoreTakesFromOthers`).

**The overlapped scheduler.** `RequestLife`, `SchedulerSteps` and `Scheduler` model the loop
that issues forward k + 1 before it reads forward k, with aborts, end-of-sequence tokens,
chunked prompts and slot reuse in between. `ServingSteps` and `Serving` run that loop
together with the cache manager: every cache call of the loop meets its precondition, rows
and locks are held by exactly the requests that hold table slots, no forward in flight ever
attends to a position of its own pages whose window page was released, and an iteration
fails only if a lane is short of more pages for the chosen batch than are left to evict.
`Reasoning` models the grammar mask and why it is right although the host lags by one token.
`FairPrefill`, `Prefill`, `PhasePolicy`, `BatchChoice` and `ProgressLedger` model the fair
budget split, the prefill queue and the prefill/decode arbiter, up to a bound on how long any
prompt waits and to how far prompts that are served together can drift apart.
`WholeLoop` puts queue, arbiter and server together: the queue's pass admits its prompts
through the cache, the server issues exactly that pass, the queue lists exactly the requests
that wait, and the engine is never idle while one waits and nobody holds a slot. `Turns`
bounds the iterations until a request whose prompt has been issued is finished. `Lockstep`
models the message broadcast between ranks as interleaved steps.

**Index and layout algorithms.** `RoutePlan` is the block-padded expert routing, `Hadamard`
the in-place butterfly, `CompressedSlots` the addresses of compressed slots, `PackedCache`
the packed FP8 pages.

**Weights.** `WeightLoader` is the streaming merge and pack of tensors in any order.

Classes stand for the objects the program mutates, their methods are proved against
functions on values, and what the program promises is proved about those functions. Nodes
and requests are records in maps keyed by the program's own ids. A raised error is a `None`,
a `Raised` or a false `ok`. `Bags`, `Arithmetic` and `Options` are helpers.

## Model

| member | source | states |
|---|---|---|
| RadixTree.SplitKeepsFlat | python/minisgl/kvcache/radix_cache.py:90-125 | a split leaves every stored prefix with its indices and its component and window pages |
| RadixTree.SplitByUpdates | python/minisgl/kvcache/radix_cache.py:90-125 | the field updates in the program's order produce exactly the split tree |
| RadixTree.AttachExtendsFlat | python/minisgl/kvcache/radix_cache.py:206-267 | linking a leaf adds the leaf's segment to the stored map, disjoint from it, and nothing else |
| RadixTree.DetachShrinksFlat | python/minisgl/kvcache/radix_cache.py:269-300 | removing a leaf removes exactly its segment; attach undoes it |
| RadixTree.CoverUnique | python/minisgl/kvcache/radix_cache.py:588-614 | every stored prefix is held by one node |
| RadixLocks.ParentDominates | python/minisgl/kvcache/radix_cache.py:181-198 | a parent's count is at least its child's |
| RadixLocks.LockKeepsRefs | python/minisgl/kvcache/radix_cache.py:181-198 | locking a path adds one to the count of exactly its nodes and keeps all counts right |
| RadixLocks.UnlockKeepsRefs | python/minisgl/kvcache/radix_cache.py:181-198 | unlocking undoes it |
| RadixLocks.SplitKeepsRefs | python/minisgl/kvcache/radix_cache.py:90-125 | the copied count is right for both halves of a split |
| RadixLocks.EvictableHasLeaf | python/minisgl/kvcache/radix_cache.py:269-300 | while the evictable size is positive there is an unlocked leaf |
| PrefixMap.LongestMatchIsLongest | python/minisgl/kvcache/radix_cache.py:588-614 | no longer prefix than the one found is stored |
| PrefixMap.LongestMatchUnique | python/minisgl/kvcache/radix_cache.py:588-614 | there is only one longest match |
| PrefixMap.TreePrefixClosed | python/minisgl/kvcache/radix_cache.py:588-614 | with a prefix all its shorter prefixes are stored |
| RadixCache.RadixPrefixCache.SplitAt | python/minisgl/kvcache/radix_cache.py:90-125 | splitting in place keeps the stored map, all node paths, locks and sizes |
| RadixCache.RadixPrefixCache.TreeWalk | python/minisgl/kvcache/radix_cache.py:588-614 | finds a node for the longest stored prefix; only splits |
| RadixCache.RadixPrefixCache.MatchPrefix | python/minisgl/kvcache/radix_cache.py:200-204 | the handle covers the longest stored prefix up to the deepest boundary with a live window page |
| RadixCache.RadixPrefixCache.SafeMatchBoundary | python/minisgl/kvcache/radix_cache.py:559-586 | the ownership filter stops at the deepest node boundary with a live window tail |
| RadixCache.RadixPrefixCache.InsertPrefix | python/minisgl/kvcache/radix_cache.py:206-267 | stored cells keep their pages, only the new suffix is added, the result is the length stored before |
| RadixCache.RadixPrefixCache.LockHandle | python/minisgl/kvcache/radix_cache.py:181-198 | adds or removes one handle from the locked ones; evictable and protected sizes stay exact |
| RadixCache.RadixPrefixCache.CollectLeaves | python/minisgl/kvcache/radix_cache.py:365-378 | returns all unlocked leaves |
| RadixCache.RadixPrefixCache.Evict | python/minisgl/kvcache/radix_cache.py:269-300 | raises exactly for more than the evictable size; otherwise returns at least the size, but less without the last node, keeps every locked path, removes just the evicted nodes and never runs out of leaves |
| RadixCache.RadixPrefixCache.ReleaseHead | python/minisgl/kvcache/radix_cache.py:380-460 | releases one lane of all but the last blocks of a handle's path, also of nodes it has to split, and returns exactly the live pages there |
| RadixCache.RadixPrefixCache.ReleaseEvictableSwaPages | python/minisgl/kvcache/radix_cache.py:462-481 | takes window pages from unlocked leaves only, until enough are free or no such leaf has any |
| RadixCache.RadixPrefixCache.GetMatchedPages | python/minisgl/kvcache/radix_cache.py:135-163 | a handle's pages are those stored along its path, root first |
| RadixCache.RadixPrefixCache.EvictablePages | python/minisgl/kvcache/radix_cache.py:514-538 | the walk visits every node once and counts the live full pages, or the blocks, of exactly the stored cells that no locked path runs through |
| RadixRoom.SpareIsFlat | python/minisgl/kvcache/radix_cache.py:514-538 | so the count depends only on the stored map and the locked paths, not on how the tree is cut into nodes |
| RadixRoom.SpareUnderLock | python/minisgl/kvcache/radix_cache.py:181-198 | a further lock takes at most its own blocks from it |
| RadixSteps.SpareBlocks | python/minisgl/kvcache/radix_cache.py:525-538 | counted in blocks the walk gives the evictable size the tree keeps |
| RadixCache.RadixPrefixCache.CheckIntegrity | python/minisgl/kvcache/radix_cache.py:312-363 | the integrity walk over a well-formed tree visits every node once and passes exactly when the root is locked, no count is negative and both recorded sizes are the sums over the nodes |
| PagePool.LivePagesCounted | python/minisgl/kvcache/deepseek_v4_pool.py:1100-1204 | pages off the free list are exactly the referenced ones |
| PagePool.AllocAllMap | python/minisgl/kvcache/deepseek_v4_pool.py:1530-1554 | distinct full pages are mapped to the head of the free list in order, all other entries stay |
| PagePool.AllocAllKeeps | python/minisgl/kvcache/deepseek_v4_pool.py:1530-1554 | allocation keeps counts and free list in agreement, and the map injective into pages in use |
| PagePool.ReleaseAllMap | python/minisgl/kvcache/deepseek_v4_pool.py:1689-1696 | release clears every map entry of the released pages and keeps the others |
| PoolSpec.StepKeeps | python/minisgl/kvcache/deepseek_v4_pool.py:1413-1463 | one returning call keeps the window lane in order and raises the version when the map changes |
| PoolSpec.RunKeeps | python/minisgl/kvcache/deepseek_v4_pool.py:1413-1463 | every run of returning calls keeps each window page free with count 0 or used with count 1, the map injective, the dummy pinned and the totals balanced |
| PoolSpec.EqualStampsEqualMaps | python/minisgl/attention/deepseek_v4.py:1042-1055 | two states of a run with equal ownership versions have equal full-to-window maps |
| PoolSpec.AllocPagesKeeps | python/minisgl/kvcache/deepseek_v4_pool.py:1057-1070 | allocation of full pages keeps all five lanes in order |
| PoolSpec.FreePagesKeeps | python/minisgl/kvcache/deepseek_v4_pool.py:1072-1098 | so does freeing them, with or without their component and window pages |
| PoolSpec.ReleaseComponentKeeps | python/minisgl/kvcache/deepseek_v4_pool.py:1385-1411 | so does the release of component handles; the released pages join the free list once |
| PoolSpec.AllocRaises | python/minisgl/kvcache/deepseek_v4_pool.py:1530-1554 | window pages cannot be allocated exactly without enough free ones, or for a full page that is outside the pool or mapped already |
| PoolSpec.ReleaseCounts | python/minisgl/kvcache/deepseek_v4_pool.py:1413-1438 | releasing window handles raises exactly for a page not in use; otherwise each distinct page counts once, as freed and as tombstoned, and the version moves once, or twice if the map pointed to one |
| PoolSpec.ComponentRaises | python/minisgl/kvcache/deepseek_v4_pool.py:1385-1411 | releasing component handles raises exactly for a page not in use |
| PoolSpec.PagesRaise | python/minisgl/kvcache/deepseek_v4_pool.py:1057-1070 | the allocation callback raises exactly when a lane lacks free pages or a full page is outside the pool or has a page of some lane |
| KvPool.KvCachePool.AllocateSwa | python/minisgl/kvcache/deepseek_v4_pool.py:1530-1554 | the in-place update is the allocation function; fails exactly when that is undefined |
| KvPool.KvCachePool.ReleaseSwaPageHandles | python/minisgl/kvcache/deepseek_v4_pool.py:1413-1438 | the same for released window handles, double frees included |
| KvPool.KvCachePool.ReleaseSwaForFullPages | python/minisgl/kvcache/deepseek_v4_pool.py:1440-1463 | the same for window pages looked up by full pages |
| KvPool.KvCachePool.AllocateComponents | python/minisgl/kvcache/deepseek_v4_pool.py:1556-1612 | the same for the three component lanes |
| KvPool.KvCachePool.ReleaseComponentPageHandles | python/minisgl/kvcache/deepseek_v4_pool.py:1385-1411 | the same for component handles |
| KvPool.KvCachePool.OnPagesAllocated | python/minisgl/kvcache/deepseek_v4_pool.py:1057-1070 | the whole allocation callback; does nothing when no page starts inside the pool, otherwise raises exactly without free pages or for pages in use or out of range |
| KvPool.KvCachePool.OnPagesFreed | python/minisgl/kvcache/deepseek_v4_pool.py:1072-1098 | the whole free callback; raises exactly for pages that are not held |
| Ownership.HandlesInUse | python/minisgl/kvcache/deepseek_v4_pool.py:1701-1719 | handles in hand are distinct pages in use, so releasing them cannot be a double free |
| Ownership.LostIsReleased | python/minisgl/scheduler/cache.py:371-389 | a page that a cell has lost is among the released ones |
| PoolOwnership.FreeHeld | python/minisgl/scheduler/cache.py:295-300 | freeing held full pages with their lanes keeps one owner per page and cannot raise |
| PoolOwnership.TakeEvicted | python/minisgl/scheduler/cache.py:391-433 | all pages of evicted nodes pass from the tree to the caller, once |
| PoolOwnership.TakeHead | python/minisgl/scheduler/cache.py:371-389 | a released head gives up its full pages only; component and window pages keep the tree as owner |
| PoolOwnership.AllocHeld | python/minisgl/scheduler/cache.py:279-293 | pages from the free list get fresh pages of every lane and cannot be in use |
| PoolOwnership.TreeTakes | python/minisgl/scheduler/cache.py:140-229 | a request's pages pass to the inserted tree segment with exactly the lanes they are mapped to |
| Paging.MatchByBlocks | python/minisgl/kvcache/radix_cache.py:84-88 | the common token prefix aligned down to pages is the common block prefix |
| Paging.BlocksOfPrefix | python/minisgl/scheduler/cache.py:140-163 | blocks of a token prefix are the first blocks of the sequence |
| Paging.ValidPages | python/minisgl/scheduler/cache.py:302-317 | filtering a row's locations keeps exactly the locations of its live pages, in order |
| CacheManagement.CacheManager.constructor | python/minisgl/scheduler/cache.py:56-85 | at the start every page is free and owned once |
| CacheManagement.CacheManager.TryAllocateOne | python/minisgl/scheduler/prefill.py:138-169 | matches the longest usable stored prefix and admits exactly when what the request may still need, on top of what is reserved, fits into the room that is left while that prefix is locked; an admitted request holds the lock and the prefix's pages, a refusal leaves requests and locks as they were |
| CacheManagement.CacheManager.MatchReq | python/minisgl/scheduler/cache.py:87-92 | the handle of the longest usable stored prefix of the prompt: of the whole blocks that leave a token of it, as many as are stored, and of these up to the deepest node boundary with a live window page; stored pages and requests stay as they are |
| CacheManagement.CacheManager.AvailableSize | python/minisgl/scheduler/cache.py:94-119 | what it gives fits, once all that no lock runs through is evicted, into the full lane, by its live pages, and into every component lane; and one of these lanes has no more |
| CacheManagement.CacheManager.OnlyWindowShort | python/minisgl/scheduler/cache.py:94-119 | a batch whose pages fit into the available size can be short of nothing but window pages |
| CacheSteps.AdmitsMeans | python/minisgl/scheduler/prefill.py:138-169 | admission spelled out, in both directions: the whole sequence and what is reserved fit into the stored prefix and what is free or evictable beside it, by live full pages and by component pages |
| CacheSteps.StillRefused | python/minisgl/scheduler/prefill.py:138-169 | a prompt that does not fit does not fit later in the pass either, while prefixes are only locked and tokens only reserved |
| CacheManagement.CacheManager.RefusedUnused | python/minisgl/scheduler/prefill.py:138-169 | while no request holds a row, only what needs more tokens than all pages hold is refused |
| CacheManagement.CacheManager.AllocatePaged | python/minisgl/scheduler/cache.py:127-138 | every row of the batch grows by exactly the pages its new positions need; fails only when eviction cannot make up for a lane |
| CacheManagement.CacheManager.EvictForCapacity | python/minisgl/scheduler/cache.py:391-433 | the capacity loop ends for every state with enough pages of all lanes, or with some lane short by more than is evictable |
| CacheManagement.CacheManager.EvictRound | python/minisgl/scheduler/cache.py:391-433 | one round of it shrinks the tree or its window pages, or there is not enough left; nothing is evicted while only window pages are short and an unlocked leaf has some |
| CacheManagement.CacheManager.CacheReq | python/minisgl/scheduler/cache.py:140-229 | stores the request's blocks, frees duplicates once, releases behind the window and behind the last block, exchanges the lock, and leaves every page with one owner; which cell keeps which page is stated for the whole stored map, and of the stored blocks only the tail of the window has window pages and only the last one a full page |
| CacheSteps.NothingLiveBelow | python/minisgl/scheduler/cache.py:173-199 | below the request's frontier no inserted block has a live window page, so the frontier error cannot be raised and tombstoning changes nothing |
| CacheSteps.StoredWindow | python/minisgl/scheduler/cache.py:140-229 | a stored block has a window page afterwards exactly if it had one - in the tree, or the request's own if the tree did not have the block - and lies in the kept tail |
| CacheSteps.StoreSpares | python/minisgl/scheduler/cache.py:333-340 | storing takes no window page from the request itself that a forward starting where the result ended, or later, attends to |
| CacheSteps.StoreTakesFromOthers | python/minisgl/kvcache/radix_cache.py:421-460 | it leaves the window of another request with a locked stored prefix whole exactly if it does not run through the block where that window begins and end behind it by more than the kept tail |
| CacheSteps.SharedPrefixLoses | python/minisgl/kvcache/radix_cache.py:421-460 | an input where it does not: window two, pages of one token, a locked block that the next forward attends to, and four stored blocks that begin with it |
| CacheManagement.CacheManager.ReleaseActiveSwa | python/minisgl/scheduler/cache.py:342-369 | afterwards no own block that ends a window and a page or more in front of the device length has its window page; every position that loses its page is more than a window and a page behind it, own pages keep theirs exactly from the frontier on, and no other request loses any; also for an older frontier |
| CacheManagement.CacheManager.OwnWindowPage | python/minisgl/scheduler/cache.py:342-369 | in every state a request's own page has its window page exactly from the request's frontier on |
| CacheSteps.ReleasedIsBelow | python/minisgl/scheduler/cache.py:342-369 | what moving the frontier releases lies below the attention window of every forward that starts behind it |
| CacheManagement.CacheManager.ReleaseFullHead | python/minisgl/scheduler/cache.py:371-389 | exactly the live full pages in front of the last block join the free list |
| CacheManagement.CacheManager.ReleaseOutOfWindow | python/minisgl/scheduler/cache.py:333-340 | window pages of the path in front of the window and one page are released, the rest of the tree is unchanged |
| CacheManagement.CacheManager.EndLazyFree | python/minisgl/scheduler/cache.py:260-277 | pages freed in a lazy region reach the free list at its end, in order |
| CacheManagement.CacheManager.CheckIntegrity | python/minisgl/scheduler/cache.py:231-258 | the walk over the tree, the page count and the pool's own checks are run; together they pass exactly when free and used pages add up to all pages, and outside a lazy region they always do |
| RequestLife.AtMostOneToken | python/minisgl/scheduler/scheduler.py:459-478 | one batch holds at most one sample of a request |
| SchedulerSteps.IssuedOk | python/minisgl/core.py:40-60 | issuing a chunk, the last prompt part or a decode step keeps lengths, epochs and grammar |
| SchedulerSteps.ProcessedOk | python/minisgl/scheduler/scheduler.py:247-328 | processing a result keeps them; a terminal request without outstanding forwards can be retired |
| SchedulerSteps.HostLag | python/minisgl/core.py:101-172 | host and device differ by the samples in flight, at most two; an active request has room for each of them and stays within the admitted length |
| SchedulerSteps.ActiveGoesOn | python/minisgl/core.py:131-172 | an active request has tokens left and has not met the end of sequence it respects; it waits exactly until its prompt has been issued, runs exactly as long as the tokens on the host and those in flight are fewer than it may have, and so waits, runs or has a sample in flight |
| SchedulerSteps.SlotPartition | python/minisgl/scheduler/table.py:1-21 | free slots and the slots of unretired issued requests partition the table, and both owner tags name the holder |
| SchedulerSteps.ReleasedOnce | python/minisgl/scheduler/scheduler.py:390-425 | resources are given back at most once, for a retired request, with no forward of it outstanding |
| SchedulerSteps.RepliesTell | python/minisgl/scheduler/scheduler.py:283-318 | the replies to a request carry the tokens on the host in order, at most the admitted number; a reply is the last one exactly if it is the end of sequence the request respects or the last token admitted, says which, and reports prompt and completion tokens; nothing follows it |
| SchedulerSteps.GeneratedKeepsGrammar | python/minisgl/engine/sample.py:21-62 | every generated sequence has no opening marker, no end of sequence while thinking and at most one closing marker |
| SchedulerSteps.NextInSequence | python/minisgl/core.py:139-141 | the forwards of a request in flight compute consecutive positions: each starts where the one before ended, the last ends at what is computed |
| SchedulerSteps.RestStartsLater | python/minisgl/scheduler/scheduler.py:190-214 | when a result is read every other forward of its request starts where it ended or later, and a decoding request has computed at most one position since |
| Scheduling.DecideMaxSequenceAdmission | python/minisgl/scheduler/scheduler.py:72-99 | accepts exactly prompts that leave a position for output and clamps the output to the model length |
| Scheduling.Scheduler.AcquireSequenceSlot | python/minisgl/kvcache/deepseek_v4_pool.py:895-918 | tags a slot in both state pools, or neither |
| Scheduling.Scheduler.ReleaseSequenceSlot | python/minisgl/kvcache/deepseek_v4_pool.py:920-943 | clears both tags for their owner only |
| Scheduling.Scheduler.Submit | python/minisgl/scheduler/scheduler.py:330-384 | a new request is queued under a new generation with its clamped output, its end-of-sequence setting and the reasoning state of its effort, or rejected with one finished reply |
| Scheduling.Scheduler.Launch | python/minisgl/scheduler/scheduler.py:427-478 | one forward of an active request is issued; slot, tags, epoch, position bound and sample are in order, so none of the checks raises |
| Scheduling.Scheduler.ScheduleDecode | python/minisgl/scheduler/decode.py:10-39 | every running request gets one decode forward |
| Scheduling.Scheduler.InflightTokens | python/minisgl/scheduler/decode.py:27-30 | the sum of what exactly the running requests may still need, with what it takes to fill each one's last page |
| Scheduling.Scheduler.ReservedTokens | python/minisgl/scheduler/prefill.py:300-319 | that, and the rest and the output of every partly computed prompt, are reserved before a new prompt is admitted |
| ServingSteps.NeedCovers | python/minisgl/scheduler/decode.py:27-30 | what is reserved for a running request covers all pages it has still to be given, and exactly these when the first token opens a page |
| ServingSteps.ReservedCovers | python/minisgl/scheduler/prefill.py:300-319 | what is reserved for all running requests covers their pages to come, and for every prompt that is partly computed all it has still to compute |
| Scheduling.Scheduler.ProcessRow | python/minisgl/scheduler/scheduler.py:247-328 | a terminal request drops its result and a chunk only completes, both without a reply; otherwise the forward's token is committed and replied, and the request stays active exactly if this is neither the last token admitted nor the end of sequence it respects, which the reply then names; the identity, generation and capacity errors cannot be raised |
| Scheduling.Scheduler.FreeReqResources | python/minisgl/scheduler/scheduler.py:390-399 | the slot joins the free ones and both tags are cleared |
| Scheduling.Scheduler.Abort | python/minisgl/scheduler/scheduler.py:365-384 | afterwards no request with the id is active and all others are as before |
| Scheduling.Scheduler.ReceiveMsgs | python/minisgl/scheduler/scheduler.py:330-384 | all messages of an iteration are handled in order |
| Scheduling.Scheduler.OverlapLoop | python/minisgl/scheduler/scheduler.py:190-214 | one iteration - messages, issue, then read the previous forward - keeps requests, forwards in flight, slots, tags, replies and releases in order |
| Scheduling.Scheduler.NormalLoop | python/minisgl/scheduler/scheduler.py:216-228 | so does one iteration without overlap |
| Serving.Server.OverlapLoop | python/minisgl/scheduler/scheduler.py:190-214 | one iteration with all its cache calls keeps scheduler, cache manager and their link in order, in every run from the start; aborted requests are stopped, the batch is made of the shares that fit or is one decode step of exactly the running requests, its forwards are issued and left to be read, and the only way to stop is that a lane is short of the pages of that batch by more than can be evicted |
| Serving.Server.ProcessRow | python/minisgl/scheduler/scheduler.py:247-328 | a retired request gives its pages and lock back and its blocks are stored, a computed prompt is stored under its own tokens, otherwise the window moves on from the remembered frontier: every position released by either then lies below the window of every forward of the request in flight and of every later one, and none that ends a window and a page behind the result is left; no cache error can be raised |
| Serving.Server.StorePrompt | python/minisgl/scheduler/scheduler.py:267-318 | storing a computed prompt takes no window page of the request that a forward in flight or a later one attends to |
| Serving.Server.MoveWindow | python/minisgl/scheduler/cache.py:342-369 | with a device length at most two ahead of where a result ended, nothing is released that a forward starting there or later attends to |
| Serving.Server.Advance | python/minisgl/scheduler/scheduler.py:267-318 | the same for chunks that are followed by another chunk, for the last chunk with the rest of the prompt in flight, for the older frontier a chunk inherited, and for decode steps with one forward ahead |
| Serving.Server.WindowPresent | python/minisgl/scheduler/cache.py:342-369 | in every state of every run each position that a forward in flight attends to in its request's own pages has its window page |
| Serving.Server.WindowReleased | python/minisgl/scheduler/cache.py:342-369 | and in every state an active request has given back the window pages of its own blocks that end a window and a page or more in front of its oldest unread forward, so its own window pages hold less than the window, what is computed since and three pages |
| Serving.Server.Prepare | python/minisgl/scheduler/prefill.py:138-241 | a resident prompt goes on where it stopped in an object that inherits the window frontier; a new one is taken exactly if a table slot is open and the cache admits it, starts behind its stored prefix with nothing released, and takes a slot and a reservation; otherwise nothing changes |
| Serving.Server.Issuable | python/minisgl/scheduler/prefill.py:293-400 | every batch put together this way is one the scheduler can issue: waiting requests, each once, going on where they stopped, with a free slot for each new one |
| Serving.Server.IssuePrefill | python/minisgl/scheduler/scheduler.py:427-457 | rows reach exactly to the new positions before the forwards of the batch are issued; a failure leaves the requests alone and means that a lane is short of the pages the batch needs by more than can be evicted |
| Serving.Server.SchedulePrefill | python/minisgl/scheduler/scheduler.py:427-457 | the same for the batch of all given shares for resident prompts and of those new ones that fit |
| Serving.Server.ScheduleDecode | python/minisgl/scheduler/scheduler.py:427-457 | the same for the next position of exactly the running requests |
| Serving.Server.Abort | python/minisgl/scheduler/scheduler.py:365-384 | no request with the id stays active; one without forwards in flight retires at once, has its blocks stored and holds no pages any more, and all others are as before |
| Serving.Server.NormalLoop | python/minisgl/scheduler/scheduler.py:216-228 | one iteration without overlap keeps the same in order, issues a batch chosen in the same way and reads it in the same round; the only way to stop is the same |
| Serving.Server.RunWhenIdle | python/minisgl/scheduler/scheduler.py:183-188 | the idle integrity check never fails |
| Serving.Server.RefusedTooLarge | python/minisgl/scheduler/prefill.py:138-169 | with nobody holding a slot, there is no place for a waiting request only if it needs more than the whole cache, or the table is empty |
| Serving.HeldTogether | python/minisgl/scheduler/scheduler.py:390-425 | a row and a lock are held exactly as long as a table slot, so each is given back once, on retirement |
| ServingSteps.HostCovers | python/minisgl/core.py:135-172 | when blocks are stored the host has all tokens they are made of, in spite of the lag |
| ServingSteps.ReadyLinked | python/minisgl/scheduler/cache.py:127-138 | after a batch is issued every row has exactly the pages of its computed positions |
| Reasoning.LagCorrected | python/minisgl/reasoning.py:37-66 | the host's late state corrected by the current input token is the true state |
| Reasoning.MaskReasoningLogits | python/minisgl/engine/sample.py:21-62 | exactly the two forbidden tokens of every row are masked, in place; raises exactly for mismatched rows |
| Reasoning.MaskedSample | python/minisgl/engine/sample.py:44-62 | a sample that the late mask allows keeps the generated sequence grammatical |
| Reasoning.GrammaticalMeans | python/minisgl/reasoning.py:27-66 | what a grammatical sequence can contain |
| Reasoning.Initial | python/minisgl/reasoning.py:27-35 | an effort other than none, "high" and "max" is an error; exactly the latter two start thinking |
| FairPrefill.AllocateFairPrefillChunks | python/minisgl/scheduler/prefill.py:32-115 | raises exactly for bad arguments or when the budget does not reach the last request; if first shares fit, grants are quanta or exact rests, less than a quantum is left unless all finish, and the split is fair |
| FairPrefill.LedgerGapKept | python/minisgl/scheduler/prefill.py:32-115 | ledgers within a quantum of each other stay so over a forward that serves both |
| PrefillQueue.PrefillManager.ScheduleNextBatch | python/minisgl/scheduler/prefill.py:293-400 | no budget error can be raised; the new queue has whoever was not picked, unchanged, and whoever was picked and goes on, with its share added to what is computed and to its ledger, and nobody else; without a batch no prompt is resident and there is no place for any |
| PrefillQueue.PassOrder | python/minisgl/scheduler/prefill.py:386-395 | whoever was passed over leads the new queue, whoever was served follows, and either part keeps its order |
| ProgressLedger.LedgerCounts | python/minisgl/scheduler/prefill.py:352-400 | in every run from an empty queue the ledger of a waiting prompt is the number of its tokens that were given since it arrived |
| ProgressLedger.StayClose | python/minisgl/scheduler/prefill.py:32-115 | in every run two prompts that are served by the same passes stay within a quantum of each other in what they were given |
| PrefillQueue.PrefillManager.PickFirstShares | python/minisgl/scheduler/prefill.py:293-345 | the picked first shares fit the budget and their prompts are prepared by the server with slots and reservations counted; a resident prompt is only passed over behind a picked one, a new one only if its first share does not fit into what is left, no slot is open or the cache refuses it, still at the end of the pass |
| PrefillQueue.PrefillManager.TryPrepareOne | python/minisgl/scheduler/prefill.py:219-241 | a resident prompt is always prepared, a new one exactly if a slot is open and the cache admits it, and its cached part is what the cache matched |
| PrefillQueue.Admissible | python/minisgl/scheduler/prefill.py:352-380 | the granted shares lengthen the prepared rows and end within their prompts |
| PrefillQueue.ServedOrCloser | python/minisgl/scheduler/prefill.py:380-400 | a pass serves a resident prompt or moves it strictly forward |
| PhasePolicy.MixedPhaseFairPolicy.ChoosePhase | python/minisgl/scheduler/phase_policy.py:55-76 | something is chosen whenever there is work, never what cannot run; with both kinds waiting it is the prompt's turn exactly when its delay has run out, and it gets the mixed budget; alone it gets the isolated one |
| PhasePolicy.MixedPhaseFairPolicy.RecordScheduled | python/minisgl/scheduler/phase_policy.py:78-99 | a decode lowers the delay of a waiting prompt by one, a prefill sets it to the maximum, a batch without competition resets the state, and the state stays in order |
| PhasePolicy.StepWithPrompt | python/minisgl/scheduler/phase_policy.py:55-99 | with a prompt waiting, a decode step brings the next prefill closer and a prefill gets at least the mixed budget |
| PhasePolicy.NoTwoPrefills | python/minisgl/scheduler/phase_policy.py:55-76 | with both kinds of work waiting, no prefill follows a prefill |
| BatchChoice.Dispatcher.ScheduleNextBatch | python/minisgl/scheduler/scheduler.py:480-508 | messages, arbiter and queue together make one step of the batch choice, whose new prompts need no more than the free table slots and whose rows are prepared |
| BatchChoice.Dispatcher.AbortReq | python/minisgl/scheduler/prefill.py:402-407 | removes the prompt and leaves the order of the others |
| BatchChoice.NoPromptStarves | python/minisgl/scheduler/scheduler.py:480-508 | a resident prompt at queue position k gets tokens within (k + 1) * (max decode + 1) steps, whatever decodes and arrives |
| WholeLoop.PassStays | python/minisgl/scheduler/prefill.py:352-400 | after a pass the queue lists exactly the requests that still wait, with what has been computed of them |
| WholeLoop.Loop.ReceiveMsgs | python/minisgl/scheduler/scheduler.py:330-384 | new and aborted requests reach scheduler, cache and queue alike |
| WholeLoop.Loop.Issue | python/minisgl/scheduler/scheduler.py:427-478 | exactly the shares of the pass, or one decode step, are issued, and then the queue lists exactly the requests that still wait; it fails only for lack of pages for that batch |
| WholeLoop.Loop.NoneTooLarge | python/minisgl/engine/engine.py:99-111 | with the length bound the engine admits no accepted request needs more than the whole cache |
| WholeLoop.Loop.OverlapLoop | python/minisgl/scheduler/scheduler.py:190-214 | one iteration of messages, arbiter, queue, cache and scheduler is a step of the batch choice, issues what was chosen and keeps all of them in order and in agreement; without prompts it issues a forward of every active request whose prompt has been issued, unless a sample of it is in flight; it issues nothing while nobody holds a slot only if nobody waits; the only way to stop is that a lane is short of the pages of the chosen batch by more than can be evicted |
| WholeLoop.Loop.NormalLoop | python/minisgl/scheduler/scheduler.py:216-228 | so is one iteration without overlap, which stops only in the same way |
| Turns.TurnCloser | python/minisgl/scheduler/scheduler.py:190-214 | an iteration never takes a request away from its end, and brings it closer if it serves no prompts or if a sample of the request is in flight |
| Turns.OneOfTwo | python/minisgl/scheduler/phase_policy.py:55-99 | of two iterations in a row one does |
| Turns.EndsSoon | python/minisgl/scheduler/scheduler.py:480-508 | in every run a request whose prompt has been issued is finished or aborted within four iterations for every token it may get, whatever prompts arrive and are served meanwhile |
| Lockstep.SameLists | python/minisgl/scheduler/io.py:88-122 | in every interleaving the n-th call returns the same list on all ranks, and they agreed on blocking |
| Lockstep.NoLeftovers | python/minisgl/scheduler/io.py:88-122 | when a rank has finished as many rounds as rank 0 its queues are empty |
| Lockstep.NothingLost | python/minisgl/scheduler/io.py:88-107 | every message of the tokenizer is returned once, in order |
| Lockstep.StuckOnlyIdle | python/minisgl/scheduler/io.py:88-122 | nobody can move exactly when all ranks block in the same round and no message is there |
| Lockstep.Cluster.RecvMsgMultiRank0 | python/minisgl/scheduler/io.py:88-107 | the whole call on rank 0 is a run of protocol steps and returns all that has arrived |
| Lockstep.Cluster.RecvMsgMultiRank1 | python/minisgl/scheduler/io.py:109-122 | the whole call on another rank is a run of its steps and returns exactly the announced messages |
| Hadamard.HadamardTransform | debug/dsv4/kernel/deepseek_v4_reference.py:817-834 | raises exactly when the length is not a positive power of two; otherwise entry i is the scaled sum of all entries signed by the parity of the bits of i & j |
| Hadamard.BitTrick | debug/dsv4/kernel/deepseek_v4_reference.py:818-821 | n & (n - 1) is zero exactly for powers of two |
| Hadamard.HalvesIsSignSum | debug/dsv4/kernel/deepseek_v4_reference.py:825-833 | the recursion over halves gives the same signed sums |
| Hadamard.Involution | debug/dsv4/kernel/deepseek_v4_reference.py:817-834 | twice without scale is the length times the input, twice with the program's scale is the input |
| RoutePlan.BuildMoeRoutePlan | python/minisgl/kernel/deepseek_v4.py:1075-1167 | sort, prefix sums and scatter build exactly the region-by-region layout and the block owners; raises exactly for non-positive sizes |
| RoutePlan.EachRouteOnce | python/minisgl/kernel/deepseek_v4.py:1113-1167 | every valid route is in the plan once, no other route is |
| RoutePlan.RegionPlace | python/minisgl/kernel/deepseek_v4.py:1134-1158 | each expert has one contiguous block-aligned region |
| RoutePlan.RegionMeans | python/minisgl/kernel/deepseek_v4.py:1134-1158 | it holds the expert's routes ascending, then sentinels |
| RoutePlan.BlockOwner | python/minisgl/kernel/deepseek_v4.py:1156-1160 | all real routes of a block go to the block's expert |
| RoutePlan.PaddingSmall | python/minisgl/kernel/deepseek_v4.py:1134-1137 | less than one block of padding per used expert |
| RoutePlan.MaskedNeverPlanned | python/minisgl/kernel/deepseek_v4.py:1220-1251 | routes of padding rows never appear, those of live rows are untouched |
| CompressedSlots.WriteLocs | python/minisgl/attention/deepseek_v4.py:1981-2017 | one location for every row that completes a group, and it is the location later reads use |
| CompressedSlots.OneSlot | python/minisgl/kvcache/deepseek_v4_pool.py:1721-1748 | written slot, read slot and the slot derived from the full location are the same |
| CompressedSlots.AgreeWhenDivided | python/minisgl/kvcache/deepseek_v4_pool.py:437-456 | they agree at every completed group exactly when the ratio divides the page size |
| CompressedSlots.GroupsApart | python/minisgl/attention/deepseek_v4.py:1933-1957 | different groups of one request have different slots |
| PackedCache.NoOverlap | debug/dsv4/kernel/deepseek_v4_reference.py:168-210 | no two bytes of values or scales share an address |
| PackedCache.Contiguous | debug/dsv4/kernel/deepseek_v4_reference.py:168-210 | in a page the values of all slots follow each other, then the scales, then the next page |
| PackedCache.Pack | debug/dsv4/kernel/deepseek_v4_reference.py:168-210 | unpacking gives the rows back, the rest of the last page is zero; raises exactly for a non-positive page size |
| PackedCache.ScatterStore | debug/dsv4/kernel/deepseek_v4_reference.py:1838-1855 | every slot holds the row stored there last, all others what they held before; masked rows are dropped |
| WeightLoader.Loader.Load | python/minisgl/models/weight.py:136-215 | for any order and file grouping every complete weight is yielded once with fixed part order, and the final check passes exactly for complete checkpoints |
| WeightLoader.Loader.AddHalf | python/minisgl/models/weight.py:170-192 | the half that comes second emits the merged weight |
| WeightLoader.Loader.AddExpert | python/minisgl/models/weight.py:194-210 | the last projection emits the packed experts by index; the stacking assertion cannot fail |
| WeightLoader.Loader.MaybeEmitExpert | python/minisgl/models/weight.py:145-155 | emits exactly when all experts are stacked |
| WeightLoader.OrderIrrelevant | python/minisgl/models/weight.py:158-210 | only the set of tensors matters |
| WeightLoader.OneOutput | python/minisgl/models/weight.py:136-215 | two outputs for the same tensors are the same map of names to weights |
| WeightLoader.LeftInBuffers | python/minisgl/models/weight.py:214-215 | both buffers are empty exactly when every weight is complete |

## Left out

- Kernels, streams, graph capture, NCCL and every float numeric: a forward is an opaque step that yields a token; the sampler is any choice among the tokens the mask allows, with the reasoning contract enabled.
- HTTP, ZMQ, tokenizer, process launch, metrics and logging: I/O. Message queues are modelled as FIFO sequences, and the count broadcast as one FIFO per rank.
- Object identity of nodes and requests: nodes are records in a map by node id and requests records by generation, so aliasing is aliasing by id. The prefill chunk objects of one prompt are one record.
- LRU timestamps and the heap order of eviction: any unlocked leaf may be evicted next.
- Token granularity inside the tree: keys are sequences of page-size token blocks and lengths are pages; `Paging` proves that this is what the token-level code computes.
- Layer configurations without one of the compressed lanes: all five lanes exist, so the check for recovery pages at a match boundary always passes.
- CacheManagement.CacheManager.CacheReq: the intermediate copy of the row, overwritten by the final one, is not modelled; evicted nodes are handed over as a list and released in that order instead of in a callback; a raised capacity error ends the model's run.
- Scheduling.Scheduler.OverlapLoop: which requests a prefill batch takes is any admissible plan; `PrefillQueue` and `BatchChoice` prove what the queue picks. The loop's cache calls are in `Serving`, its batch choice in `WholeLoop`.
- Serving.Server.OverlapLoop: the shares and the phase are arbitrary inputs, `WholeLoop` supplies those of the queue; a failed allocation ends the run, as the program's assertion does.
- Serving.Server.WindowPresent: says nothing about the pages of the locked prefix, which a lock does not protect; `CacheSteps.StoreTakesFromOthers` says exactly when another request's store takes a window page of it.
- Scheduling.Scheduler.Submit: an unknown reasoning effort, which raises when the request object is built, is required away, as are reused user ids and outputs of zero tokens.
- Scheduling.Scheduler.ReceiveMsgs: the same messages are required away.
- Lockstep.SameLists: that the scheduler state is replicated deterministically is the assumption; blocking is an arbitrary function of the lists received so far.
- Lockstep.Cluster.RecvMsgMultiRank0: no message arrives while the call runs; `SameLists` covers all interleavings of its steps.
- Lockstep.Cluster.RecvMsgMultiRank1: what rank 0 announced is already on the channel; `SameLists` covers all interleavings of its steps.
- RoutePlan.BuildMoeRoutePlan: the device path is not part of the model; `argsort` is an insertion sort of distinct keys.
- WeightLoader.Loader.Load: renaming, sharding and classification of tensor names are a given place for every tensor; a dtype error and repeated names are not modelled.
- PackedCache.ScatterStore: the quantisation inside the stored rows is not modelled.
- PackedCache.Pack: quantisation is not modelled, rows are bytes; a zero row dimension is left out.
- Admission does not guarantee later allocation, a lock does not keep pages of other requests alive, and eviction of window pages reaches only leaves: the program promises none of these and neither does the model.
- Graph bucket policy, graph memory planning and cached attention metadata: short formulas or kernel layouts.
