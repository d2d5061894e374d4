# kvcached and its neighbours: a Dafny model

kvcached gives every KV cache a large range of virtual memory and backs only the part in use with physical
memory. `PageAllocator` moves fixed-size pages between a free list, a mapped reserve, a reclaimed list and its
callers, with a preallocation worker alongside; `KVCacheManager` cuts the pages it gets into blocks;
`FTensorAllocator` turns page ids into offsets of the KV tensors and maps them, on every tensor-parallel rank,
with rollback. Every call that maps or unmaps releases the page allocator's lock in the middle.

The project models that stack, and three smaller pieces of vLLM: the signatures of graph partitions, the flat
log-probability container and the packed ids of scalar types. `dafny verify dfyconfig.toml` checks all of it.

## How the model is built

- `BlockMath.dfy`, `Seqs.dfy`: block and page arithmetic; duplicate-free sequences.
- `InternalPage.dfy`, `PageDict.dfy`: one page's free list; Python's ordered dictionaries of pages.
- `PageLists.dfy`: what each locked section of the page allocator does to its lists and counters, as functions.
  `PageAllocator.dfy` is the class, whose methods compute those functions in place.
- `Machine.dfy`: the same sections as steps of a state machine. A page is in exactly one place: a list, a
  caller's hands, a thread that is mapping or unmapping it, or lost after a failed unmap. Ranks answer broadcasts
  one at a time and may fail in any way; a rank that fails may leave the pages asked for in any state.
  `Conservation.dfy`, `Accounting.dfy`, `Runs.dfy` and `Resizing.dfy` prove what every interleaving keeps, and
  exactly which steps lose it. `Wholes.dfy` ties whole calls to these steps, working or failing.
- `Manager.dfy`: the manager's methods on the values of its fields. `ManagerProofs.dfy` and `Capacity.dfy` prove
  what they keep and promise; `KVCacheManager.dfy` is the class, calling the page allocator class; `Clearing.dfy`
  is about `clear` and the null block.
- `System.dfy`, `SystemProofs.dfy`, `Safety.dfy`: the manager on top of the machine, its calls split wherever the
  page allocator releases its lock, and safety over every run. `Elastic.dfy` is about how many pages it holds,
  `Shrinking.dfy` about resizes and pending shrinks. `Calls.dfy` ties the system to the classes: uninterrupted, the
  steps of a call end where the class's method does.
- `FTensor.dfy`, `Layout.dfy`, `FTensorAllocator.dfy`: the page table of a tensor, the three layouts, and requests
  with rollback. `BlockBytes.dfy` says which bytes of a tensor are a block's. `TpIpc.dfy` is the broadcast.
  `Ranks.dfy` puts the ranks' tensors under the system: its `EveryBlockResident` is the theorem at the top.
- `Scenario.dfy` and `Faults.dfy` are runs from a fresh allocator, step by step: one that hands out a block, and
  those that show what the departures below lead to.
- `GraphPartition.dfy`, `Logprobs.dfy`, `ScalarType.dfy`: the three vLLM pieces.

## Where the code departs from its intent

Each is kept as the code has it. Two of them, the clashing resize and the raising `free_reserved`, are called
hazards: along any run the system's invariant holds throughout exactly when no step is a hazard (`Safety.RunInvIff`),
and the invariant implies safety. Losing the invariant is not yet losing safety; that safety is in fact lost is shown
by runs. A third, a resize beyond the tensors, leaves the invariant alone.

- `resize` numbers fresh pages from the old total even when it has just reused reclaimed ones, so an id can be on
  the free list twice (`CollisionHappens`). Ids are given out again exactly when some but not all of the new pages
  come from the reclaimed list, and one of them is in hand exactly when a page from the old total up to the new one
  less the reclaimed pages is not lost (`ClashIff`, `ExpandUniqueIff`); the page allocator's invariant is lost exactly
  then (`Conservation.StepIff`, `Runs.RunInvIff`). `TwoOwners` is a run in which one block ends up with two owners.
  The configuration flag `freshAfterReclaimed` gives the repaired numbering, which never does this.
- A page whose unmap failed is counted as free and is on no list. The model has a place for such lost pages; a
  resize cannot go below pages in use plus lost ones (`ResizeExact`), and a caller may wait for one
  (`WaitingMeansAway`). A lost page comes back exactly when a resize gives its id out again, which takes one that
  mixes reclaimed and fresh pages with the page in its fresh range (`LostComesBackIff`, `ReissueIff`;
  `LostPageReturns` is such a case). Ranks themselves never refuse an unmap (`OnlyTransportLoses`).
- `free_reserved` clears its list only at the end, so if it raises, in giving up pages or in the retried shrink, the
  freed blocks stay listed as reserved and the next allocation hands them out (`StaleReserveHandedOut`;
  `FreeBlockHandedOut` is a run that gets there).
- The retry of a pending shrink ignores what resize answers. It is refused exactly when the pages for the target
  do not hold the pages in use and the lost ones; the pending shrink is over either way, and after a refusal the
  total is what it was (`RetryExact`; `ShrinkDropped` is a run).
- A resize that is refused while blocks are reserved trips an assertion (`ResizeCallExact`).
- `_get_num_alloced_blocks` counts reserved blocks twice (`NumAllocedMeaning`), and the shrink test inside
  `free_reserved` still counts the blocks just freed once (`FreeKeepsPendingIff`), so a shrink may stay pending that
  the blocks left would allow.
- A page without usable blocks is parked among the full pages. A page in use has no allocated block exactly when its
  block range is empty (`EveryRunIsElastic`), and short of a hazard no call but `clear` gives such a page back (`ParkedForever`).
- Nothing stops a resize from asking for more pages than the tensors hold. A page id has room in the tensors exactly
  below the region's page count (`RoomIff`, all layouts). `OutgrownBlocksOverlap` is a run without hazards that
  outgrows a split tensor, after which the V byte of one outstanding block is the K byte of another.
- Rounding the tensor size up to one page is not enough for the contiguous and split layouts (`FitsIff`).
- After a shrink that took page 0 away, `clear` cannot reserve block 0 as the null block (`NullBlockIsZero`).
- A slice of `FlatLogprobs` that goes backwards reads wrongly unless all it picks is empty (`SliceFaithfulIff`).
- `clear` stops the worker through a method name that has no binding; it is read as stopping the worker.

## Model

| member | source | states |
|---|---|---|
| BlockMath.OwnsIffInside | kvcached/csrc/page_allocator.cpp:98-106 | a page's range is exactly the blocks whose bytes all lie inside the page |
| BlockMath.PageOfOwned | kvcached/csrc/page_allocator.cpp:474-477 | get_page_id maps every block of a page back to that page |
| BlockMath.OwnerUnique | kvcached/csrc/page_allocator.cpp:98-106 | no block belongs to two pages |
| BlockMath.RangesOrdered | kvcached/csrc/page_allocator.cpp:98-106 | the ranges of different pages are ordered like the pages |
| BlockMath.OwnedIffNotStraddling | kvcached/csrc/page_allocator.cpp:98-106 | a block has an owner exactly when its first and last byte fall in one page |
| BlockMath.OwnedBlocksExactly | kvcached/csrc/page_allocator.cpp:98-106 | pages 0 to n-1 own exactly the non-straddling blocks below n pages |
| BlockMath.RangeSize | kvcached/csrc/page_allocator.cpp:98-111 | a page holds floor(page / block) blocks or one fewer |
| BlockMath.RangeSizeDivisible | kvcached/csrc/page_allocator.cpp:98-111 | when the block size divides the page size it holds exactly that many |
| InternalPages.TakeSound | kvcached/csrc/page_allocator.cpp:66-78 | blocks taken were free, are distinct and are handed out from then on |
| InternalPages.PutBackSound | kvcached/csrc/page_allocator.cpp:80-84 | blocks given back are free again and no longer handed out |
| InternalPages.EmptyMeansNoneHandedOut | kvcached/csrc/page_allocator.cpp:86-90 | a page is empty exactly when none of its blocks is handed out and its range does not end below its start |
| InternalPages.InternalPage.Init | kvcached/csrc/page_allocator.cpp:55-64 | the free list becomes the whole block range of the page id |
| InternalPages.InternalPage.Alloc | kvcached/csrc/page_allocator.cpp:66-78 | takes the first n free blocks, or raises and changes nothing when there are fewer |
| InternalPages.InternalPage.FreeBatch | kvcached/csrc/page_allocator.cpp:82-84 | appends the blocks to the free list |
| PageLists.FreeOneIsFreeMany | kvcached/csrc/page_allocator.cpp:252-276 | free_page is free_pages on one page |
| PageLists.DrawnInOrder | kvcached/csrc/page_allocator.cpp:174-250 | pages come from the pool first, then from the free list, in order, each charged once |
| PageLists.FailedMapUndone | kvcached/csrc/page_allocator.cpp:230-237 | a failed map leaves the page lists as they were |
| PageLists.WorkerRefills | kvcached/csrc/page_allocator.cpp:572-634 | a round of the worker maps no more pages than physical memory backs and stops only with the pool at its minimum, no free page left, or that many mapped; a failed round changes no list |
| PageLists.FreeFillsPool | kvcached/csrc/page_allocator.cpp:278-311 | freed pages fill the pool to its maximum, all of them with deferred unmapping, the rest in order are to be unmapped, and all count as free |
| PageLists.SortSorts | kvcached/csrc/page_allocator.cpp:720-726 | reset_free_page_order leaves the same pages in increasing order |
| PageAllocators.PageAllocator.constructor | kvcached/csrc/page_allocator.cpp:114-136 | all pages start on the free list in order; the reserve bounds are capped by their number |
| PageAllocators.PageAllocator.TryAlloc | kvcached/csrc/page_allocator.cpp:174-224 | one pass of alloc_page's loop computes the function whose answers Accounting.AnswerExact characterises |
| PageAllocators.PageAllocator.AllocPage | kvcached/csrc/page_allocator.cpp:174-250 | the whole call for a lone caller, with the map's outcome given |
| PageAllocators.PageAllocator.BeginFree | kvcached/csrc/page_allocator.cpp:278-311 | pages go to the pool while it has room; the rest are to be unmapped |
| PageAllocators.PageAllocator.Free | kvcached/csrc/page_allocator.cpp:278-327 | the whole call, raising with the pages on no list when the unmap fails |
| PageAllocators.PageAllocator.ReclaimLast | kvcached/csrc/page_allocator.cpp:379-387 | moves the last free pages, last first, to the reclaimed list |
| PageAllocators.PageAllocator.ExpandTo | kvcached/csrc/page_allocator.cpp:343-368 | reuses reclaimed pages first and then adds fresh ids, numbered as the code does or as repaired |
| PageAllocators.PageAllocator.BeginResize | kvcached/csrc/page_allocator.cpp:329-391 | refuses, expands, reclaims or empties the pool for unmapping |
| PageAllocators.PageAllocator.Resize | kvcached/csrc/page_allocator.cpp:329-418 | the whole call for a lone caller, with the unmap's outcome given |
| PageAllocators.PageAllocator.Trim | kvcached/csrc/page_allocator.cpp:420-444 | the pool is unmapped and put on the free list, or lost when the unmap raises |
| PageAllocators.PageAllocator.TakeForPool | kvcached/csrc/page_allocator.cpp:572-602 | the worker's first locked section computes the function whose bounds PageLists.WorkerRefills gives |
| PageAllocators.PageAllocator.PoolAnswer | kvcached/csrc/page_allocator.cpp:606-625 | its second: into the pool, or back to the front of the free list |
| PageAllocators.PageAllocator.GroupIndicesByPage | kvcached/csrc/page_allocator.cpp:488-515 | one entry per page that occurs, holding its indices in order |
| PageAllocators.PageAllocator.ResetFreePageOrder | kvcached/csrc/page_allocator.cpp:720-726 | sorts the free list |
| Conservation.InitInv | kvcached/csrc/page_allocator.cpp:114-136 | the invariant holds of a fresh allocator |
| Conservation.FreeKept | kvcached/csrc/page_allocator.cpp:278-327 | freeing keeps every page in one place |
| Conservation.ResizeKept | kvcached/csrc/page_allocator.cpp:329-418 | resizing does, unless the expansion clashes |
| Conservation.UnmapDoneKept | kvcached/csrc/page_allocator.cpp:308-319 | an unmap that ends puts its pages on the free list, or in the lost place |
| Conservation.RankKept | kvcached/kvcached/tp_ipc_util.py:222-264 | whatever a rank answers and leaves behind, used and reserved pages stay mapped everywhere |
| Conservation.StepIff | kvcached/csrc/page_allocator.cpp:174-634 | a step of any thread or rank keeps conservation, the counters and the mapping promise exactly when it is no clashing expansion |
| Conservation.StepKeepsInv | kvcached/csrc/page_allocator.cpp:174-634 | a step that does not collide also leaves no id missing |
| Conservation.ClashDuplicates | kvcached/csrc/page_allocator.cpp:347-363 | a clashing expansion lists as free an id that a list, a caller or a thread already has |
| Accounting.FreeCountMeaning | kvcached/csrc/page_allocator.cpp:446-450 | num_free_pages counts free, reserved, lost and those being unmapped or mapped for the pool |
| Accounting.AnswerExact | kvcached/csrc/page_allocator.cpp:174-224 | which of its five answers alloc_page gives, by what is pooled, free and charged to callers: it waits only with a worker and reports an inconsistent state only without |
| Accounting.WaitingMeansAway | kvcached/csrc/page_allocator.cpp:213-224 | with no id missing, both happen exactly when a page is in flight or lost; "No free pages left" exactly when all are charged |
| Accounting.FreeCountCovers | kvcached/csrc/page_allocator.cpp:446-450 | even with ids missing, the counter covers every free, reserved, lost or travelling page |
| Accounting.ClashIff | kvcached/csrc/page_allocator.cpp:343-368 | an expansion gives out an id in hand exactly when it mixes reclaimed and fresh pages and a page of the repeated range is not lost |
| Accounting.ExpandUniqueIff | kvcached/csrc/page_allocator.cpp:343-368 | an expansion keeps ids unique and complete exactly when it does not mix reclaimed and fresh pages, unique exactly when it does not clash |
| Runs.RunInvIff | kvcached/csrc/page_allocator.cpp:174-634 | along any interleaving the invariant holds throughout exactly when no expansion clashes |
| Runs.EveryRunIsSafe | kvcached/csrc/page_allocator.cpp:174-634 | short of a clashing expansion no page is in two places and used or reserved pages are mapped on every rank |
| Runs.EveryRunConserves | kvcached/csrc/page_allocator.cpp:174-634 | short of a colliding one the places divide the ids among them |
| Runs.LostUntilReissued | kvcached/csrc/page_allocator.cpp:308-319 | a page whose unmap failed is not free, reserved or in use again until an expansion gives its id out again |
| Runs.LostComesBackIff | kvcached/csrc/page_allocator.cpp:343-368 | a step brings a lost page back, onto the free list, exactly when it is such an expansion |
| Runs.ReissueIff | kvcached/csrc/page_allocator.cpp:343-368 | that takes one that mixes reclaimed and fresh pages and has the page in its fresh range |
| Runs.LostPageReturns | kvcached/csrc/page_allocator.cpp:343-368 | a state and a resize by which a lost page is listed as free |
| Runs.CallersView | kvcached/csrc/page_allocator.cpp:174-327 | pages reach callers one at a time and leave them only by being freed |
| Runs.GrantIsNew | kvcached/csrc/page_allocator.cpp:174-250 | a page handed out was nobody's and is mapped on every rank |
| Runs.UnmapNeverRefused | kvcached/csrc/page_allocator.cpp:665-693 | a rank asked to unmap still has every page mapped |
| Runs.FailedMapRetried | kvcached/csrc/page_allocator.cpp:228-237 | a failed map returns its page to the front, and the next attempt retries it |
| Runs.WorkerWithinMemory | kvcached/csrc/page_allocator.cpp:572-602 | the worker maps a page exactly when the pool is short, a page is free and memory is left, and never more than memory backs |
| Runs.GrantWakes | kvcached/csrc/page_allocator.cpp:186-241 | a grant that leaves the pool short, a page mapped for its caller and a trigger let a round of the worker begin |
| Runs.CalledUntilRound | kvcached/csrc/page_allocator.cpp:556-571 | along any run the call for a round stays until the round begins |
| Runs.PoolNeverOverflows | kvcached/csrc/page_allocator.cpp:252-634 | pool plus pages being mapped for it stay within maximum plus minimum |
| Runs.PoolWithinMax | kvcached/csrc/page_allocator.cpp:252-634 | the pool stays within the maximum when frees and the worker do not overlap |
| Resizing.ResizeExact | kvcached/csrc/page_allocator.cpp:329-418 | alone, resize succeeds exactly when the target covers pages in use and lost; total and used pages are as promised |
| Resizing.ShrinkNeverFailsLate | kvcached/csrc/page_allocator.cpp:369-411 | with nothing lost neither late refusal is reachable |
| Resizing.ResizeKeepsInvIff | kvcached/csrc/page_allocator.cpp:329-418 | a whole resize keeps the invariant, used pages mapped on every rank included, exactly when it does not clash |
| Resizing.CollisionHappens | kvcached/csrc/page_allocator.cpp:347-363 | four pages shrunk to three and grown to six list page 3 twice |
| Wholes.FreeIsSteps | kvcached/csrc/page_allocator.cpp:278-327 | the whole call leaves what its two locked sections leave, a failed unmap raising with the pages lost |
| Wholes.TrimIsSteps | kvcached/csrc/page_allocator.cpp:420-444 | so does trim |
| Wholes.ResizeIsSteps | kvcached/csrc/page_allocator.cpp:329-418 | and resize, which raises exactly when it had to unmap and that failed |
| PageDict.Put | kvcached/kvcached/kv_cache_manager.py:341-346 | assigning a new key appends it |
| PageDict.WithoutOk | kvcached/kvcached/kv_cache_manager.py:377-381 | popping a key removes that page and nothing else |
| ManagerProofs.AllocLoopOk | kvcached/kvcached/kv_cache_manager.py:325-349 | the loop hands out distinct blocks nobody held, succeeds exactly when held and coming pages suffice, and keeps the counters |
| ManagerProofs.FreeGroupOk | kvcached/kvcached/kv_cache_manager.py:374-400 | freeing blocks of a page frees exactly those and gives the page back exactly when no block of it stays allocated |
| ManagerProofs.FreeGroupsOk | kvcached/kvcached/kv_cache_manager.py:370-400 | free frees exactly the given blocks and keeps the books |
| ManagerProofs.GivesBackExactly | kvcached/kvcached/kv_cache_manager.py:370-400 | of the pages touched, those without allocated blocks are given back and no others |
| ManagerProofs.ValidFreeGroups | kvcached/csrc/page_allocator.cpp:494-498 | a valid free never divides by zero when grouping |
| Capacity.EstimateGap | kvcached/kvcached/kv_cache_manager.py:471-480 | the estimate exceeds what pages really hold by at most one block a page, by none under divisibility |
| Capacity.AllocExact | kvcached/kvcached/kv_cache_manager.py:309-354 | _alloc refuses exactly when reserved blocks, free blocks of held pages and the estimate for free pages fall short; when it returns exactly the distinct blocks asked for, or raises |
| Capacity.ServesExactly | kvcached/kvcached/kv_cache_manager.py:309-354 | if the pages reported are the pages to come, a request is served exactly when the blocks exist, and under divisibility all others are refused |
| Capacity.CapacityCheckSound | kvcached/kvcached/kv_cache_manager.py:309-354 | a check that passes is kept when the block size divides the page size and the pages exist |
| Capacity.ShrinkServesFromHeld | kvcached/kvcached/kv_cache_manager.py:465-480 | while a shrink is pending a request that passes needs no new page |
| Capacity.ReserveSize | kvcached/kvcached/kv_cache_manager.py:415-425 | a successful reservation leaves max(old, k) blocks reserved |
| Capacity.NumAllocedCountsReservedTwice | kvcached/kvcached/kv_cache_manager.py:553-567 | the count is allocated blocks plus reserved ones once more |
| KVCacheManagers.KVCacheManager.AllocFromPages | kvcached/kvcached/kv_cache_manager.py:325-349 | the loop computes the specified allocation and draws exactly the pages it uses |
| KVCacheManagers.KVCacheManager.Alloc | kvcached/kvcached/kv_cache_manager.py:296-354 | fields and page lists after _alloc, refused, served or raising halfway |
| KVCacheManagers.KVCacheManager.TryToReserve | kvcached/kvcached/kv_cache_manager.py:415-425 | reserved blocks grow by what _alloc returns, and the page lists lose exactly the pages it used |
| KVCacheManagers.KVCacheManager.Free | kvcached/kvcached/kv_cache_manager.py:356-413 | all groups given back, empty pages freed, a due shrink retried; what is left when a broadcast raises |
| KVCacheManagers.KVCacheManager.FreeReserved | kvcached/kvcached/kv_cache_manager.py:427-431 | the list is cleared only if free returned |
| Shrinking.ResizeCallExact | kvcached/kvcached/kv_cache_manager.py:433-454 | resize succeeds exactly when the new size holds pages in use and lost ones, ending a shrink; a refusal starts one, or trips the assertion exactly when blocks are reserved |
| Shrinking.RetryDueIff | kvcached/kvcached/kv_cache_manager.py:402-411 | in every state, free tries a pending shrink exactly when the blocks that count are no more than the target, and otherwise leaves it pending |
| Shrinking.FreeKeepsPendingIff | kvcached/kvcached/kv_cache_manager.py:356-431 | after a whole free or free_reserved the shrink is still pending exactly when the blocks that count exceed the target |
| Shrinking.RetryAsksTheSame | kvcached/kvcached/kv_cache_manager.py:402-454 | the retry asks for the pages of the refused resize under divisibility, else for no more |
| Shrinking.RetryExact | kvcached/kvcached/kv_cache_manager.py:402-411 | when the retry of a pending shrink succeeds; either way the shrink is over, and a refusal leaves the total |
| KVCacheManagers.KVCacheManager.Clear | kvcached/kvcached/kv_cache_manager.py:503-546 | everything given back, trimmed and sorted; what is left when a broadcast raises |
| Clearing.FreeLosesNothing | kvcached/kvcached/kv_cache_manager.py:356-413 | a free that returns loses no page |
| Clearing.ClearRestores | kvcached/kvcached/kv_cache_manager.py:503-546 | a clear that returns leaves a fresh manager, an empty pool, a sorted free list and no page lost |
| Clearing.ClearedState | kvcached/kvcached/kv_cache_manager.py:503-546 | such a clear by a lone caller is a run of the page allocator: its invariant holds afterwards with no page in use |
| Clearing.ClearLeavesAll | kvcached/kvcached/kv_cache_manager.py:503-546 | so no page is listed twice, none counts as used and the free counter is right |
| Clearing.NullBlockAfterClear | kvcached/kvcached/kv_cache_manager.py:276-286 | the null block reserved after such a clear is block 0 exactly when a page holds a block, one is reported and mapped, and page 0 is free |
| Clearing.NullBlockIsZero | kvcached/kvcached/kv_cache_manager.py:276-286 | in any quiet state with nothing in use or pooled the same, page 0 being free unless reclaimed or lost |
| SystemProofs.FreeOk | kvcached/kvcached/kv_cache_manager.py:356-400 | a valid free keeps the books while its pages are still being unmapped |
| SystemProofs.RequestPageOk | kvcached/kvcached/kv_cache_manager.py:325-349 | so does asking for a page |
| SystemProofs.StepSafeIff | kvcached/kvcached/kv_cache_manager.py:296-454 | a step keeps the whole system's invariant exactly when it is not one of the two hazards |
| Safety.RunInvIff | kvcached/kvcached/kv_cache_manager.py:296-454 | along any run the invariant of the whole system holds throughout exactly when no step is a hazard |
| Safety.EveryRunIsSafe | kvcached/kvcached/kv_cache_manager.py:296-431 | over every run without hazards no two outstanding blocks overlap and each lies in one page in use, mapped on every rank |
| Safety.EveryRunIsBooked | kvcached/kvcached/kv_cache_manager.py:309-413 | in every state reached without hazards the counter is the free blocks of available pages, and the two dictionaries divide the pages in use by whether they have any |
| Elastic.EveryRunIsElastic | kvcached/kvcached/kv_cache_manager.py:325-400 | in every such state a page in use has an allocated block exactly when its block range is not empty: no other page is held |
| Elastic.ParkedForever | kvcached/kvcached/kv_cache_manager.py:327-336 | a page with an empty range stays in use whatever calls follow, short of a hazard |
| Elastic.ParkedUntouched | kvcached/kvcached/kv_cache_manager.py:370-400 | no free changes such a page or lists it to be given back |
| Safety.StaleReserveHandedOut | kvcached/kvcached/kv_cache_manager.py:427-431 | after a free_reserved that raised, in free_pages or in the retried shrink, the next _alloc hands out blocks that are not allocated |
| Safety.ShrinkNeverGrows | kvcached/kvcached/kv_cache_manager.py:309-354 | while a shrink is pending no step adds a page in use or reaches alloc_page |
| Safety.ShrinkProtocol | kvcached/kvcached/kv_cache_manager.py:402-454 | from a refused resize until the shrink is over the pages in use only go down |
| Safety.NumAllocedMeaning | kvcached/kvcached/kv_cache_manager.py:553-567 | between calls the count is blocks held by callers or dropped by a failed _alloc, plus twice the reserved ones |
| Safety.CapacityCheckHolds | kvcached/kvcached/kv_cache_manager.py:309-354 | in every quiet state with no id missing the check is sound for the pages the allocator really has |
| Safety.ServesWhatIsThere | kvcached/kvcached/kv_cache_manager.py:309-354 | in such a state a request is served exactly when the blocks exist |
| Safety.RequestExact | kvcached/csrc/page_allocator.cpp:174-224 | in every state reached without hazards, when the loop of _alloc waits for a page and when it raises |
| Safety.TurnedAwayOnlyWhenFull | kvcached/csrc/page_allocator.cpp:213-224 | without a worker it never waits; with one it never raises while a page is in flight or lost |
| Calls.LoneAllocReturns | kvcached/kvcached/kv_cache_manager.py:296-354 | uninterrupted, the steps of _alloc give the caller the blocks, fields and page lists the whole call computes |
| Calls.LoneFree | kvcached/kvcached/kv_cache_manager.py:356-431 | so do those of free and free_reserved, the retried shrink included |
| Calls.LoneResize | kvcached/kvcached/kv_cache_manager.py:433-454 | and those of resize, which meet a hazard exactly when the expansion clashes |
| FTensors.DoKeepsBacked | kvcached/csrc/ftensor.cpp:73-109 | map in range and unmap anywhere never make the driver fault, keep every page backed and do what they say |
| FTensors.EveryHistoryBacked | kvcached/csrc/ftensor.cpp:73-149 | so does every sequence of them |
| FTensors.MapThenUnmap | kvcached/csrc/ftensor.cpp:73-109 | mapping and unmapping a page restores the table |
| FTensors.FTensor.constructor | kvcached/csrc/ftensor.cpp:133-149 | the whole range starts backed by the zero page |
| FTensors.FTensor.Map | kvcached/csrc/ftensor.cpp:73-89 | skips a mapped page, else replaces zeros by a private page |
| FTensors.FTensor.Unmap | kvcached/csrc/ftensor.cpp:91-109 | fails on a page that is not mapped, one outside the tensor included, else restores the zero page |
| FTensors.ActivationFTensor.MapAll | kvcached/csrc/ftensor.cpp:182-202 | every page becomes private; repeating it changes nothing |
| FTensors.ActivationFTensor.UnmapAll | kvcached/csrc/ftensor.cpp:204-235 | every page is zero again |
| Layouts.AlignedIsLeast | kvcached/csrc/allocator.cpp:122-129 | the tensor size is the least multiple of the page size that covers the request |
| Layouts.FitsIff | kvcached/csrc/allocator.cpp:39-45 | when that size suits each layout's assertions |
| Layouts.OffsetsReachTargets | kvcached/csrc/page_allocator.cpp:636-648 | map_pages' offsets reach exactly the tensor pages of those page ids |
| Layouts.TargetsAreTheirs | kvcached/csrc/allocator.cpp:176-223 | a tensor page is reached exactly if it is the K or V part of a page asked for |
| Layouts.ShareIff | kvcached/csrc/allocator.cpp:199-223 | two page ids share a tensor page exactly when equal or half a split tensor apart |
| Layouts.Injective | kvcached/csrc/allocator.cpp:176-223 | below the region's page count targets are aligned, in range and disjoint |
| Layouts.TargetsDistinctIff | kvcached/csrc/allocator.cpp:176-223 | a request repeats a tensor page exactly when its ids repeat or are half a split tensor apart |
| FTensorAllocators.MapRollbackIff | kvcached/csrc/allocator.cpp:162-174 | a rolled-back map restores the tensors exactly when what it reached was unmapped before |
| FTensorAllocators.FTensorAllocator.CreateKvTensors | kvcached/csrc/allocator.cpp:114-147 | one tensor, or one a layer, with nothing mapped |
| FTensorAllocators.FTensorAllocator.MapToKvTensors | kvcached/csrc/allocator.cpp:154-225 | all targets are mapped, or those reached are unmapped and false is returned |
| FTensorAllocators.FTensorAllocator.UnmapFromKvTensors | kvcached/csrc/allocator.cpp:227-296 | true exactly when the targets are distinct and all mapped, removing exactly them; else, for offsets outside the tensors too, nothing changes |
| TpIpc.CheckResponses | kvcached/kvcached/tp_ipc_util.py:235-241 | a broadcast raises exactly when some rank failed, naming the first |
| TpIpc.Worker.Handle | kvcached/kvcached/tp_ipc_util.py:153-191 | what each command does to the rank's tensors and answers |
| TpIpc.PagesInRange | kvcached/csrc/page_allocator.cpp:636-648 | offsets of pages that have room meet the listener's needs |
| TpIpc.ListenerIsRank | kvcached/kvcached/tp_ipc_util.py:153-191 | a listener acts on offsets as the rank model acts on pages |
| Ranks.MapOnRank | kvcached/csrc/allocator.cpp:154-225 | a map request touches its own pages only, and one that succeeds completes pages mapped in part |
| Ranks.UnmapOnRank | kvcached/csrc/allocator.cpp:227-296 | an unmap request touches its own pages only and succeeds exactly when delivered, heard and all are mapped |
| Ranks.AnswerAllowed | kvcached/kvcached/tp_ipc_util.py:222-264 | whatever a rank does is an answer the page allocator's model allows for |
| Ranks.MoveKeepsLinked | kvcached/kvcached/tp_ipc_util.py:222-264 | every step keeps what is thought mapped equal to what the ranks' tensors hold |
| BlockBytes.BytesInTargets | kvcached/kvcached/integration/sglang/interfaces.py:122-166 | every byte of a block, K and V, lies in a tensor page reached for the block's page |
| BlockBytes.BytesApart | kvcached/kvcached/integration/sglang/interfaces.py:122-166 | below the region different blocks share no byte of any tensor |
| BlockBytes.RoomIff | kvcached/csrc/allocator.cpp:154-225 | the tensors have room for a page id exactly when it is below the region |
| Ranks.EveryBlockResident | kvcached/kvcached/kv_cache_manager.py:296-431 | over every run without hazards that stays within the tensors no byte of a KV tensor belongs to two outstanding blocks, and every byte of one is privately backed on every rank |
| Ranks.OnlyTransportLoses | kvcached/kvcached/tp_ipc_util.py:244-264 | an unmap fails exactly when the request or its answer is lost |
| Faults.TwoOwners | kvcached/csrc/page_allocator.cpp:343-368 | a run in which, after a clashing expansion, one block has two owners |
| Faults.OutgrownBlocksOverlap | kvcached/csrc/allocator.cpp:199-223 | a run without hazards after which two outstanding blocks share a byte, the tensors being too small |
| Faults.ShrinkDropped | kvcached/kvcached/kv_cache_manager.py:402-411 | a run in which the retried shrink is refused and forgotten |
| Faults.ShrinkStays | kvcached/kvcached/kv_cache_manager.py:402-411 | a run in which a free too small for the target leaves the shrink pending |
| Scenario.SomeBlockResident | kvcached/kvcached/kv_cache_manager.py:415-425 | such runs exist: one in which a block is reserved and is resident |
| Scenario.FreeBlockHandedOut | kvcached/kvcached/kv_cache_manager.py:427-431 | from a fresh allocator a lost unmap request leads to a free block being handed out |
| GraphPartition.GetGraphPartitionSignature | vllm/env_override.py:184-322 | each signature is the one the later partitions' needs call for, with its own partition's flag |
| GraphPartition.SignatureNames | vllm/env_override.py:229-314 | what a signature takes, frees and lists as constants, in terms of the nodes; the flag is the partition's |
| GraphPartition.InputsAreLive | vllm/env_override.py:231-272 | run in order, every partition finds alive what it takes, reads or frees |
| GraphPartition.OutputsAreLive | vllm/env_override.py:279-320 | every graph output is alive at the end and was returned by some partition |
| GraphPartition.FreedOnce | vllm/env_override.py:254-277 | what a partition frees is alive then and never taken, freed or returned by the graph later |
| GraphPartition.LastUseFrees | vllm/env_override.py:254-277 | a buffer whose last use is in a partition is freed there |
| GraphPartition.ReturnedIffTaken | vllm/env_override.py:229-320 | a partition returns what it makes exactly when the graph or a later partition wants it |
| Logprobs.GetItemAgrees | vllm/logprobs.py:110-122 | indexing, from either end, agrees with the list and raises where it does |
| Logprobs.AppendGrows | vllm/logprobs.py:63-93 | appending adds one position and leaves the others as they were |
| Logprobs.HistoryRefines | vllm/logprobs.py:63-206 | every sequence of appends and extensions keeps the container and the list alike |
| Logprobs.EveryHistoryAgrees | vllm/logprobs.py:175-206 | from empty containers, position by position and from either end |
| Logprobs.NextEntriesAre | vllm/logprobs.py:175-206 | which entries are appended: the sampled token with its rank, then ranks 1, 2, ..., as many as asked for or as the lists last |
| Logprobs.LastEntryWins | vllm/logprobs.py:110-122 | a position has the tokens of its entries, each as its last entry says |
| Logprobs.PicksAreTerms | vllm/logprobs.py:123-134 | a slice picks start, start + step and so on, short of stop |
| Logprobs.BoundsWrap | vllm/logprobs.py:123-134 | negative, missing and outlying bounds of a slice |
| Logprobs.RangeElements | vllm/logprobs.py:123-134 | the entries a slice copies, for any bounds |
| Logprobs.SliceFaithfulIff | vllm/logprobs.py:123-134 | a slice reads like the list's exactly when it goes forward, picks one position, or picks empty ones |
| Logprobs.SliceThenExtend | vllm/logprobs.py:123-134 | a forward slice can be extended further and stays like the list |
| Logprobs.FlatLogprobs.Append | vllm/logprobs.py:63-72 | one position with the entries given, none for None |
| Logprobs.FlatLogprobs.AppendFast | vllm/logprobs.py:74-93 | one position with the zipped entries, as many as the shortest list has |
| Logprobs.FlatLogprobs.Extend | vllm/logprobs.py:95-98 | one position for each given |
| Logprobs.FlatLogprobs.AppendNext | vllm/logprobs.py:175-194 | the entries with the sampled rank first |
| Logprobs.FlatLogprobs.Slice | vllm/logprobs.py:123-134 | the shifted container, of any container and for any bounds; a raise exactly when the step is zero or nothing is picked |
| Logprobs.FlatLogprobs.Iterate | vllm/logprobs.py:146-153 | every position in order |
| ScalarTypes.MaskIsMod | vllm/scalar_type.py:146-151 | masking reduces modulo a power of two, for negative fields too |
| ScalarTypes.PackIsSum | vllm/scalar_type.py:143-160 | fields are added at their own offsets and fit the total width |
| ScalarTypes.FieldReadBack | vllm/scalar_type.py:143-160 | every field can be read back from the id |
| ScalarTypes.IdLayout | vllm/scalar_type.py:136-164 | the bit position of every field in the id |
| ScalarTypes.SameIdIff | vllm/scalar_type.py:136-164 | ids are equal exactly when fields agree modulo their widths |
| ScalarTypes.IdFits | vllm/scalar_type.py:136-164 | ids fit 58 bits |
| ScalarTypes.IdInjective | vllm/scalar_type.py:136-164 | on fields in range ids are unique |
| ScalarTypes.FromIdIsLast | vllm/scalar_type.py:308-312 | from_id answers with the last type registered under the id, whatever the fields |
| ScalarTypes.RoundTrip | vllm/scalar_type.py:308-312 | from_id(t.id) is t after any in-range constructions, and other ids are unknown |
| ScalarTypes.TypeRegistry.GetId | vllm/scalar_type.py:136-164 | computes the id field by field and registers the type |
| ScalarTypes.RangeIsBitPatterns | vllm/scalar_type.py:107-134 | an integer type's range has one value per bit pattern, when it has one |

## Left out

- Ranks.EveryBlockResident: runs stop short of the hazards, beyond which the invariant is lost (RunInvIff), and of a resize that outgrows the tensors; that safety itself is then lost is shown by runs (TwoOwners, FreeBlockHandedOut, OutgrownBlocksOverlap), not for every run beyond.
- Safety.EveryRunIsSafe: likewise for the hazards, and so EveryRunIsBooked and EveryRunIsElastic.
- Calls.LoneAllocReturns: the calls of Calls.dfy are tied to the classes for broadcasts that work and nobody else acting; a raising or interrupted call is covered by the run theorems alone.
- Clearing.ClearedState: clear is a call of the class and of a lone caller; no run of System interleaves it.
- KVCacheManagers.KVCacheManager.Alloc: a request for a negative number of blocks is not modelled; the resize check that precedes it is the separate call Resize; waiting for another thread's page counts as raising, since a lone caller would wait for ever.
- KVCacheManagers.KVCacheManager.Free: the dictionaries hold page values, so that two names for one page object are not captured; the order in which the hash map is walked is an input; sanity checks are off.
- FTensorAllocators.FTensorAllocator.MapToKvTensors: FTensor::map reports no failure, so where a map would fail is an input; a failing driver call ends the process.
- GraphPartition.GetGraphPartitionSignature: names are not renamed by mutation, no buffer has a none layout, ordered sets are sets and symbol inputs are left out.
- Logprobs.FlatLogprobs.Append: log-probabilities are reals.
- ScalarTypes.RangeIsBitPatterns: floating-point ranges go through the encoding of doubles and are left out, as are the names of types and the comparisons of the NaN enumeration with numbers.
- Liveness: which notifications wake which waiters, so no promise that a waiting caller goes on.
- Measuring physical memory, environment settings (the reserve bounds are natural numbers here), shared-memory limits and the polling loop that watches for a new limit: free pages and resize targets are inputs.
- Sockets, pickling, timing and logging; of a broadcast only each rank's tensors and its success or failure remain.
- Starting and stopping threads and the wait for post-initialisation. The map callback's default stage and group are taken to be the right ones.
- Integer widths: 64-bit sizes and ids do not wrap; a negative count compared as unsigned is treated as too large, as it is for lists of fewer than 2^63 pages.
- CUDA handles, access flags and page contents; creating the tensors a second time and destroying them.
- kvcached's controller and vLLM's operator wrappers, configuration and other patches.
