# A verified model of the heap allocator

The allocator serves requests of up to 4096 bytes from pools of fixed-size slots and larger ones
from a boundary-tag heap with an intrusive free list. It comes in three concurrency stages: one
global mutex, one mutex per pool and one for the general heap, and, in stage 3, a cache of free
slots for each thread in front of every pool. This project models both paths down to the words
they write and proves what the code promises of them, on every run of any number of threads.

`dafny verify dfyconfig.toml` checks everything.

## How the model is laid out

| files | what they hold |
|---|---|
| Machine, FreeList | flat memory of 8-byte words, the operating system as a script of answers, block tags, the doubly linked free list as a class that rewrites links in place |
| HeapModel, HeapLaws | the general heap as a value (arenas, blocks, list order), each operation as a function on it, and the laws of those operations |
| GeneralPath | the class `GeneralHeap`: headers, footers and links rewritten in place, every method proved to carry out its function of HeapModel |
| MemoryPool, ThreadCache, CacheLaws | the classes `Pool` and `ThreadLocalCache`, their effect as functions, and why the cache pays |
| SlotSystem, Threads | where every slot is, and all three stages as a transition system: one program counter, one set of registers and at most one mutex per thread |
| ThreadInvariant, ThreadProof, ThreadSlotProof, ThreadSlotSteps, ThreadHeapProof, ThreadLaws | the invariant of that system and the proof that every step keeps it |
| AtomicAllocator, ThreadRefinement | an allocator whose calls take effect in one step, and the proof that every run behaves like it |
| ThreadSafety, ThreadGuards, ThreadContracts, ThreadProgress, ThreadBudget, ThreadCalls | what follows on every run: safety of live pointers, which mutex guards what, absence of write conflicts, the contract of realloc, progress, the lock budget, and what a whole pooled call serves |
| PooledCalls, GeneralCalls, Bytes, PublicApi | the class `Allocator`: the four public functions as one thread calls them in stage 3, over one memory shared by all pools, caches and the general heap |

Memory is a map from word addresses to words. Headers, footers, links, slot tags and client data
all live in that one map, and every frame is a statement about it: what an operation may write,
and whose words those are. The functions that specify `GeneralHeap` are also the critical sections of
the transition system; its pooled steps are finer, and ThreadCalls proves that together they do
what the functions say that specify `Pool` and `ThreadLocalCache`. `PublicApi` reuses the invariant
of the threads as its class invariant. Results state the code's numbers (16, 32, 48, 64, 256, 4096)
themselves, not the names of the constants the model computes with.

## Assumptions

- The operating system either refuses or grants a fresh, page-aligned region disjoint from all
  others, of at least the requested size rounded up to whole pages (include/os_memory.hpp:34-54).
  `Machine.AskGrants` states this. Which requests succeed is arbitrary.
- Requests are at most 2^64 - 48 bytes. `Machine.AlignUpExact` proves that this is the exact bound
  up to which neither the rounding (src/allocator.cpp:166-169) nor the addition of header and
  footer (src/allocator.cpp:630) wraps to something smaller than the request.
- Pools live at distinct addresses above the size of any mapping (`Threads.ConfigOk`), which is
  why no size word equals the address of a pool (src/allocator.cpp:696-705).
- Clients free, reallocate and write only pointers they hold, each in one call at a time
  (include/allocator.hpp:57-59).
- Steps are sequentially consistent, and a mutex is an atomic owner. One turn of a refill loop,
  one detachment of a batch, one splice and one pool expansion are single steps. So is each
  critical section of the general path and the copy of a moving realloc. That granularity loses
  nothing that another thread could observe: `ThreadGuards.RunHasNoWriteConflict` shows that no
  other thread may write a word that the section writes, the section leaves the tags and payloads of
  other threads' pointers alone, and each half of a free, a reuse and a growth keeps the header
  word of every other live block on its own (`LiveTagsKept` in GeneralPath.dfy). Those header words are all
  that is read without the lock.

Where the documentation and the code differ, the model follows the code. The comment at
src/allocator.cpp:864-877 says that `my_malloc(0)` returns a zero-payload block; the code serves
size 0 from the 16-byte class. docs/memory-model.md:172-205 splits a block for `my_malloc(100)`,
a size that the code now serves from a pool.

## Model

| member | source | states |
|---|---|---|
| ThreadRefinement.RunRefines | src/allocator.cpp:592-927 | every step of every interleaving, in all three stages, is a step of the atomic allocator or none: each call has its effect at one moment (a moving realloc: allocate, copy, free) on the map from live pointers to payload contents |
| ThreadRefinement.StepRefines | src/allocator.cpp:305-394 | the same for one step of one thread from any state that satisfies the invariant |
| ThreadRefinement.ClientRefines | include/allocator.hpp:33-39 | a client's write changes that one word of that one abstract payload |
| ThreadLaws.RunInv | src/allocator.cpp:592-927 | every reachable state satisfies the invariant: memory spells out every chain, the tags and the free list, every live pointer has one owner, every mutex the thread inside its section |
| ThreadLaws.StepKeeps | src/allocator.cpp:592-927 | a step of one thread keeps the invariant and leaves every other thread, its caches and every pointer the thread does not own untouched, payload included |
| ThreadSafety.LiveIsSafe | include/allocator.hpp:33-39 | on every run live pointers are 16-aligned, lie in granted memory with their headers, and are pairwise disjoint |
| ThreadSafety.ResultIsLargeEnough | src/allocator.cpp:592-645 | what a call is about to return is live, owned by its thread alone and at least as large as requested |
| ThreadSafety.SlotPartition | src/allocator.cpp:305-394 | every slot ever carved is live, or exactly once in exactly one of a pool chain, a thread's cache or a thread's batch in flight |
| ThreadSafety.SlotsStay | src/memory_pool.cpp:34-109 | no step loses a slot |
| ThreadSafety.CacheShape | src/allocator.cpp:301-394 | a cache is a null-terminated chain of at most 64 slots, 65 only between the push and the flush it causes; a flush carries exactly 32 and leaves 33 |
| ThreadSafety.RoutingIsExact | src/allocator.cpp:696-729 | the word before a live payload holds the address of the slot's own pool, and for a general block no pool's address |
| ThreadSafety.TagIsStable | src/allocator.cpp:707-712 | no step of a thread that does not own a pointer changes the word it is routed by |
| ThreadSafety.TagStaysUnread | src/allocator.cpp:707-712 | the same for whatever happens next, client writes to any payload included |
| ThreadSafety.PayloadIsStable | include/allocator.hpp:52-61 | no step of a thread that does not own a pointer changes its size or a word of its payload |
| ThreadGuards.SectionsExclude | src/allocator.cpp:266-289 | on every run, in terms of where threads stand: in stage 1 at most one thread is in any section and a thread at the door of one can enter exactly when nobody is; in stages 2 and 3 the same for the sections of one pool, and for those of the general path, independently |
| ThreadGuards.RunLeavesOwn | src/allocator.cpp:607-612 | a thread leaving a section holds the mutex of its own pool or of the general path |
| ThreadSafety.LocksExclude | src/allocator.cpp:272-289 | one thread per mutex, and a thread inside a section waits for no other mutex, not even when realloc goes on to malloc and free |
| ThreadSafety.GuardedByLocks | src/allocator.cpp:328-331 | a pool's chain changes only under its mutex, the general heap and its list head only under the general mutex, a cache only by its own thread |
| ThreadSafety.RunFragmentation | src/allocator.cpp:749-789 | on every run free blocks never outnumber live general blocks and arenas together, one list entry each |
| ThreadSafety.RunNothingLive | src/allocator.cpp:749-789 | on every run, when no general block is live each arena is tagged in memory as one free block of its used size less 32, with one list entry per arena |
| ThreadGuards.WritesAreGuarded | src/allocator.cpp:328-394 | every word a step changes is in the thread's own cache, batch or pointer, in a pool chain whose mutex it holds, or in an arena under the general mutex and in no other owner's block |
| ThreadGuards.NoWriteConflict | src/allocator.cpp:364-366 | in every state that satisfies the invariant, no two threads may write the same word |
| ThreadGuards.RunHasNoWriteConflict | src/allocator.cpp:272-289 | on every run, a word changed by one thread's step is one no other thread may write at that moment |
| ThreadGuards.MemoryHoldsHeap | src/allocator.cpp:606-645 | in every reachable state memory and the head register spell out the general heap, tags and links, as every critical section requires on entry |
| ThreadContracts.ReallocContract | src/allocator.cpp:792-927 | whatever other threads do during a call of my_realloc, at its return the old payload is at the result, which is large enough, or the call failed and the old pointer has its size and every word |
| ThreadContracts.ReallocSamePointer | src/allocator.cpp:810-911 | among other threads too, my_realloc returns the same pointer exactly when, at the step that decides it, the slot or block was large enough or the free block right after it ended far enough on for the rounded request |
| ThreadContracts.NullMeansRefused | src/allocator.cpp:630-635 | an allocating call returns null only if the system refused that thread memory during that very call |
| ThreadContracts.RefusalMeans | src/allocator.cpp:400-420 | a refusal happens only when the pool's chain is empty, or no listed block fits and the last arena lacks room, and exactly that request was denied; nothing but the thread's position changes |
| ThreadProgress.NoDeadlock | src/allocator.cpp:844-925 | in every reachable state a thread inside a call can step, or waits for a mutex whose owner can |
| ThreadProgress.RunnersRun | src/allocator.cpp:592-927 | a thread that is inside a call and not waiting for a mutex can always step |
| ThreadProgress.RespellWorks | src/allocator.cpp:573-588 | whatever valid heap a critical section computes, memory can be rewritten to spell its tags and links without touching live payloads or anything outside the arenas |
| ThreadBudget.RunLockBudget | src/allocator.cpp:131-141 | while the system supplies a thread's refills, N operations on its cache of one class acquire the pool's mutex at most 1 + (N - 1) / 32 times on any run, whatever other threads do |
| ThreadBudget.RunLocksAreApart | src/allocator.cpp:320-394 | two acquisitions of one pool by one thread are at least 32 of its operations apart |
| ThreadBudget.LocksArePaid | src/allocator.cpp:320-394 | between any two states of a run, 32 times the acquisitions is bounded by the operations and the change in reserve |
| ThreadCalls.MallocServes | src/allocator.cpp:320-340 | on a run in which only one thread moves, from one idle state of it to the next, a pooled malloc serves the slot and leaves cache, chain and system as the cache's function says in stage 3 and the pool's in stages 1 and 2 |
| ThreadCalls.FreeLeaves | src/allocator.cpp:381-394 | the same for a pooled free, flushing or not |
| ThreadCalls.CallsServe | src/allocator.cpp:305-394 | any number of such calls hand out, in order, the slots the cache as a value serves |
| ThreadCalls.CallsServeLikeStack | src/allocator.cpp:305-340 | so, until the first flush, a thread's calls on a run hand out the slots direct locked use of the pool would have, in the same order |
| ThreadCalls.RefillKeepsOrder | src/memory_pool.cpp:82-104 | whatever other threads do, all through a refill the batch followed by the chain is what they were at its start followed by the slots of the arenas granted to it |
| CacheLaws.LockBudget | docs/benchmarks.md:47-51 | the same bound for a cache as a value, with other threads leaving the pool and the system in any state between its operations |
| CacheLaws.LocksAreApart | src/allocator.cpp:320-394 | a stretch that begins with an acquisition and holds at most 32 own operations holds no other, with the same interference |
| CacheLaws.CacheServesLikeStack | src/allocator.cpp:305-340 | until its first flush a cache serves the slots direct locked use of the pool would have served, in the same order, across refills and new arenas |
| CacheLaws.FlushPartsOrder | src/allocator.cpp:348-366 | at a flush the two orders part: the stack would next serve the slot just freed, the cache the one 32 deeper |
| CacheLaws.NullIsRefusal | src/allocator.cpp:320-340 | a pooled allocation fails exactly when cache and chain are empty and the system refuses an arena |
| CacheLaws.FreeConserves | src/allocator.cpp:381-394 | a pooled free, flushing or not, conserves the slots of cache and pool and adds the one freed |
| CacheLaws.BatchConserves | src/memory_pool.cpp:82-104 | a batch that outruns the chain takes it whole and goes on with the new arena's slots, losing, doubling and reordering nothing |
| MemoryPool.BatchRoundTrip | src/memory_pool.cpp:82-109 | splicing a batch straight back restores the chain exactly when no arena was granted: the chain held enough, or the system refused |
| MemoryPool.BatchIsPrefix | src/memory_pool.cpp:82-104 | while the chain holds enough, a batch is its first slots in order and the system is not asked |
| MemoryPool.CarvedSlots | src/memory_pool.cpp:43-54 | carving covers a region with distinct, disjoint, aligned whole slots |
| MemoryPool.CarvedAt | src/memory_pool.cpp:48-54 | a region yields exactly the whole slots that fit, and the one carved last comes first |
| MemoryPool.CarvedCount | src/memory_pool.cpp:48-54 | a region of n slot sizes yields at least n slots |
| MemoryPool.Pool.Expand | src/memory_pool.cpp:34-57 | on a grant the carved slots are chained in front and the chain stays spelled out; on a refusal nothing changes |
| MemoryPool.Pool.Allocate | src/memory_pool.cpp:59-74 | the first slot, or the first of a new arena, or null, tagged with the pool's address, as the function Taken says |
| MemoryPool.Pool.Deallocate | src/memory_pool.cpp:76-80 | the slot is pushed in front of the chain |
| MemoryPool.Pool.AllocateBatch | src/memory_pool.cpp:82-104 | the batch is what that many successive allocations would return, as one null-terminated chain with its tail and count, across expansion and refusal |
| MemoryPool.Pool.DeallocateBatch | src/memory_pool.cpp:106-109 | one write splices a whole chain in front |
| ThreadCache.ThreadLocalCache.PopFromCache | src/allocator.cpp:305-315 | the first cached slot leaves the cache tagged as live; head, tail and count agree with the rest |
| ThreadCache.ThreadLocalCache.MallocPooled | src/allocator.cpp:320-340 | the slot and the state that the function Malloc says, every slot conserved, one acquisition on a miss and none on a hit |
| ThreadCache.ThreadLocalCache.DetachBatch | src/allocator.cpp:348-362 | the first 32 slots, or all when fewer, leave as a null-terminated chain, and head, tail and count fit the remainder |
| ThreadCache.ThreadLocalCache.FlushBatchToPool | src/allocator.cpp:348-366 | those slots end up in front of the pool's chain in order |
| ThreadCache.ThreadLocalCache.FreePooled | src/allocator.cpp:381-394 | the slot goes to the cache, and past 64 a flush follows, as the function Free says; an acquisition exactly then |
| SlotSystem.PopKeeps | src/allocator.cpp:305-315 | taking the first slot of any chain and tagging it keeps chains, tags, exclusiveness and completeness |
| SlotSystem.PushKeeps | src/memory_pool.cpp:76-80 | so does pushing a live slot on any chain |
| SlotSystem.TransferKeeps | src/allocator.cpp:336-366 | so does moving slots between two chains when memory spells out both afterwards |
| SlotSystem.ExpandKeeps | src/memory_pool.cpp:34-57 | so does adding the slots of a freshly granted region to a pool |
| SlotSystem.ClassFor | src/memory_pool.cpp:119-126 | the smallest class that holds the request, and none exactly above 4096 bytes |
| SlotSystem.ClassIsPower | include/memory_pool.hpp:167-174 | that class is the smallest power of two from 16 to 4096 that holds the request |
| HeapLaws.ReleaseCoalesces | src/allocator.cpp:731-790 | freeing refines "mark free, then merge every maximal free run" on each arena read as a plain list |
| HeapLaws.CoalesceMeans | docs/memory-model.md:207-236 | merging leaves no adjacent free pair, keeps every byte and keeps the live blocks in order |
| HeapLaws.AllocateMeans | src/allocator.cpp:612-645 | an allocation keeps the heap valid and hands out an aligned, disjoint, large enough new block, or returns null exactly when nothing listed fits, the last arena lacks room for block and overhead, and the system refuses that many bytes or a whole arena, whichever is more; the system is asked in no other case |
| HeapLaws.OpenedArena | src/allocator.cpp:409-419 | an allocation opens at most one arena, of the usual size, or of the block's if that is larger, rounded up to pages |
| HeapLaws.ArenaServes | src/allocator.cpp:400-407 | blocks that together fit in what is left of the last arena are all served without asking the system |
| HeapLaws.ArenaLasts | src/allocator.cpp:148-155 | after an arena was opened, blocks that together with its first one fit in an arena of the usual size are all served without asking again |
| HeapLaws.ReuseSplits | src/allocator.cpp:563-588 | what a reused block has left over is cut off and listed exactly when it is at least 48 bytes |
| HeapLaws.AllocateIsFirstFit | src/free_list.cpp:41-48 | the earliest listed block that is large enough serves the request, and the system is not asked |
| HeapLaws.ReleaseMeans | src/allocator.cpp:731-790 | a free ends exactly one live block and leaves every other as it was |
| HeapLaws.GrowMeans | src/allocator.cpp:889-906 | growth in place keeps the address, takes exactly the size when 48 bytes or more are left over and the whole otherwise, keeps the heap valid (no adjacent free pair, excess listed) and every other live block |
| HeapLaws.FreeUndoesMalloc | src/allocator.cpp:573-588 | freeing what was just served from a listed block restores every block, and the list up to order, split or not |
| HeapLaws.FragmentationBound | src/allocator.cpp:749-789 | in every valid heap free blocks are at most live blocks plus arenas, with one list entry each |
| HeapLaws.NothingLive | src/allocator.cpp:749-789 | with nothing live every arena is one free block of its used size less 32 |
| HeapModel.ReuseValid | src/allocator.cpp:620-625 | serving from a listed block keeps tiling, alignment, the list and no adjacent free pair |
| HeapModel.GrowValid | src/allocator.cpp:896-905 | so does absorbing the right neighbour and splitting off the excess |
| HeapModel.CarveValid | src/allocator.cpp:627-644 | so does carving at the bump pointer of the last arena, old or just opened |
| HeapModel.CanGrowIs | src/allocator.cpp:889-897 | the test for growing in place, the neighbour's header and footer counted, is whether the free block right after ends far enough on |
| HeapModel.NeighbourFacts | src/allocator.cpp:456-520 | the block after and the block before a block, when they exist, are its only physical neighbours, and there is none before exactly at the base of the arena |
| HeapModel.FirstFitComplete | src/free_list.cpp:41-48 | when first fit finds nothing, every listed block is too small |
| GeneralPath.GeneralHeap.Malloc | src/allocator.cpp:612-645 | in memory: the new heap, list head, system and pointer are what the function Allocate says, and no live payload and nothing outside the arenas is written |
| GeneralPath.GeneralHeap.Free | src/allocator.cpp:731-790 | in memory: right then left merging with one insertion is Release, writing no other live payload |
| GeneralPath.GeneralHeap.FreeRight | src/allocator.cpp:749-767 | the first half alone: no other live block's payload or header word is written |
| GeneralPath.GeneralHeap.FreeLeft | src/allocator.cpp:769-789 | the second half alone, likewise |
| GeneralPath.GeneralHeap.ResizeInPlace | src/allocator.cpp:853-907 | the locked half of realloc keeps the pointer exactly when the block is large enough or the free block right after it ends far enough on; it grows or changes nothing accordingly, and loses no data |
| GeneralPath.GeneralHeap.GrowOver | src/allocator.cpp:896-905 | growing writes no payload word, the block's own included, and no other live header |
| GeneralPath.GeneralHeap.ArenaOwning | src/allocator.cpp:445-454 | finds the arena whose carved part holds the address |
| GeneralPath.GeneralHeap.RightNeighborIfFree | src/allocator.cpp:460-482 | the header walk returns exactly the next block of the tiling when it is free, and null otherwise |
| GeneralPath.GeneralHeap.LeftNeighborIfFree | src/allocator.cpp:488-520 | the footer walk returns exactly the previous block of the tiling when it is free, and null otherwise |
| GeneralPath.GeneralHeap.AbsorbRightNeighbor | src/allocator.cpp:557-561 | unlinks the neighbour and retags the joined block; only its header, its last footer and links change |
| GeneralPath.GeneralHeap.MaybeSplit | src/allocator.cpp:573-588 | shrinks to the size and lists the remainder exactly when that is at least 48 bytes |
| GeneralPath.GeneralHeap.ArenaWithRoom | src/allocator.cpp:400-420 | the last arena when it has room, else one of at least the usual size that really has, else failure exactly of the larger of the two requests |
| GeneralPath.GeneralHeap.FindFit | src/allocator.cpp:620-620 | the search in memory finds the first fit of the list |
| GeneralPath.SpelledFrame | include/block.hpp:207-214 | tags and links survive every write that misses headers, footers and links |
| FreeLists.FreeList.Insert | src/free_list.cpp:7-18 | pushes in front with next and prev at bytes 16 and 24; only the new links and the old head's back link change |
| FreeLists.FreeList.Remove | src/free_list.cpp:20-39 | takes the block out wherever it stands and nulls its links; only links of members change |
| FreeLists.FreeList.FindFirstFit | src/free_list.cpp:41-48 | the earliest member large enough, or null when every member is smaller |
| FreeLists.FreeList.Size | src/free_list.cpp:50-56 | the number of members |
| FreeLists.RemoveLinks | src/free_list.cpp:20-39 | joining the two neighbours spells out the list without the member, at head, middle and tail |
| FreeLists.InsertLinks | src/free_list.cpp:11-17 | the written links spell out the list with the block in front |
| FreeLists.WithoutMembers | src/free_list.cpp:20-39 | removal keeps every other member, once |
| BlockTags.TagPacking | include/block.hpp:130-150 | size and flag share a word and each accessor reads and writes its own part only |
| Machine.AlignUpExact | src/allocator.cpp:166-169 | rounding is exact up to 2^64 - 16, and with header and footer the block asked for covers the request exactly up to 2^64 - 48 |
| Machine.AskGrants | include/os_memory.hpp:34-54 | a grant is fresh, aligned, at least the request and less than a page more; a refusal maps nothing |
| Machine.GrantIsPages | include/os_memory.hpp:34-43 | a grant is whole pages at a page boundary |
| Machine.Memory.Acquire | include/os_memory.hpp:41-54 | a grant maps fresh zero words and changes no old one |
| PublicApi.Allocator.MyMalloc | src/allocator.cpp:592-645 | ISO/IEC 9899:2018 section 7.22.3.4: a new aligned pointer large enough and clear of all live extents, or null exactly when its path has no memory; every other live pointer keeps its size and data |
| PublicApi.Allocator.MyFree | src/allocator.cpp:691-790 | section 7.22.3.3: exactly that pointer stops being live, every other keeps its size and data; null does nothing |
| PublicApi.Allocator.MyRealloc | src/allocator.cpp:792-927 | section 7.22.3.5: the same pointer exactly when slot or block suffice, or the free block right after ends far enough on; null exactly when it must move and there is no memory, then nothing changes; the data survives in every case |
| PublicApi.Allocator.MyCalloc | src/allocator.cpp:647-689 | section 7.22.3.2: null, with nothing changed, when the product exceeds 2^64 - 1; otherwise malloc of the product with every byte zero |
| PublicApi.Allocator.ResizeGeneral | src/allocator.cpp:853-911 | over the shared memory: the pointer is kept exactly when it can stay, with its data and enough room |
| PublicApi.Allocator.Move | src/allocator.cpp:913-926 | allocate, copy, free: the data is at a new pointer and the old one is gone, or nothing changed |
| PublicApi.Allocator.RouteOf | src/allocator.cpp:696-714 | the tag word of a live pointer leads to its own class or to the general path |
| PublicApi.Allocator.KnownPool | src/allocator.cpp:257-264 | the index of the pool at an address, or none when there is none |
| PublicApi.Allocator.constructor | src/memory_pool.cpp:31-32 | empty memory with empty pools and caches is a valid start with nothing live |
| PublicApi.Allocator.CopyTo | src/allocator.cpp:923-924 | the words copied are those of the source, and nothing but the target's payload is written |
| PublicApi.Allocator.Zero | src/allocator.cpp:687-687 | every byte of the range is zero and nothing but that payload is written |
| PublicApi.OverflowCheck | src/allocator.cpp:648-663 | the division check refuses exactly the pairs whose product exceeds 2^64 - 1 |
| PooledCalls.CallMemory | src/allocator.cpp:320-394 | a whole pooled call keeps pools, caches, live slots and the general heap in order in the shared memory |
| PooledCalls.CallKeeps | src/allocator.cpp:320-394 | and keeps every live pointer but the one it frees |
| GeneralCalls.MallocCall | src/allocator.cpp:612-645 | a general malloc in the shared memory keeps slots and live pointers, and fails exactly when there is no memory |
| GeneralCalls.GrowCall | src/allocator.cpp:896-905 | growth in the shared memory keeps every pointer, the grown one's data included |

## Left out

- MyMalloc: requests above 2^64 - 48 bytes, where the rounding or the block size wraps; `Machine.AlignUpExact` shows that the bound is exact.
- MyRealloc: the same bound on the new size.
- MyCalloc: products between 2^64 - 47 and 2^64 - 1, for the same reason.
- RunRefines: my_calloc is not a call of the thread model; there it is my_malloc followed by the client's writes of zero.
- RunLockBudget: counts only runs in which the system supplies the thread's own refills, as the bound does; a refused refill may be retried at once.
- CacheServesLikeStack: ends at the first flush, after which the orders do differ (`CacheLaws.FlushPartsOrder`).
- NoDeadlock: says that some thread can always step, not that every thread gets its turn; a mutex may be handed out unfairly.
- MallocServes: says what a pooled call computes when no other thread moves in between; among other threads the order of a refill (`ThreadCalls.RefillKeepsOrder`), the partition of slots and the refinement hold.
- Calls of free and realloc with null are not separate calls of the thread model: the first does nothing, the second is malloc; both are calls in `PublicApi`.
- CopyTo: memcpy and memset work on whole 8-byte words here, with the last partial word of a memset done by bytes (Bytes.dfy); payload sizes are multiples of 16.
- Weak memory order, cache lines and the inside of std::mutex: a mutex is an owner field and steps are sequentially consistent.
- A turn of the refill loop, a pool expansion, a splice and a critical section of the general path are single steps of the thread model; see "Assumptions" for why that is enough.
- allocator_shutdown, which is only for use when all other threads are gone, and thread exit, which leaves a cache behind.
- The page size is 4096, and the arena size is an arbitrary parameter instead of a hook for tests.
- mmap, munmap and sysconf themselves, growth of std::vector and exceptions under noexcept, C++ object lifetime and aliasing.
- The asserts of a debug build: what they check is proved instead.
