# Cilk-L runtime: verified models

Cilk-L is a work-stealing runtime with futures, deques that can be suspended whole, and I/O
threads. This project models its hardest parts and proves what they promise: about every
interleaving of the concurrent protocols, every run of the allocators and schedulers, and every
input of the algebraic parts. `dafny verify dfyconfig.toml` checks all of it.

| file | what it models |
|---|---|
| `TheProtocol.dfy` | the THE protocol of one deque and its unsynchronised deque of future fibers, one step for each access that the other party can see or disturb |
| `TheDeque.dfy` | the routines that take those steps, on two arrays and their indices |
| `DequePool.dfy`, `DequeLifecycle.dfy` | pools of whole deques; the life of a deque from active to suspended, resumable, limbo and back |
| `FrameMalloc.dfy`, `FrameAllocator.dfy` | the frame allocator: specification with its invariants, and the code |
| `ReducerMap.dfy`, `ReducerMerge.dfy` | the reducer hash map, and the merge of two |
| `ReducerTree.dfy` | any tree of merges, against the serial program |
| `IoQueue.dfy`, `IoScheduler.dfy` | the single-producer, single-consumer ring with its eventfd; the retry scheduler of the I/O thread |
| `PedigreeHash.dfy`, `CilkFor.dfy` | pedigrees with an incremental hash; the division of parallel loops, and all that programs of spawns, syncs and nested loops read |
| `FiberPools.dfy` | the hierarchy of fiber pools |
| `Replay.dfy` | the pedigree text of the replay log: print, load, match |
| `Exceptions.dfy` | merging pending exceptions at joins |
| `Wrappers.dfy`, `Arithmetic.dfy` | an option type; powers of two and remainders |

How to read the models:

- A concurrent protocol is a state machine. `Enabled` is the control flow and the waiting loops,
  `Ready` the assertions in the code and what it takes for granted (kept apart, and proved to hold
  whenever a step is enabled; two assertions that a program can make fail are apart, in `Fits`),
  `Apply` the step. `Reachable` is any number of steps from the initial state. Steps are
  sequentially consistent; a lock is owned by one party at a time; a critical section on which
  nobody can intrude is one step.
- The routines that take the steps of the THE protocol and of the ring are classes. A ghost
  `trace` records the steps a method takes, and `Consistent` says that running the trace from the
  initial state gives the fields, so a theorem about reachable states is one about the class. A
  method by itself is a run with no step of the other party in between; the interleavings are in
  the state machine.
- Code that updates objects in place is a class (or an array) whose methods state the whole new
  state, mostly as a function of the old one; the invariants are proved of those functions.
- The kernel and the operating system's allocator give nondeterministic answers; reduce functions,
  the programs that read pedigrees, and the calls that workers make on shared pools are parameters.

Where the code and its own comments differ, the model follows the code:

- `cilk-l/runtime/cilk-abi-cilk-for.cpp:345-353` says that an iteration sees ranks 0, the loop
  counter and X, and that the loop adds 2 to the caller's rank. By the code an iteration sees 1,
  the counter plus 1 and X + 1, and the caller is at X + 2 before the implicit sync adds one more.
- `cilk_fiber::allocate` has a limit on the number of fibers in its parameters, but the test is
  commented out (`cilk-l/runtime/cilk_fiber.cpp:684-692`): it asks the heap whatever the count.
- The fiber deque has up to two fibers more than there are future parents in the frame deque, one
  for each party, not one: the owner's between enqueue and detach or between undo-detach and pop,
  and the thief's between taking the frame and taking its fiber. `ExpectedFibers` says which.
- The assertions that a frame and a fiber still fit their buffers (`cilk-l/runtime/cilk-abi.c:183`,
  `cilk-l/runtime/cilk_future_fiber_deque.cpp:20`) fail on any buffer for spawns that are nested deeply
  enough: the first exactly when as many frames are open as the buffer has slots, the second one future
  earlier.
- `cilk-l/runtime/io_scheduler.cpp:137-139` says that a descriptor that is tracked already is not
  inserted twice. It is not inserted at all then, in whichever direction it was to be watched, and
  lines 174-190 take it out of epoll for both directions. So an operation can wait for a report that
  never comes when a descriptor is both read and written; it cannot when each is used one way only.
- A grain size of 0 is possible: exactly when rounding the count up overflows its type.
- A pedigree hash is wrong exactly when adding the product of a rank to the hash of its parents wraps
  in 64 bits (`RankFits`). Ranks up to 2^32 never do that, so a loop of up to 2^32 iterations is safe;
  a loop of 64-bit count need not be.
- `cilk-l/runtime/except-gcc.cpp:356-371` speaks of an exception of a record that is active,
  unresolved or nil, and says that an unresolved one cannot be on the left. When one is, and a later
  strand has an active exception, the later one is raised. The serially first exception survives
  exactly when no unresolved one is overtaken in this way. The record that results may ask for a
  rethrow and have an active exception, on either side.
- A replay entry is compared with what `strtol` makes of the text, which is the largest `long` for
  larger numbers: an entry matches its own pedigree exactly when all ranks fit.

## Model

| member | source | states |
|---|---|---|
| TheProtocol.InvStep | cilk-l/runtime/deque.c:110-290 | every step of the owner or a thief, which is one access that the other party can see, from a state of the invariant, meets the code's assertions and leads to such a state |
| TheProtocol.RunKeepsInv | cilk-l/runtime/deque.c:110-290 | so does every interleaving of any length |
| TheProtocol.TakenExactlyOnce | cilk-l/runtime/deque.c:50-71 | in every reachable state each pushed frame is still in the deque or has been taken exactly once, by the owner or by one thief; when the deque is empty all have been; nothing else is ever taken |
| TheProtocol.ExcWithinOneOfHead | cilk-l/runtime/deque.c:110-198 | E is H or H + 1 always, and H whenever no thief has the lock; H never passes T by more than the owner's speculative decrement |
| TheProtocol.StolenOldestFirst | cilk-l/runtime/deque.c:200-290 | thieves take frames in the order they were pushed, each older than all that remain |
| TheProtocol.FibersAligned | cilk-l/runtime/cilk_future_fiber_deque.cpp:15-71 | the fiber deque lists, in order, the fibers of the future parents in the frame deque, plus those of a push, pop or steal in progress; nothing more between operations |
| TheProtocol.UnlockedPopsAreSafe | cilk-l/runtime/cilk_future_fiber_deque.cpp:37-69 | the two pops without synchronisation never underflow; the owner always gets back its own fiber and a thief the fiber of the very future it stole |
| TheProtocol.NeverStuck | cilk-l/runtime/deque.c:200-290 | in a reachable state every step whose turn it is finds what it reads: no fiber pop under- or overruns, no frame taken is missing; of the assertions of the two deques only the two on the size of the buffers can fail |
| TheProtocol.PushAssertionsExact | cilk-l/runtime/cilk-abi.c:183 | the assertion before a frame is pushed holds if and only if fewer frames are open than the buffer has slots; the one after a fiber is written if and only if the futures among them leave two slots; no other step has such an assertion |
| TheProtocol.TooDeep | cilk-l/runtime/cilk_future_fiber_deque.cpp:15-23 | for every size of the buffers, states that plain spawns and futures lead to where these two fail |
| TheProtocol.OwnerPopsItsOwnFrame | cilk-l/runtime/cilk-abi.c:207-227 | whenever undo-detach wins, on the fast or the slow path, the owner has a frame open and the slot at T holds the one it detached last |
| TheProtocol.SlowPathDecides | cilk-l/runtime/scheduler.c:2328-2417 | with E reset under the lock, `!(H < T + 1)` holds if and only if the owner's last frame has been stolen or it has none, and then the deque is empty |
| TheDeque.Deque.DequeInit | cilk-l/runtime/deque.c:343-373 | a new deque is the initial state of the protocol |
| TheDeque.Deque.EnqueueFutureFiber | cilk-l/runtime/cilk_future_fiber_deque.cpp:15-23 | writes the slot, then publishes it; touches nothing else |
| TheDeque.Deque.Detach | cilk-l/runtime/cilk-abi.c:164-190 | the parent frame is at the tail, on top of the owner's open frames; a future's only after its fiber |
| TheDeque.Deque.UndoDetach | cilk-l/runtime/cilk-abi.c:207-227 | fails exactly when the lowered T is below E; otherwise the frame popped is the last one detached |
| TheDeque.Deque.ExceptionCheck | cilk-l/runtime/scheduler.c:2328-2417 | answers "stolen" exactly when H had reached the raised T; then both deques are left empty, else the frame is the owner's again |
| TheDeque.Deque.UndoDecrement | cilk-l/runtime/scheduler.c:2360-2373 | T is raised again before the lock is dropped, which leaves the deque empty |
| TheDeque.Deque.ResetFutureFiberDeque | cilk-l/runtime/cilk_future_fiber_deque.cpp:8-13 | empties the fiber deque of an owner that has nothing to return to |
| TheDeque.Deque.PopTailFutureFiber | cilk-l/runtime/cilk_future_fiber_deque.cpp:28-56 | never underflows, and returns the fiber of the future whose frame was won back |
| TheDeque.Deque.PopHeadFutureFiber | cilk-l/runtime/cilk_future_fiber_deque.cpp:58-71 | never passes the tail, and returns the fiber of the frame that was stolen |
| TheDeque.Deque.PopTail | cilk-l/runtime/scheduler.c:2530-2544 | the pop of an exceptional return gets the owner's youngest frame, in the slot below T, exactly when H is below T, and nothing else changes when it is not |
| TheDeque.Deque.SpawnFuture | cilk-l/runtime/cilk-abi-future.cpp:28-66 | fiber first, frame second: both deques grow by one |
| TheDeque.Deque.LeaveFutureFrame | cilk-l/runtime/cilk-abi-future_utils.cpp:22-42 | leaving a future's frame either wins back the frame and its own fiber, or finds it stolen and empties both deques |
| TheDeque.Deque.IncrementE | cilk-l/runtime/deque.c:110-126 | E becomes H + 1 under the lock |
| TheDeque.Deque.DecrementE | cilk-l/runtime/deque.c:128-144 | E becomes H again |
| TheDeque.Deque.CanStealFrom | cilk-l/runtime/deque.c:169-172 | looks at T first and at the protected tail second, and says whether H is below both |
| TheDeque.Deque.DekkerProtocol | cilk-l/runtime/deque.c:175-196 | succeeds with E above H, or fails with E as it was |
| TheDeque.Deque.DetachForSteal | cilk-l/runtime/deque.c:200-290 | takes the frame at H and, for a future parent, exactly its fiber; records the theft |
| DequePool.SwapRemoveContents | cilk-l/runtime/deque_pool.c:297-305 | swap-with-last removal loses exactly the removed element and moves no other but the last |
| DequePool.Pool.constructor | cilk-l/runtime/deque_pool.c:31-36 | an empty pool |
| DequePool.Pool.Resize | cilk-l/runtime/deque_pool.c:14-29 | a larger array with the same elements |
| DequePool.Pool.Add | cilk-l/runtime/deque_pool.c:264-287 | appends, growing when full; the deque then knows its index and its owner, and every other deque is as before |
| DequePool.Pool.Remove | cilk-l/runtime/deque_pool.c:289-318 | the removed deque has no index and no worker; the one that took its slot knows its new index; no other changes |
| DequePool.Pool.Validate | cilk-l/runtime/deque_pool.c:320-331 | accepts exactly the pools without an empty slot below their size, hence every well-shaped one |
| DequePool.MakeResumable | cilk-l/runtime/deque_pool.c:87-149 | moves one deque from the suspended to the resumable pool with both pools' indices, owners and flags kept true |
| DequeLifecycle.AlwaysReady | cilk-l/runtime/deque.c:387-642 | the ownership assertions of switch, suspend, mug, make-resumable and resume hold whenever their step can happen |
| DequeLifecycle.EntryAssertions | cilk-l/runtime/deque_pool.c:87-171 | a deque that someone is to resume is not resumable at any moment from the decision to suspend it on; an active deque is resumable if and only if its worker has marked it and is about to switch, and then nobody is to resume it |
| DequeLifecycle.InvStep | cilk-l/runtime/deque.c:387-642 | every step of every worker keeps the invariant on all deques, pools and workers |
| DequeLifecycle.RunKeepsInv | cilk-l/runtime/deque_pool.c:51-263 | so does every interleaving |
| DequeLifecycle.AssertionsNeverFire | cilk-l/runtime/deque_pool.c:87-318 | no ownership assertion fires in any run |
| DequeLifecycle.OnePlace | cilk-l/runtime/deque.c:387-642 | a deque is never in two of: a worker's active deque, a slot of a pool, a worker's hands |
| DequeLifecycle.InLimboOrHeld | cilk-l/runtime/deque.c:435-623 | it is in none of them exactly when it has no index and no worker and its resumption is still owed, and then it has nothing to steal: no suspended deque is lost |
| DequeLifecycle.WorkIsVisible | cilk-l/runtime/deque.c:435-542 | a deque with something to steal that no worker has as its own or is moving is in a pool, of the kind its flag says, and a worker that looks there can steal from it or mug it at once |
| DequeLifecycle.BackPointersAgree | cilk-l/runtime/deque_pool.c:264-318 | `self` and `worker` are true of an active deque and of a pooled one, and the pool's kind agrees with `resumable` |
| DequeLifecycle.EverySuspensionIsAnswered | cilk-l/runtime/deque_pool.c:87-263 | a deque in a suspended pool is still to be resumed, by at most one resumer at a time; one in a resumable pool needs nobody |
| DequeLifecycle.NeverAllSpin | cilk-l/runtime/deque_pool.c:51-171 | in the four loops that wait for a fiber, those of the resuming routines among them, workers never wait for each other in a cycle: from any worker in the middle of something the chain of those it waits for ends, and its last worker can take a step |
| DequeLifecycle.SuspensionEnds | cilk-l/runtime/deque.c:435-623 | the part of such a chain that leaves fibers goes from each worker to one that chose earlier, and ends at one that can move |
| FrameMalloc.DoInv | cilk-l/runtime/frame_malloc.c:389-466 | every allocation, deallocation and worker cleanup keeps conservation, disjointness, placement and the cache bound |
| FrameMalloc.CacheBounded | cilk-l/runtime/frame_malloc.c:275-331 | after any sequence of operations a worker's list in a bucket holds at most the limit and one block, at most its potential and one block, and less than a batch when the potential is above the limit |
| FrameMalloc.FreeBound | cilk-l/runtime/frame_malloc.c:302-331 | trimming, although it keeps a block it does not count, restores the bound and brings the potential within the limit |
| FrameMalloc.FreeInv | cilk-l/runtime/frame_malloc.c:415-443 | after every free the potential is within the limit, and the invariant holds |
| FrameMalloc.FreeOutright | cilk-l/runtime/frame_malloc.c:302-443 | a free within the limit makes the block the head of the worker's list, in front of all it had cached, and does not touch the global pool; above the limit the first blocks of that list stay, as few as make up half the potential and one more, or all of them, and exactly the others go onto the global list, the first of them first |
| FrameMalloc.MallocOutright | cilk-l/runtime/frame_malloc.c:275-413 | an allocation takes the head of the worker's list and nothing else changes; from an empty list it fetches the fewest blocks that reach 8000 bytes, the pooled ones of the bucket in their order first, then addresses where no block has been |
| FrameMalloc.ReturnAfterGives | cilk-l/runtime/frame_malloc.c:319-330 | giving back a list from an index on leaves the blocks before it as they were and puts the others on the global list, last one on top |
| FrameMalloc.BytesConserved | cilk-l/runtime/frame_malloc.c:140-189 | bytes from the OS are wasted, in the pool, on global lists or with workers; what is with workers is cached or live; waste is under 2048 bytes a chunk |
| FrameMalloc.BlocksDisjoint | cilk-l/runtime/frame_malloc.c:155-178 | no two blocks overlap and each lies inside one chunk |
| FrameMalloc.BlocksPlaced | cilk-l/runtime/frame_malloc.c:275-358 | an address is on a worker's list, or on a global list, exactly when its block is recorded there, and at most once |
| FrameMalloc.LeakReportExact | cilk-l/runtime/frame_malloc.c:231-268 | after all workers have cleaned up the leak report fires if and only if some block is still live, and the corruption report never does |
| FrameAllocator.KeepCountMeets | cilk-l/runtime/frame_malloc.c:311-317 | the counting loop of the garbage collector stops at half the potential in whole blocks, or at the end of the list |
| FrameAllocator.BatchCountMeets | cilk-l/runtime/frame_malloc.c:275-300 | the batch loop stops at the first count that reaches the batch size |
| FrameAllocator.Allocator.GlobalInit | cilk-l/runtime/frame_malloc.c:191-208 | the empty allocator satisfies the invariant |
| FrameAllocator.Allocator.ExtendGlobalPool | cilk-l/runtime/frame_malloc.c:140-153 | a new chunk becomes the pool; the rest of the old one is wasted |
| FrameAllocator.Allocator.PoolAlloc | cilk-l/runtime/frame_malloc.c:155-178 | from the bucket's global list, and then the pool is untouched; else the next bytes of the pool, after extending it, and counting its rest as wasted, exactly when it is too small |
| FrameAllocator.Allocator.PoolFree | cilk-l/runtime/frame_malloc.c:180-189 | back on the bucket's global list and off the count |
| FrameAllocator.Allocator.AllocateBatch | cilk-l/runtime/frame_malloc.c:275-300 | the loop takes exactly the batch of blocks and raises the potential by their bytes |
| FrameAllocator.Allocator.GcBucket | cilk-l/runtime/frame_malloc.c:302-331 | the two loops keep the first blocks of the list, half the potential's worth and one more, set the potential to that half, and give exactly the others back |
| FrameAllocator.Allocator.BucketOfSize | cilk-l/runtime/frame_malloc.c:360-370 | the smallest bucket that fits |
| FrameAllocator.Allocator.FrameMalloc | cilk-l/runtime/frame_malloc.c:389-413 | large sizes and callers without a worker go to the system; otherwise the block returned is live now and was not before, from the head of the worker's list, or of a batch when that is empty |
| FrameAllocator.Allocator.FrameFree | cilk-l/runtime/frame_malloc.c:415-443 | the block goes to the freeing worker's list, whoever allocated it; below the limit nothing else happens, above it the list is trimmed to half the potential's worth and one more |
| FrameAllocator.Allocator.MoveBucketToGlobalFreeList | cilk-l/runtime/frame_malloc.c:335-358 | every block of the list goes back to the global pool, through a copy of the list head |
| FrameAllocator.Allocator.PerWorkerCleanup | cilk-l/runtime/frame_malloc.c:456-466 | all buckets are returned and the worker is retired; no live block and no other worker's cache changes |
| FrameAllocator.Allocator.CountMemoryInGlobalList | cilk-l/runtime/frame_malloc.c:210-229 | the bytes on the global lists |
| FrameAllocator.Allocator.GlobalCleanup | cilk-l/runtime/frame_malloc.c:231-268 | never reports corruption, reports a leak if and only if a block is live once all workers are retired, and frees every chunk once |
| ReducerMap.PowerOf2Exact | cilk-l/runtime/reducer_impl.cpp:278-281 | `n & (n - 1)` is zero exactly for powers of two |
| ReducerMap.HashInRange | cilk-l/runtime/reducer_impl.cpp:346-357 | the masked hash is a bucket of the table |
| ReducerMap.RoundupHasRoom | cilk-l/runtime/reducer_impl.cpp:241-276 | growing a bucket of any capacity makes room for one more, and the rounded bucket fits its block |
| ReducerMap.Grow | cilk-l/runtime/reducer_impl.cpp:393-430 | the same elements with room for another and for the sentinel |
| ReducerMap.ShiftLeft | cilk-l/runtime/reducer_impl.cpp:590-611 | removes one element, keeps the order of the others and the sentinel |
| ReducerMap.LookupFacts | cilk-l/runtime/reducer_impl.cpp:514-529 | a key is in the map exactly when its bucket has it, and the slot has what the map says |
| ReducerMap.RedMap.MakeReducerMap | cilk-l/runtime/reducer_impl.cpp:752-774 | a new map is empty, with one bucket |
| ReducerMap.RedMap.Lookup | cilk-l/runtime/reducer_impl.cpp:514-529 | finds the key if and only if the map has it |
| ReducerMap.RedMap.InsertNoRehash | cilk-l/runtime/reducer_impl.cpp:433-462 | adds one key, and keeps the table sound |
| ReducerMap.RedMap.Rehash | cilk-l/runtime/reducer_impl.cpp:464-493 | twice as many buckets, the same map |
| ReducerMap.RedMap.RehashAndInsert | cilk-l/runtime/reducer_impl.cpp:495-512 | adds one key whatever the load; the buckets are doubled exactly when the elements and an eighth of them leave none over, and there are never more elements than buckets |
| ReducerMap.RedMap.HyperDestroy | cilk-l/runtime/reducer_impl.cpp:559-617 | removes the reducer if and only if its leftmost view is the one in the map |
| ReducerMap.RedMap.HyperCreate | cilk-l/runtime/reducer_impl.cpp:619-671 | a new reducer is in the map with its leftmost view |
| ReducerMerge.MergeElement | cilk-l/runtime/reducer_impl.cpp:840-930 | one element: moved, reduced in place, or reduced and swapped, with a leftmost view created first where the leftmost map has none; it keeps the hyperobject base of the surviving map's element of that key, else the other's |
| ReducerMerge.MergedMeaning | cilk-l/runtime/reducer_impl.cpp:818-943 | after all elements each key has the left value reduced with the right one, in either direction of the merge |
| ReducerMerge.HeldOnce | cilk-l/runtime/reducer_impl.cpp:840-942 | a view of either map is in the surviving map or in the one to be destroyed, never both |
| ReducerMerge.MergedHeap | cilk-l/runtime/reducer_impl.cpp:776-808 | so destroying the other map destroys every view that does not survive, once, and no other |
| ReducerMerge.MergedOwns | cilk-l/runtime/reducer_impl.cpp:531-554 | every view belongs to its reducer, and a leftmost map keeps each view equal to its key |
| ReducerMerge.MergedObjects | cilk-l/runtime/reducer_impl.cpp:840-930 | the surviving view is always the left strand's own object, whichever map survives |
| ReducerMerge.MergedBases | cilk-l/runtime/reducer_impl.cpp:840-930 | every element of the surviving map, moved or created ones included, has the hyperobject base that one of the two maps had for its key, its own if it had one |
| ReducerMerge.Merge | cilk-l/runtime/reducer_impl.cpp:818-943 | the loops over buckets and elements establish all of the above and end with the other map destroyed |
| ReducerMerge.DestroyReducerMap | cilk-l/runtime/reducer_impl.cpp:776-808 | exactly the map's allocated views are destroyed, each once |
| ReducerMerge.MergeReducerMaps | cilk-l/runtime/reducer_impl.cpp:970-1000 | the result means left reduced with right whatever the sizes; a missing map changes nothing; the left map survives exactly when it is a leftmost one or has more elements; bases stay with their keys |
| ReducerMerge.RepeatedMergeReducerMaps | cilk-l/runtime/reducer_impl.cpp:1005-1021 | maps that reductions give rise to are folded on the right, in order; bases stay with their keys |
| ReducerMerge.BasesBelong | cilk-l/runtime/reducer_impl.cpp:840-930 | if every element of every strand has the base of its reducer, so has every element of a map whose bases are theirs |
| ReducerMerge.HyperLookup | cilk-l/runtime/reducer_impl.cpp:673-732 | the strand's view of a reducer, created from the identity on first use, or the leftmost view at the leftmost map, with the reducer's base; no other view changes |
| ReducerTree.MergeTwo | cilk-l/runtime/reducer_impl.cpp:970-1000 | one join with a missing map counted as an empty one: left reduced with right, in the left strand's objects, everything else untouched |
| ReducerTree.MergeTree | cilk-l/runtime/reducer_impl.cpp:818-1021 | for any tree of merges of the strands' maps, the first of which may be the leftmost one, and any associative reduction, every reducer ends with the value of the serial program from its leftmost view on; the views of the strands are in the map that is left or destroyed once, and all others are as they were; and if all strands' elements have the bases of their reducers, so have all elements of that map |
| ReducerTree.TwoRuns | cilk-l/runtime/reducer_impl.cpp:970-1021 | two runs of the same strands, with different joins, tables and addresses, end with the same value of every reducer |
| IoQueue.TestsExact | cilk-l/runtime/cilk-io-queue.c:30-62 | the index tests mean exactly: one slot is left, nothing is there |
| IoQueue.InvStep | cilk-l/runtime/cilk-io-queue.c:30-62 | every step of the producer or the consumer keeps the ring's invariant |
| IoQueue.RunKeepsInv | cilk-l/runtime/cilk-io-queue.c:30-62 | and so does every interleaving |
| IoQueue.PopsArePrefixOfPushes | cilk-l/runtime/cilk-io-queue.c:30-62 | in every run what has been popped is a prefix of what has been pushed |
| IoQueue.NoUnreadSlotOverwritten | cilk-l/runtime/cilk-io-queue.c:30-45 | a write never hits a slot that is still to be read |
| IoQueue.SemaphoreCounts | cilk-l/runtime/cilk-io-queue.c:30-62 | the eventfd's count and the producer's pending write equal the queue's length and the consumer's pending read |
| IoQueue.NeverBothStuck | cilk-l/runtime/cilk-io-queue.c:34-58 | the producer never spins on a full ring while the consumer is blocked on the eventfd; whichever waits, a step of the other that releases it can be taken |
| IoQueue.Queue.NewIoQueue | cilk-l/runtime/cilk-io-queue.c:13-23 | a new queue is the initial state |
| IoQueue.Queue.Push | cilk-l/runtime/cilk-io-queue.c:30-45 | appends one operation and signals it, in that order |
| IoQueue.Queue.Pop | cilk-l/runtime/cilk-io-queue.c:47-62 | the oldest operation not yet popped, or nothing exactly when there is none, at any point of the other side's push |
| IoScheduler.Scheduler.Attempt | cilk-l/runtime/io_scheduler.cpp:31-36 | one system call: the buffer, length and result move by the answer, and are off by one each after an error, in `size_t` arithmetic |
| IoScheduler.Scheduler.PerformIoUntilBlock | cilk-l/runtime/io_scheduler.cpp:28-58 | a read calls once, a write until all is sent or nothing more is taken; on "try again" the operation is exactly where it was; otherwise its future gets the total or -1, by the last answer |
| IoScheduler.Scheduler.HandleEvent | cilk-l/runtime/io_scheduler.cpp:60-73 | operations of a ready descriptor complete from the front, each having been tried, until none is left or the front one would block; if one waited, the front one was tried first; the descriptor leaves the blocked set and is to be taken out of epoll exactly when none is left; nothing of other descriptors or the other direction changes |
| IoScheduler.Scheduler.Dispatch | cilk-l/runtime/io_scheduler.cpp:127-170 | a new operation waits behind others of its descriptor without being tried; else it is tried at once and waits exactly when the kernel says to try again, and epoll watches the descriptor then unless it did already |
| IoScheduler.Scheduler.Turn | cilk-l/runtime/io_scheduler.cpp:104-193 | for every descriptor and direction, on any events and any queue: operations that waited are tried exactly when a report came for that direction, from the front until none is left or the front one would block, and the queue is as it was otherwise; new ones are tried, after all retries, exactly when none waits; a descriptor is freed in a direction exactly when it was reported and nothing waits; and if epoll watched what operations waited for, and reported only that, it does so after the turn if and only if no descriptor is used both ways (`OneWay`) |
| IoScheduler.CompletedInOrder | cilk-l/runtime/io_scheduler.cpp:104-190 | per descriptor and direction futures complete in the order of submission, and all have when nothing waits |
| IoScheduler.CompletedAtMostOnce | cilk-l/runtime/io_scheduler.cpp:54-55 | no future is completed twice |
| IoScheduler.SendsAPrefix | cilk-l/runtime/io_scheduler.cpp:31-48 | across any retries the transfers of an operation start at its buffer and follow each other without gap or overlap |
| IoScheduler.AnyTurns | cilk-l/runtime/io_scheduler.cpp:76-193 | after any number of turns of the loop on any events and requests: per descriptor and direction the futures completed and then those waiting are those submitted, in order; none is completed twice; each reports exactly the bytes transferred, at most what was asked for, or -1; transfers follow each other without gap; a descriptor is in a blocked set exactly when something waits for it; every turn was as `Turn` says; and where operations wait the kernel's last answer for that descriptor and direction was to try again, given to the front one |
| IoScheduler.OneWayIsWatched | cilk-l/runtime/io_scheduler.cpp:136-190 | in any run in which no descriptor is both read and written, epoll watches, after every turn, exactly the descriptors that operations wait for, in the right direction |
| IoScheduler.BothWays | cilk-l/runtime/io_scheduler.cpp:136-190 | a read and a write of one descriptor, in one turn from the start: when both have to wait, one of them waits for a report that epoll was not asked for |
| IoScheduler.TurnWatched | cilk-l/runtime/io_scheduler.cpp:136-190 | the exact condition for a turn: a registration is lost if and only if a descriptor that operations wait for in one direction has some waiting in the other after the turn, or had before it |
| PedigreeHash.HashIncrement | cilk-l/runtime/pedigrees.c:121-136 | adding one vector entry, with the conditional reduction in 64 bits, is the hash of the next rank |
| PedigreeHash.AddProductExact | cilk-l/runtime/cilk-abi-cilk-for.cpp:162-207 | with any 64-bit rank the reduced sum of a hash and a product is right if and only if it does not wrap |
| PedigreeHash.HashRank | cilk-l/runtime/cilk-abi-cilk-for.cpp:162-207 | so the hash that a loop computes for rank r below any pedigree is that of the longer pedigree if and only if `RankFits` |
| PedigreeHash.HashCanWrap | cilk-l/runtime/cilk-abi-cilk-for.cpp:162-207 | an iteration number of the first loop of a program, whose root is at ranks 2 and 1, for which it is wrong |
| PedigreeHash.Worker.constructor | cilk-l/runtime/pedigrees.c:158-169 | a root pedigree of rank 1 is valid |
| PedigreeHash.Worker.ValidatePedigree | cilk-l/runtime/pedigrees.c:139-156 | whatever the nodes record, the walk accepts a chain if and only if every node on it knows its depth and the stored hash is the dot product of that many ranks; every valid pedigree is accepted |
| PedigreeHash.Worker.UpdateAfterSync | cilk-l/runtime/pedigrees.c:122-136 | one rank later, hash included |
| PedigreeHash.Worker.Detach | cilk-l/runtime/cilk-abi.c:164-190 | the spawned strand is at rank 1 below the spawning one, whose pedigree is saved as it was |
| PedigreeHash.Worker.LeaveFrame | cilk-l/runtime/pedigrees.h:127-144 | the pedigree saved at the spawn, one rank later |
| PedigreeHash.Worker.BeginBody | cilk-l/runtime/cilk-abi-cilk-for.cpp:135-190 | a piece of a loop starts at rank 1 below its iteration number plus one below the loop's root, whatever recursion led to it |
| PedigreeHash.Worker.BumpLoopRank | cilk-l/runtime/cilk-abi.c:806-840 | the iteration number goes up by one and the strand starts again at 1 |
| PedigreeHash.Worker.EndBody | cilk-l/runtime/cilk-abi-cilk-for.cpp:190-208 | back on the caller's chain with its hash recomputed for the rank the worker has |
| PedigreeHash.Worker.EndLoop | cilk-l/runtime/cilk-abi-cilk-for.cpp:336-432 | the loop's root, one rank later |
| CilkFor.RunProg | cilk-l/runtime/pedigrees.c:121-136 | any program of syncs, spawns and cilk_for loops, nested in each other to any depth the vector allows: whatever it reads anywhere is the pedigree the language defines with the hash of that pedigree, and at the end so is the worker's |
| CilkFor.PedigreesDiffer | cilk-l/runtime/pedigrees.c:121-136 | of the pedigrees that a program reads no two are the same, and later ones, in the order of the serial program, are later from the root down, if and only if no loop in it is without iterations |
| CilkFor.GrainPositiveExact | cilk-l/runtime/cilk-abi-cilk-for.cpp:80-117 | the grain is what was asked for, or between 1 and 2048, or 0; it is at least 1 if and only if the rounded count fits its type |
| CilkFor.GrainDivides | cilk-l/runtime/cilk-abi-cilk-for.cpp:103-117 | an uncapped grain is the least whole number of iterations with which eight pieces a worker cover the loop |
| CilkFor.RangesTile | cilk-l/runtime/cilk-abi-cilk-for.cpp:273-321 | for every count and grain the pieces are consecutive and not empty from the first iteration to the last, none longer than the grain, and none shorter than half of it when there are several |
| CilkFor.TilesCover | cilk-l/runtime/cilk-abi-cilk-for.cpp:273-321 | every iteration is in a piece |
| CilkFor.TilesDisjoint | cilk-l/runtime/cilk-abi-cilk-for.cpp:273-321 | and in only one |
| CilkFor.CallCilkForLoopBody | cilk-l/runtime/cilk-abi-cilk-for.cpp:135-208 | iteration i starts at 1, i + 1 and the loop's root, and reads what its body reads from there, whatever the iterations before it did; the caller's chain is back afterwards |
| CilkFor.CilkForRecursive | cilk-l/runtime/cilk-abi-cilk-for.cpp:273-321 | the loop with spawned halves ends, runs exactly those pieces in serial order, and every iteration, with any program as its body, reads the same however the loop was divided |
| CilkFor.CilkForRoot | cilk-l/runtime/cilk-abi-cilk-for.cpp:336-432 | for a whole loop, and the caller is two ranks further before the implicit sync; with a grain asked for, no piece is longer, and with several pieces none shorter than half of it; under a tool every piece is one iteration; else the pieces are those of a grain from 1 to 2048, and of the least grain as above where that is below 2048 |
| CilkFor.LoopDepthBound | cilk-l/runtime/cilk-abi-cilk-for.cpp:273-321 | the spawns of a loop of up to 2^32 iterations nest at most 32 deep, whatever the grain |
| FiberPools.AnyRun | cilk-l/runtime/cilk_fiber_pool.cpp:27-204 | after any sequence of single lock acquisitions and questions to the heap, which allocation, deallocation, trimming and moving consist of, by any workers on a hierarchy of pools: no fiber was handed out while somebody had it; the counts of all pools and the preallocated fibers equal the fibers pooled, those in somebody's hand, and those counted that the heap has still to give; no pool is over its size, no count over its high-water mark; every fiber the heap ever gave is in hand, in exactly one slot of one pool, or freed, and in only one of these |
| FiberPools.OneSlot | cilk-l/runtime/cilk_fiber_pool.cpp:46-162 | a fiber is in one slot of one pool at most, and not in use while it is |
| FiberPools.RefusedOnlyWhenEmpty | cilk-l/runtime/cilk_fiber.cpp:633-729 | an allocation fails only when no pool from here to the root has a fiber |
| FiberPools.NearestStocked | cilk-l/runtime/cilk_fiber.cpp:491-536 | the pool that gives the fiber is the first on the way to the root that has one, and there is none exactly when all are empty |
| FiberPools.FiberSystem.PoolInit | cilk-l/runtime/cilk_fiber_pool.cpp:164-204 | a new pool is three quarters full of preallocated fibers that nobody has counted |
| FiberPools.FiberSystem.Look | cilk-l/runtime/cilk_fiber.cpp:652-690 | one lock acquisition of an allocation: the top fiber, or else a count for one to come from the heap, below the limit if there is one |
| FiberPools.FiberSystem.TryAllocateFromPoolRecursive | cilk-l/runtime/cilk_fiber.cpp:491-536 | the top fiber of the nearest pool that has one |
| FiberPools.FiberSystem.Allocate | cilk-l/runtime/cilk_fiber.cpp:633-729 | from the pool, else the heap, else the parent, with the count taken back where the heap refused |
| FiberPools.FiberSystem.AllocateWithTryAllocateFromPool | cilk-l/runtime/cilk_fiber.cpp:538-631 | all pools first, then the heap below the limit, then the parent's own attempt |
| FiberPools.FiberSystem.FreeFibersFromPool | cilk-l/runtime/cilk_fiber_pool.cpp:46-122 | batches of ten until the threshold is reached; exactly the fibers above it are freed and uncounted, and the returned one is in the pool |
| FiberPools.FiberSystem.DeallocateSelf | cilk-l/runtime/cilk_fiber.cpp:956-1010 | into the pool, in exchange for its top fiber when it is full |
| FiberPools.FiberSystem.MoveFibersToParentPool | cilk-l/runtime/cilk_fiber_pool.cpp:124-162 | afterwards the parent is full or the child has no more than it is to keep, the child never falls below that by the move nor the parent exceeds its maximum, no fiber is lost, and they go top first; a negative count goes along; nothing at all moves when the parent is full |
| Replay.DecimalRoundTrip | cilk-l/runtime/record-replay.cpp:259-281 | what is printed for a number reads back as that number |
| Replay.ReadBack | cilk-l/runtime/record-replay.cpp:122-168 | the parsed text of a pedigree, reversed, is its ranks from the leaf, each as `strtol` saturates it |
| Replay.Strtol | cilk-l/runtime/record-replay.cpp:150-157 | any text: white space and a sign are skipped, digits saturate at the ends of a long, the result is converted to 64 bits without sign, and with no digits nothing is read |
| Replay.SignedField | cilk-l/runtime/record-replay.cpp:150-157 | what a field with white space, a sign and digits reads as, and where it ends |
| Replay.EmptyField | cilk-l/runtime/record-replay.cpp:150-157 | a field without digits reads as nothing and ends where it began |
| Replay.TermsFit | cilk-l/runtime/record-replay.cpp:140-160 | a text that fits the buffer never has more terms than the array for them |
| Replay.WalkPedigreeNodes | cilk-l/runtime/record-replay.cpp:259-281 | writes exactly the text of the pedigree, root first, and its terminator; nothing before it changes |
| Replay.ReplayEntry.Load | cilk-l/runtime/record-replay.cpp:122-168 | through the array of half the buffer's length: the entry has the type of the name, the reversed terms, and for a steal its victim, as itself from -32768 to 32767 and as the one value of that range congruent to it modulo 65536 otherwise; an unknown name is refused |
| Replay.ReplayEntry.Match | cilk-l/runtime/record-replay.cpp:174-200 | accepts if and only if type, victim of a steal, and the whole chain of ranks agree |
| Replay.ReplayEntry.NextEntry | cilk-l/runtime/record-replay.cpp:207-231 | the next entry that is not an orphan without a steal; the last entry stays |
| Replay.ReplayRoundTrip | cilk-l/runtime/record-replay.cpp:122-200 | for a pedigree whose ranks fit, the recorded entry matches a pedigree if and only if it is the recorded one |
| Replay.ReplayExact | cilk-l/runtime/record-replay.cpp:122-200 | an entry matches its own pedigree if and only if every rank fits |
| Replay.RecordAndReplay | cilk-l/runtime/record-replay.cpp:122-281 | print, load and match on the arrays: a recorded pedigree is matched by itself and by no other |
| Replay.RecordAndReplaySteal | cilk-l/runtime/record-replay.cpp:122-281 | a recorded steal is matched by exactly the recorded pedigree with exactly the recorded victim |
| Exceptions.MergedOk | cilk-l/runtime/except-gcc.cpp:373-474 | merging keeps the record rules; an empty record comes out exactly when it was the only one; of two records nothing is left exactly when nothing is in them |
| Exceptions.OnlyRecordsMatter | cilk-l/runtime/except-gcc.cpp:373-400 | two trees of joins over the same records in the same order, with strands that have none put in anywhere, come to the same record |
| Exceptions.MergeAssociative | cilk-l/runtime/except-gcc.cpp:373-474 | under the scoping rule of its comment, grouping does not matter |
| Exceptions.MergeMeans | cilk-l/runtime/except-gcc.cpp:373-474 | the left active exception wins, a rethrow of either stays, caught ones are concatenated, and uncaught less active is additive |
| Exceptions.MergeExact | cilk-l/runtime/except-gcc.cpp:352-474 | the exception of a merge, in the comment's sense of active, unresolved or nil, is the left one, or the right one if there is none, if and only if no unresolved exception on the left meets an active one on the right; that an active exception goes without a rethrow is kept if and only if the two kinds do not meet on either side |
| Exceptions.LaterExceptionWins | cilk-l/runtime/except-gcc.cpp:352-474 | two records, allowed by all other rules, where the later exception is raised instead of the earlier |
| Exceptions.RethrowStaysSet | cilk-l/runtime/except-gcc.cpp:352-474 | two records where the first exception wins but the result still asks for a rethrow |
| Exceptions.SeriallyFirst | cilk-l/runtime/except-gcc.cpp:352-474 | for any tree of joins the exception that survives is the serially first one if and only if no unresolved exception is overtaken by a later active one; the record keeps its rule if and only if there are not both kinds |
| Exceptions.MergeObjects | cilk-l/runtime/except-gcc.cpp:373-474 | every exception object of the two records is in the result or is deleted, never both |
| Exceptions.PendingException.IsEmpty | cilk-l/runtime/except-gcc.cpp:101-108 | true exactly of a record with nothing in it |
| Exceptions.PendingException.Destruct | cilk-l/runtime/except-gcc.cpp:329-350 | deletes each object of the record once |
| Exceptions.MergePendingExceptions | cilk-l/runtime/except-gcc.cpp:373-474 | the in-place merge gives that record, deletes exactly the discarded objects, and frees the records that are no longer used |
| Exceptions.JoinAll | cilk-l/runtime/except-gcc.cpp:373-474 | a whole tree of merges in place: the outcome of the tree, and of the strands' exception objects exactly those that it does not hold are deleted, each once |

## Left out

- Weak memory: steps are sequentially consistent, as the fences in the code intend.
- EXC_INFINITY and abort: the signalling is disabled in the source (`cilk-l/runtime/deque.c:146-153`).
- Setjmp, longjmp, stack pointers, TLS, mmap, NUMA, Windows, Cilkscreen, TBB, statistics, benchmarks and scripts: no logic to verify. A fiber switch is one step.
- Scheduling policy: which victim is chosen, sleeping, and the rest of `cilk-l/runtime/scheduler.c`; a thief may try any victim at any time.
- Full frames and joins: what a stolen frame becomes in the frame tree is not modelled.
- The array of idle fibers that a worker keeps for futures (`cilk-l/runtime/cilk-abi-future_utils.cpp:25-28` and 48-53): a bounded stack beside the pools.
- TheDeque.Deque.SpawnFuture: a future's body runs between the two halves and is not part of the method; its effect on the deques is any run of the state machine.
- TheDeque.Deque.LeaveFutureFrame: the interleavings with thieves are in the state machine; as a method it needs the lock free where its slow path takes it.
- TheDeque.Deque.Detach: that the frame and the fiber fit their buffers are preconditions of the routines that push; `PushAssertionsExact` says when they hold.
- TheDeque.Deque.PopTail: as a method it needs the lock free. An exceptional return from a future's own frame is not modelled; the state machine lets the owner pop its fiber afterwards as on a normal return.
- DequeLifecycle.InvStep: the out-of-memory path that leaves a worker without a new deque, and the team checks, are left out; whether a deque is empty is nondeterministic; that each suspension is answered by exactly one resumption is what callers owe (the ticket).
- DequeLifecycle.NeverAllSpin: says that the step at the end of the chain is possible, not that a scheduler takes it.
- DequeLifecycle.Mugged: the field `call_stack->worker` is not modelled. A thief that mugs an empty deque writes it after it has cleared the deque's worker (`cilk-l/runtime/deque.c:624-642`), so a resumer that sees no worker can write it first and have its own value overwritten.
- DequePool.Pool.constructor: the array is allocated at its first size, where the source starts from NULL and resizes.
- FrameMalloc.LeakReportExact: a worker that has cleaned up is retired; the source leaves the old list heads in place, since it pops a copy, and relies on the worker never allocating again.
- FrameAllocator.Allocator.FreeRest: free lists are sequences, so the links inside free blocks are not modelled, nor is memory that a program writes after freeing it.
- FrameAllocator.Allocator.ExtendGlobalPool: the operating system is a function of the chunks it gave before, and gives chunks that do not overlap; running out of memory stops the source.
- ReducerMap.RedMap.HyperDestroy: the other ways it can fail (no worker, wrong frame) stop the program.
- ReducerMerge.MergeReducerMaps: a reduce function is a pure operation on two values. Nested parallelism in it, which can replace the worker, is not modelled.
- ReducerMerge.RepeatedMergeReducerMaps: the maps that the reductions would create are a parameter, with views of their own.
- ReducerTree.MergeTree: the strands' maps are there when the merges begin; that a strand's leftmost view is only with the first strand that uses the reducer is a precondition.
- IoQueue.Queue.Push: the loop that spins while the ring is full is the precondition; the waiting is in the state machine.
- IoQueue.Queue.Pop: likewise the read of the eventfd, which waits for the other side to finish signalling.
- IoScheduler.Scheduler.Turn: what epoll watches is modelled, when it reports is not, and so no wake-up is promised; descriptors that epoll refuses or forgets by itself, when they are closed, are left out; errno in the result is left out; the kernel transfers at most what it is asked for and at most 0x7ffff000 bytes at once.
- IoScheduler.Scheduler.Dispatch: an operation that is tried at once is modelled as the front of its empty queue, which is where it waits if it blocks.
- PedigreeHash.Worker.ValidatePedigree: the recorded length must index the vector, and ranks must be small enough that no product wraps.
- CilkFor.RunProg: starts from a valid pedigree. The root of a second user thread (`cilk-l/runtime/os-unix.c:237-244`) and the zeroed pedigree that `deque_switch` takes from a fresh deque are not valid and not covered. A spawned strand runs where it is spawned; what it reads does not depend on the worker.
- CilkFor.CilkForRoot: a loop directly at a root without parent is excluded, as the source follows the parent's pointer; so are a loop whose grain comes out as 0, on which the source does not end, nesting beyond the 256 entries of the vector, and an iteration number that does not satisfy `RankFits`.
- FiberPools.FiberSystem.PoolInit: preallocation finds memory; reference counts and pool destruction are left out, and a fiber is given back once.
- FiberPools.FiberSystem.FreeFibersFromPool: as one call, like the other whole routines, it runs with no other worker between two acquisitions of the lock; `AnyRun` has the acquisitions one by one among those of others. `MoveUp` holds the locks of both pools and is one.
- Replay.WalkPedigreeNodes: a text that overflows the buffer is excluded by the precondition; the source only asserts afterwards.
- Replay log files: reading and writing lines, and pairing orphans with steals.
- Exceptions.MergePendingExceptions: that two records that meet do not both have caught exceptions is asserted by the source and follows from how catch is scoped; it is a precondition here. Counts are below 2^32. Moving records to and from the C++ runtime's own state is left out.
