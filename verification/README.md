# A verified model of dlmalloc and of six small concurrent and streaming programs

The main part is the allocator of `mspace/malloc.c`, as it stands in memory: chunk heads and feet that tile the
segments, circular small bins, tries of large chunks with a ring for each size, the two bitmaps, `dv`, `top` and
the segment list. The class `Mstate` updates them in place as the code does, with the code's unsigned arithmetic
and its fields in one store each (`hd`, `ft`, `fd`, `bk`, `child0`, ...), and its invariant `Valid()` says that all
of them agree. The word size is a constant that may be 4 or 8. The configuration is FOOTERS=0, INSECURE=0,
USE_LOCKS=0, abort on error.

Whether the system grants memory, and where, is left open: `Systems.Obtain`, `Break`, `ObtainMore`,
`ObtainNext`, `ObtainRegion`, `Unmap` and `Shrink` return any answer that MORECORE, MMAP and MUNMAP may give: fresh
memory that does not overlap what there is and leaves something of the address space. One answer is excluded, see
the findings. Every check on addresses and
links (`ok_address`, `ok_next`, `ok_inuse`, `ok_pinuse`, reciprocal links) is an assertion, or a condition that a
callee requires, and so no corruption action and no usage error is reached by a client that frees and resizes only
blocks that it owns.

| modules | what they hold |
|---|---|
| `Config`, `Prefixes`, `BinMaps`, `TreeIndex` | word size, bits, bitmaps, bin indices |
| `Rings`, `SmallBins` | circular lists |
| `Tries`, `TrieSearch`, `LargeQueues`, `LargeStates`, `LargeBins` | tries of large chunks as values, their search, and the pointer code |
| `Bins`, `Choices` | all bins as one table; which chunk malloc takes |
| `Tiling`, `Segments`, `Frames`, `Stores`, `Layouts`, `Regions`, `Dropping` | the heap as a value: eight steps, segments, what each step leaves alone |
| `Systems`, `Alignments` | requests to the system; alignment and overflow arithmetic |
| `Pointers`, `Mstate` | pointers in memory; the operations of the allocator |
| `Canonical`, `Runs`, `Checks`, `Holdings`, `Clients` | results about whole heaps and whole runs |
| `MinHeap`, `RingBuffer`, `FrameCounts`, `ThreadPool`, `Atomics`, `StoreBuffer`, `Md5Rounds`, `Md5`, `Md5Line` | the other programs |

Four words recur in the contracts. `Spared(s, z, act)` and `SpareLive(s, z, act)`: between two states of memory, the
chunks in use apart from `act` are the same, with the same sizes, and the allocator has written no word of their
payload. `Served` and `Allocated`: the chunk is new, is at least as large as asked for and less than
MIN_CHUNK_SIZE larger, and everything else is spared.

## Model

| member | source | states |
|---|---|---|
| `Clients.Run` | mspace/malloc.c:4576-5169 | for every sequence of malloc, calloc, memalign, realloc, independent_calloc, independent_comalloc, free, bulk_free, store and trim calls on a fresh allocator: the invariant holds after each call, and every byte of every block is what a plain memory of blocks would hold (realloc keeps the common prefix, calloc zeroes), whatever else is allocated, freed or trimmed in between |
| `Clients.BlocksApart` | mspace/malloc.c:3302-3313 | two blocks that the client owns are aligned and their payloads do not overlap |
| `Mstate.Mstate.constructor` | mspace/malloc.c:4205-4217 | the zero-initialized state satisfies the invariant and owns no block |
| `Mstate.Mstate.DlMalloc` | mspace/malloc.c:4576-4710 | the block is new, holds the padded request with less than MIN_CHUNK_SIZE to spare, and leaves all others alone; if any binned chunk, dv or top has room, the result is not null and is the exact fit, dv, the best binned fit or top, in the order that the size of the request calls for |
| `Mstate.Mstate.MallocExact` | mspace/malloc.c:4612-4625 | a small request takes a chunk of its bin, or of the next one if its own is empty, without remainder |
| `Mstate.Mstate.MallocNext` | mspace/malloc.c:4627-4652 | with neither of them, a dv that is too small and a marked smallbin behind, it takes a least binned chunk that has room |
| `Mstate.Mstate.LeastBin` | mspace/malloc.c:4632-4648 | the first marked smallbin holds the best fit, and with 4-byte words the remainder is never below MIN_CHUNK_SIZE |
| `Mstate.Mstate.TmallocSmall` | mspace/malloc.c:4537-4572 | a small request that no smallbin can serve gets a smallest of all chunks in the trees |
| `Mstate.Mstate.TmallocLarge` | mspace/malloc.c:4466-4534 | the result is null, with nothing changed, exactly if dv fits at least as well as every chunk in the trees; otherwise it is a smallest chunk that has room |
| `Mstate.Mstate.Unsigned` | mspace/malloc.c:4470-4512 | the unsigned comparison rsize < dvsize - nb, where dvsize - nb may wrap around, says exactly whether the best binned fit beats dv |
| `LargeBins.LargeBins.FindBest` | mspace/malloc.c:4470-4507 | the search of the tries finds the oldest chunk of the least size that has room over all treebins, or null with rsize == -nb if there is none |
| `LargeBins.LargeBins.FindSmallest` | mspace/malloc.c:4540-4556 | the search of tmalloc_small finds the oldest chunk of the least size |
| `TrieSearch.PathInvariant` | mspace/malloc.c:4478-4497 | one turn of the descent keeps the path of nb and the deepest right subtree that was left aside, all of whose sizes fit |
| `TrieSearch.PathEnd` | mspace/malloc.c:4498-4507 | after the descent, a fitting size of any bin is covered by the best one so far or by the subtree that is left |
| `TrieSearch.SideOrder` | mspace/malloc.c:4485-4491 | every size on the left of a cell is smaller than every size on its right |
| `LargeBins.LargeBins.InsertLarge` | mspace/malloc.c:3663-3712 | the chunk joins the end of the queue of its size, no other queue changes, the tries stay well-formed, and no word outside of binned chunks and x is written |
| `LargeBins.LargeBins.UnlinkLarge` | mspace/malloc.c:3731-3800 | the k-th chunk leaves the queue of its size, no other queue changes, whether a ring member, another of its size or a leaf from below takes its place; the tries stay well-formed |
| `Tries.AddLeafGood` | mspace/malloc.c:3680-3696 | a leaf in the empty slot that the search ends at keeps the trie: cells unique, parents and children consistent |
| `Tries.ReplaceGood` | mspace/malloc.c:3733-3792 | a node taken over by another chunk, of the same size or of a size from below, keeps the trie |
| `LargeQueues.DequeueOk` | mspace/malloc.c:3733-3741 | whichever chunk of a size leaves, the rest is one ring led by the oldest chunk, and only that one has a parent |
| `SmallBins.SmallBins.Insert` | mspace/malloc.c:3585-3600 | the chunk becomes the first of its bin; other bins and other memory stay |
| `SmallBins.SmallBins.Unlink` | mspace/malloc.c:3604-3627 | the chunk leaves its bin, the order of the others stays, and the bin is unmarked exactly if it is empty then |
| `SmallBins.SmallBins.UnlinkFirst` | mspace/malloc.c:3630-3644 | the chunk that was first leaves |
| `Rings.InsertRing` | mspace/malloc.c:3593-3600 | four stores put a node behind any node of a circular list |
| `Rings.RemoveRing` | mspace/malloc.c:3604-3627 | two stores take any node out of a circular list |
| `BinMaps.FirstMarked` | mspace/malloc.c:2930-2976 | least_bit and compute_bit2idx give the first marked bin |
| `BinMaps.PortableIsBit2Idx` | mspace/malloc.c:2967-2978 | the shift-and-mask variant of compute_bit2idx gives the position of every single bit |
| `BinMaps.AboveMarked` | mspace/malloc.c:2933 | left_bits(idx2bit(i)) keeps exactly the bins above i |
| `BinMaps.FirstBehind` | mspace/malloc.c:4632-4634 | leftbits, least_bit and compute_bit2idx give the first marked bin behind i |
| `BinMaps.MarkClear` | mspace/malloc.c:2921-2927 | marking and clearing change the map at the one bin |
| `TreeIndex.IndexInverse` | mspace/malloc.c:2910-2914 | minsize(I) <= S for a size of bin I, and S < minsize(I+1) below the last bin |
| `TreeIndex.IndexMono` | mspace/malloc.c:2838-2849 | larger sizes are never in an earlier bin |
| `TreeIndex.PortableIsIndex` | mspace/malloc.c:2880-2897 | the shift-and-mask computation gives the index by the leading bit, for every size |
| `TreeIndex.X86Exact` | mspace/malloc.c:2838-2849 | the variant whose X is a 32-bit unsigned int is right exactly if S >> 8 is below 2^32 or its low 32 bits are at least 0xC000 |
| `TreeIndex.SignBitOfSize` | mspace/malloc.c:2905-2907 | the sign bit of a size that is shifted left tells its bits one after the other |
| `Tiling.MergePrevTiled` | mspace/malloc.c:4746-4758 | the free chunk that the foot leads to ends at p, and absorbing p into it keeps the tiling |
| `Tiling.MergeNextTiled` | mspace/malloc.c:4785-4788 | absorbing the chunk behind p keeps the tiling |
| `Tiling.ReleaseTiled` | mspace/malloc.c:2285-2291 | freeing between used neighbours keeps the tiling, with foot and PINUSE_BIT set |
| `Tiling.SplitTiled` | mspace/malloc.c:4856-4858 | a used chunk can be cut in two |
| `Tiling.SplitTopTiled` | mspace/malloc.c:4690-4695 | the low part of top can be handed out |
| `Mstate.Mstate.Coalesce` | mspace/malloc.c:4737-4805 | consolidation with both neighbours, dv and top: the result is free, no free chunk is next to it, and it is not binned yet |
| `Mstate.Mstate.DlFree` | mspace/malloc.c:4714-4821 | the block is owned no more, all other blocks stay with their contents, and no check fails; free(NULL) changes nothing |
| `Mstate.Mstate.DisposeChunk` | mspace/malloc.c:4395-4461 | the chunk is given back, and all others in use are spared |
| `Mstate.Mstate.SysAlloc` | mspace/malloc.c:4052-4275 | the block is new and large enough; null is possible only if neither contiguous MORECORE nor MMAP has given the memory that was asked for |
| `Mstate.Mstate.UseRegion` | mspace/malloc.c:4204-4266 | memory as it was asked for with SYS_ALLOC_PADDING, or as a continuation of top, always serves the request; the footprint grows by its size |
| `Mstate.Mstate.Complete` | mspace/malloc.c:4144-4167 | after a MORECORE that does not continue top, what is used is large enough if and only if what came was not short |
| `Systems.ShortNeedsTop` | mspace/malloc.c:4134-4153 | short in that sense needs a top larger than HALF_MAX - GRANULARITY |
| `Systems.ShortExample` | mspace/malloc.c:4134-4153 | with such a top, the request may be short |
| `Mstate.Mstate.PrependAlloc` | mspace/malloc.c:3955-3994 | memory in front of a segment serves the request, and its rest is consolidated |
| `Mstate.Mstate.AddSegment` | mspace/malloc.c:3997-4047 | the old top is closed by a record and fenceposts, the rest of it is binned, and the new segment is the current one |
| `Mstate.Mstate.RecordPlace` | mspace/malloc.c:4001-4009 | the record and four words of fenceposts fit in the reserve of the old segment |
| `Mstate.Mstate.WriteFences` | mspace/malloc.c:4025-4035 | at least two fenceposts are written, and nothing else |
| `Systems.AskedEnough` | mspace/malloc.c:4068-4074 | the granular size that sys_alloc asks for leaves room for the padding, unless the sum wraps around |
| `Mstate.Mstate.ReleaseUnused` | mspace/malloc.c:4280-4325 | segments go only if they are not the current one, came from MMAP, and their first chunk is free up to the reserve; the others stay in their order, no head word changes, and the footprint falls by exactly what is returned |
| `Mstate.Mstate.SysTrim` | mspace/malloc.c:4327-4390 | the client's blocks stay, top keeps more than pad, and the result is true exactly if the footprint fell |
| `Systems.TrimExtraFits` | mspace/malloc.c:4334-4336 | extra is a multiple of the granularity that leaves at least one byte and at most one granule |
| `Mstate.Mstate.HasSegmentLink` | mspace/malloc.c:2710-2718 | whether a segment holds the record of another |
| `Mstate.Mstate.TryReallocChunk` | mspace/malloc.c:4843-4920 | the result is p exactly if the chunk with a free successor, or with top and a byte to spare, has room, and then its contents up to the smaller size stay; otherwise it is null and nothing at all has changed |
| `Mstate.Mstate.DlRealloc` | mspace/malloc.c:5217-5260 | the first min(old usable size, bytes) bytes are in the new block and no other byte changes; on failure the old block is live as it was |
| `Mstate.Mstate.DlCalloc` | mspace/malloc.c:4823-4836 | the block holds n * size bytes that are zero, and an overflow of the product is never served |
| `Alignments.CallocExact` | mspace/malloc.c:4826-4831 | the overflow test finds every overflow and nothing else |
| `Mstate.Mstate.Memalign` | mspace/malloc.c:4922-4994 | the memory starts at a multiple of the least power of two that is not below the alignment and MIN_CHUNK_SIZE; the chunk is large enough with at most MIN_CHUNK_SIZE to spare; everything else is spared |
| `Mstate.Mstate.SpotFits` | mspace/malloc.c:4953-4960 | the leader is never smaller than MIN_CHUNK_SIZE, and the space behind it is large enough, for every misalignment |
| `Alignments.RoundingEnds` | mspace/malloc.c:4926-4930 | the rounding loop ends if and only if the alignment is at most half of the address space |
| `Alignments.RoundingStuck` | mspace/malloc.c:4926-4930 | a larger alignment is no power of two, and so the loop is entered and never ends |
| `Mstate.Mstate.IndependentAlloc` | mspace/malloc.c:5003-5120 | n chunks one behind the other, each large enough for its element, and the array chunk behind them unless the array is given, fill the block exactly; none was there before, the given array or the array chunk holds the pointers to them, all are cleared for independent_calloc, and no other byte is written; without elements nothing changes, or malloc(0) stands for the empty array |
| `Mstate.Mstate.BulkFree` | mspace/malloc.c:5129-5169 | all blocks in the array are freed and nulled, all others stay, and no pointer is left unfreed |
| `Runs.BulkRefinesEach` | mspace/malloc.c:5136-5163 | from the same heap, the loop of internal_bulk_free and disposing of the blocks one by one end with the same chunks, the same heads, the same top and the same free spans |
| `Canonical.LayoutIsCanonical` | mspace/malloc.c:3438-3466 | two well-formed heaps over the same segments in which the client owns the same blocks have the same chunks, heads and free spans |
| `Checks.TraverseAndCheck` | mspace/malloc.c:3438-3466 | the walk of all segments visits exactly the chunks other than top, and its sum is at most the footprint, which is at most its maximum |
| `Checks.TraverseSegment` | mspace/malloc.c:3444-3461 | the walk of one segment visits exactly its chunks, up to top or the first fencepost |
| `Bins.Bins.BinFind` | mspace/malloc.c:3402-3435 | bin_find finds exactly the binned chunks |
| `MinHeap.MinHeap.Push` | math/min_heap.c:59-68 | the item joins a heap that stays ordered and indexed, or reserve fails and nothing changes; at most log2(n + 1) items move |
| `MinHeap.MinHeap.Pop` | math/min_heap.c:70-79 | a minimum leaves, with index -1; the others stay an ordered, indexed heap |
| `MinHeap.MinHeap.Erase` | math/min_heap.c:86-107 | any item leaves, the last one included, and sifting one way only restores the order; an item that is not in the heap is refused |
| `MinHeap.MinHeap.Adjust` | math/min_heap.c:109-124 | after any change of an item's key, sifting one way only restores the order; an item that is not in the heap is pushed |
| `MinHeap.OneWay` | math/min_heap.c:92-101 | an item that is below its parent need not sink, and one that is not need not rise |
| `MinHeap.Sink` | math/min_heap.c:180-190 | moving the smaller child into the hole leaves one place that may be out of order, further down |
| `MinHeap.Drain` | math/min_heap.c:218-228 | popping until the heap is empty yields all its items in sorted order |
| `RingBuffer.RunIsSafe` | test_ringbuffer.c:78-217 | for a frame_count that divides 2^32 or is at most BUF_FRAME_REQ, whatever the interleaving of the two threads' accesses and however often the counters wrap around: frames come out in the order in which they went in, at most frame_count are buffered, the bail-out is never taken, and the threads work on different slots inside of the buffer |
| `FrameCounts.ThreadsExact` | test_ringbuffer.c:105-217 | every run of the two threads is safe if and only if frame_count divides 2^32 or is at most BUF_FRAME_REQ; for every other frame_count, some run makes the producer find its counter below its base and bail out |
| `FrameCounts.CounterExact` | test_ringbuffer.c:57-76 | for step_user called with any steps up to the end of the window, from 0 on, the counter never falls below its base if and only if frame_count divides 2^32 |
| `FrameCounts.March` | test_ringbuffer.c:119-150 | if a place at which threads that take as much as they may would stop lies behind a wrap-around in its window, then the producer bails out there or before |
| `RingBuffer.Cblk.StepUser` | test_ringbuffer.c:57-76 | for any number of frames, the new counter and base; with a dividing frame_count, the base is that of the counter's window after every step that ends before the window after the next |
| `RingBuffer.Cblk.StepServer` | test_ringbuffer.c:78-103 | the same for the server |
| `RingBuffer.BaseFollows` | test_ringbuffer.c:64-72 | the arithmetic of both, through every wrap-around |
| `RingBuffer.BaseLost` | test_ringbuffer.c:64-72 | after a longer step, the base is that of another window |
| `RingBuffer.WindowWraps` | test_ringbuffer.c:45-47 | the 32-bit difference of a counter and its base is the slot of the frame |
| `ThreadPool.Pool.Add` | test_threads_pool.c:80-113 | the task goes to the end of the list, and the size counts it |
| `ThreadPool.Pool.Take` | test_threads_pool.c:182-189 | the first task is taken, and both assertions hold |
| `ThreadPool.RunIsSafe` | test_threads_pool.c:80-200 | for any number of workers and any interleaving, with spurious wakeups: the size is the length of the queue while the lock is free, both assertions hold, tasks are taken in the order in which they were added, each is in exactly one of queue, worker, done and discarded, and at most max_thread_num are taken after shutdown is set |
| `ThreadPool.SomeoneIsAwake` | test_threads_pool.c:164-170 | before shutdown, a queue that is not empty never meets workers that are all asleep |
| `ThreadPool.BroadcastMissed` | test_threads_pool.c:119-134 | at the broadcast of pool_destroy, in every reachable state: some run puts a worker to sleep for which there is no broadcast any more, if and only if some worker has read shutdown as 0 and has not called pthread_cond_wait yet |
| `ThreadPool.StaysStranded` | test_threads_pool.c:127-134 | such a worker sleeps, and pool_destroy waits, until the worker wakes up for no reason or an adder's signal goes to it |
| `ThreadPool.LockedShutdown` | test_threads_pool.c:122-127 | if shutdown is set and broadcast while no one holds the lock, no worker is ever left asleep |
| `ThreadPool.MissedBroadcast` | test_threads_pool.c:119-134 | a run after which the only worker is left asleep |
| `Atomics.RealTimeOrder` | atomic/atomic-arm.h:78-174 | for any number of threads, any interleaving and spurious failures of the conditional store: the word is explained by a sequential history in which every completed call occurs once, with its answer, in the order of its thread, and never before a call that had returned when it began |
| `Atomics.RunLinearizes` | atomic/atomic-mips.h:80-197 | the history stays legal and only grows; the loops are those of the ll/sc versions, with swap |
| `Atomics.EffectOrNot` | atomic/atomic-x86.h:80-151 | one instruction of a load and compare-and-exchange loop, or of an ll/sc loop, takes effect as its whole operation does, or not at all |
| `Atomics.ConcurrentAdds` | atomic/atomic-x86.h:109-117 | if all calls add, the word is the initial value plus the sum of the increments that have taken effect, modulo 2^32 |
| `StoreBuffer.FencedRoundsEndWell` | test_mem_bar.cpp:45-124 | in no round of any run on a machine with store buffers does end() find r1 == 0 and r2 == 0 |
| `StoreBuffer.UnfencedRoundsMayFail` | test_mem_bar.cpp:58-70 | without mfence there is a run that ends with both zero |
| `Md5.Context.Update` | md5sum/md5.c:74-116 | after any message and any further piece, the context is that of the joined message: whole blocks folded, tail buffered, 64-bit bit count with carry |
| `Md5.Context.Final` | md5sum/md5.c:122-161 | the digest is that of padding, appending the length and folding as in sections 3.1 to 3.5 of RFC 1321 |
| `Md5.DigestOf` | md5sum/md5sum.c:155-169 | however a file is cut into pieces, the digest is that of the whole |
| `Md5.CountBits` | md5sum/md5.c:80-83 | the two words with the carry count 8 bits per byte modulo 2^64 |
| `Md5Rounds.Transform` | md5sum/md5.c:182-263 | the 64 unrolled lines are the four rounds of section 3.4 of RFC 1321, with its word order, shifts and table |
| `Md5Rounds.F1IsF` | md5sum/md5.c:168 | the optimized F1 is F |
| `Md5Rounds.F2IsG` | md5sum/md5.c:169 | F2 is G |
| `Md5Line.GetMd5Line` | md5sum/md5sum.c:199-237 | the result is 0 exactly if the text is no line with 16 bytes in lower-case hexadecimal, a mark and a name of 1 to 254 characters; otherwise they are read |
| `Md5Line.RoundTrip` | md5sum/md5sum.c:103-104 | what is printed for a digest, a mode and a name without newlines is read back as all three |
| `Md5Line.LastLine` | md5sum/md5sum.c:205-236 | the last line of a file gives back its name if and only if the name has 1 to 254 characters and the line ends with a newline; without it, the last character of the name is lost |

## Findings

- `internal_memalign` rounds an alignment that is no power of two up by doubling. For an alignment above half of
  the address space, such as HALF + 1, the doubled value drops to zero and the loop never ends:
  `Alignments.RoundingEnds`, `RoundingStuck` and `RoundingExample`. The condition is alignment <= HALF, and
  `Memalign` requires it.
- `compute_tree_index` for gcc on x86 keeps `S >> 8` in an unsigned int. On a 64-bit machine a chunk of 2^40
  bytes goes into the first treebin: `TreeIndex.X86TooLarge`. `X86Exact` says for which sizes it is right. The
  rest of the model uses the index that the other variants compute.
- When MORECORE(ssize) gives memory that does not continue top, sys_alloc asks for the difference to what it needs, but
  not if that looks negative, and then goes on with too little. `Mstate.Complete` has the exact condition,
  `Systems.Short`, and `Systems.ShortExample` is an input: nb = topsize = HALF_MAX + 1 + 2 * GRANULARITY. It needs a
  top of about half of the address space (`ShortNeedsTop`). `Systems.ObtainNext` assumes that MORECORE does not
  answer so.
- As long as MORECORE is used contiguously, no segment comes from MMAP (`Mstate.Accounted`), which is why sys_trim
  does not meet the mixture.
- `pool_destroy` sets `shutdown` and broadcasts without the lock. A worker that has just read `shutdown` misses the
  broadcast, sleeps, and pool_destroy waits for it, until the worker wakes up for no reason or pool_add_worker
  signals to it. `ThreadPool.BroadcastMissed` says exactly when that can happen, `MissedBroadcast` is such a run, and
  `LockedShutdown` shows that it cannot happen if both are done while no worker holds the lock.
- `step_user` and `step_server` need a frame count that divides 2^32, as long as they are called with any steps:
  `FrameCounts.CounterExact`. The two threads of the program also work with every frame count up to BUF_FRAME_REQ,
  where they take whole windows, and with no other: `FrameCounts.ThreadsExact`. With 3000 frames, some run makes the
  producer bail out: `FrameCounts.ThreadsExample`.
- `get_md5_line` drops the last character of the line whatever it is. A last line without a newline loses the end of
  its file name: `Md5Line.LastLine`.

## Left out

- IndependentAlloc: the sum of the sizes must not overflow, as the code assumes. Pointers are stored with the low byte
  first.
- Memalign: an alignment above half of the address space is excluded; see the findings.
- BulkFree: pointers of another allocator are not modelled, and so none is left unfreed.
- UseRegion: memory from the last attempt of sys_alloc, MORECORE that is not contiguous, has no alignment slack and
  need not suffice; the contract says so by `Sufficient`.
- Push: more items than an int can index are excluded, because min_heap_idx is an int.
- ThreadPool.RunIsSafe: the size says nothing once pool_destroy has freed the pool.
- RoundTrip: the name has at least one character and at most 254, as the reader requires.
- Directly mapped chunks: mmap_alloc, mmap_resize, mremap, and the branch of sys_alloc at the mmap_threshold
  (mspace/malloc.c:4060-4066).
- FOOTERS, PROCEED_ON_ERROR, INSECURE, the locks, mallopt, malloc_stats, mallinfo, inspect_all, the Win32 code and
  the printf calls in sys_alloc.
- The mspace_* functions, which repeat the dl* ones.
- do_check_treebin and do_check_smallbin as loops: what they assert is the invariant of `LargeBins` and `SmallBins`.
- The bytes of blocks and the words of the allocator are separate stores; that they do not interfere is what
  `Spared`, `SpareLive` and `Untouched` say about the payload of every block.
- Node addresses of bins are negative numbers, which no chunk has, instead of addresses inside of malloc_state.
- Head words are records of a size and two bits; that the bits fit below an aligned size is not modelled. Blocks are
  named by their chunks, two words in front of the memory that the client gets.
- The thread pool's malloc failures, and adders that go on while pool_destroy frees the pool.
- The ring buffer's condition variable: a wait that ends for no reason only makes an empty step. Its frames are one
  number each, and memset stands for any use of them.
- Memory barriers around the atomic operations, plain atomic loads and stores, inc and dec.
- MD5's byte order on big-endian machines, and the wipe of the context.
- md5sum's options, messages and file access, and do_check.
- python, gtk-test, java, php, sqlite, drivers, sockets, and the small mathematical programs: easy members beside
  these, or input and output.
