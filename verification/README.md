# Verified models of the JsOS kernel's data structures

JsOS is a unikernel for JavaScript. This project models, in Dafny, the parts of it that are hard to get
right, and proves what they are for:

- **The heap** (`src/kernel/dlmalloc.cc`, in the configuration the kernel compiles: one segment, 32-byte
  alignment, no mmap, morecore, locks or footers). `Heap.MSpace` is the malloc_state with its bins, its
  designated victim and top, and the chunk headers of the segment; its methods are mspace_malloc, free,
  realloc and memalign with everything below them. Its `Valid` is what the debug checkers of the source assert:
  of headers, dv and top (`HeapState.Valid`), and of the links and map words of the bins in memory
  (`LinkedBins.Represents`). It leaves out one comparison, that of the size of a top that ends at 1 modulo 4.
  Every method keeps it, so it holds after every run of them; from it follow disjoint blocks, a complete tiling
  and the assertions of the traversal of the bins. Tree bins are in `TreeBin` (tries), `HeapBins` (small bins and the two bin maps) and
  `HeapSearch`; `HeapSpace` has the headers alone, `HeapChoice` says which chunk serves a request. Below them,
  `LinkedBins` has the links of all bins in one memory, which make those tries and lists, as insert_chunk and
  unlink_chunk change them; `TreeLinks` and `SmallLinks` say what a change of links does to a trie or a list,
  `BinMaps` has the maps as words, and `HeadWords` the header words.
- **The lock-free queue** (`deps/concurrentqueue/concurrentqueue.h`), as transition systems with one atomic
  access per step, any number of threads and every interleaving: `FreeList` (reference-counted free list),
  `DequeueClaims` (the counters of dequeue and dequeue_bulk), `BlockIndex` and `BlockCells` (the block index
  of an implicit producer, and the elements it leads to), `QueueDelivery` (counters, index and elements
  together), `ProducerHash` (the hash of thread ids).
- **The inflater** (`deps/miniz/tinfl.c`): `CanonicalCode` (section 3.2.2 of RFC 1951), `HuffmanTable`,
  `BitReader`, `BlockHeader`, `CodeLengths`, `Tokens` (what a block means), `Inflater` (the resumable decoder of a
  block), `Deflate` (streams of stored, fixed and dynamic blocks), `MatchCopy` and `Adler32`; `DeflateTables`
  has the laws that its tables follow.
- **JSON** (`deps/json11/json11.cpp`): `Json` and `JsonParse` say what is printed and read, `JsonRoundTrip`
  proves the round trip, `JsonGrammar` that what is read is exactly a language with a grammar, `JsonReader`
  has the printer and the parser with its cursor, and `JsonLaws` says what its characters, its escapes, its UTF-8 and
  its maps are.
- **Smaller parts**: `Crc32` (`src/kernel/crc32.cc`), `PhysicalPages` (`src/kernel/mem-manager.h`),
  `ModulePaths` and `ModuleLoader` (`js/__loader.js`).

`dafny verify dfyconfig.toml` checks everything.

## Where the code does not do what one would expect

- The offset in the block index is computed with an unsigned division, although its comment wants the sign
  kept (`concurrentqueue.h:2731-2734`). The masked result is right all the same, and
  `BlockIndex.OffsetNeedsPower` shows that this is so exactly because the capacity divides 2^59.
- headIndex can pass tailIndex (`DequeueClaims.Unpaced`): a call of dequeue or dequeue_bulk whose ticket is beyond
  the tail is let through when it is so by more than 2^63, modulo 2^64. `DequeueClaims.PacedExact` shows that a
  call takes tickets that are not covered exactly then, whatever the first comparison said; as long as at most
  2^63 tickets have been drawn it cannot happen (`DequeueClaims.SafeForFewTickets`).
- create_mspace_with_base does not count the bytes that are skipped to align its base, so that it accepts
  capacities for which top would begin behind the end of the segment: `HeapSizes.TopInside` has the exact
  condition, `HeapSizes.TopOutside` such a capacity.
- The size of top shares a word with its flags, and nothing rounds it: a segment that ends at 2 or 3 modulo 4 has
  a top that reads as a chunk in use, so that a block freed in front of it is binned and never joins it, and one
  that ends at 1 fails the size comparison of the debug check. `HeadWords.TopReadsBack` has both conditions,
  `HeadWords.TopReadsInUse` a segment that is accepted and fails.
- internal_memalign does not return for an alignment above 2^63: `HeapSizes.NeverReaches`. At or below it,
  `HeapSizes.RoundAlignment` gives the next power of two.
- An integer of more than nine characters is printed as an integer but read back as a floating-point number
  (`JsonRoundTrip.LongIntegers`), and a value nested more than 200 deep is printed but cannot be read
  (`JsonRoundTrip.RoundTrip`). A block comment must not be the end of the text: `JsonGrammar.Accepts`
  has the exact condition, `JsonGrammar.BlockAtEnd` a text that is refused.
- normalizePath lets .. take away the empty component that makes a path absolute: /../x becomes the relative x
  (`ModulePaths.RootPopped`). `ModulePaths.WalkExact` says exactly when that happens, and when the result is null.
- The last chunk that leaves a small bin leaves its links in the bin; they are wrong until the next insertion
  (`LinkedBins.Links.UnlinkSmall`).

## Model

| member | source | states |
|---|---|---|
| `Heap.MSpace.Malloc` | src/kernel/dlmalloc.cc:5517-5629 | the heap invariant is kept; null exactly when no free chunk has the least multiple of 32 that is at least 32 and at least the request and 8 bytes, and top is not larger than that, and then nothing changes; otherwise exactly one block of that size is added, aligned to 32 bytes, all of whose bytes are the user's (in no head word, in no other chunk and not in top), and chosen as `HeapChoice.Choice` says: the least chunk that fits for a large request (dv wins ties), for a small one the exact bin, the next one, dv, the least binned chunk, and top last |
| `Heap.MSpace.Free` | src/kernel/dlmalloc.cc:5631-5730 | exactly that block is gone, and the invariant is kept: no two free chunks are neighbours, every free chunk is in its bin, is dv or joins top |
| `Heap.MSpace.Realloc` | src/kernel/dlmalloc.cc:5752-5795 | the block stays in place exactly when there is room behind it, otherwise a new block replaces it; failure changes nothing |
| `Heap.MSpace.TryRealloc` | src/kernel/dlmalloc.cc:4828-4906 | succeeds exactly when the chunk and the free room behind it (top, dv or a binned chunk) are enough; only this block's size changes |
| `Heap.MSpace.InternalMemalign` | src/kernel/dlmalloc.cc:4907-4979 | the block is a multiple of the alignment, which is rounded up to a power of two, and has just the needed size: what is in front of and behind it is free again; null exactly when the padded request cannot be served |
| `Heap.MSpace.Memalign` | src/kernel/dlmalloc.cc:5829-5838 | the same with the short cut for alignments of 32 or less |
| `Heap.MSpace.Align` | src/kernel/dlmalloc.cc:4925-4976 | of a chunk that is large enough, an aligned chunk of size nb remains live and the rest is given back |
| `Heap.MSpace.AlignedSpot` | src/kernel/dlmalloc.cc:4929-4945 | the first aligned place that leaves room for a chunk in front of it |
| `Heap.MSpace.Dispose` | src/kernel/dlmalloc.cc:4380-4446 | exactly that chunk is no longer live; it is merged with free neighbours in each of the four ways and the invariant holds again |
| `Heap.MSpace.MallocLarge` | src/kernel/dlmalloc.cc:4451-4519 | null only when dv fits better or nothing binned fits; otherwise the best fit among all tree chunks |
| `Heap.MSpace.MallocSmall` | src/kernel/dlmalloc.cc:5533-5577 | a small chunk of the right size, or the least chunk that fits when dv is too small |
| `Heap.MSpace.MallocRest` | src/kernel/dlmalloc.cc:5589-5621 | dv if it fits, else top if it is larger, else null and no change |
| `Heap.MSpace.TakeForDv` | src/kernel/dlmalloc.cc:4542-4551 | the front of a binned chunk becomes live, the remainder becomes dv and the old dv is binned; the invariant is kept |
| `Heap.MSpace.TakeForBin` | src/kernel/dlmalloc.cc:4504-4513 | the front of a binned chunk becomes live and the remainder is binned; the invariant is kept |
| `Heap.MSpace.JoinTop` | src/kernel/dlmalloc.cc:4411-4420 | a freed chunk that reaches top becomes part of it, and dv with it |
| `Heap.MSpace.JoinDv` | src/kernel/dlmalloc.cc:4421-4426 | a freed chunk in front of dv becomes the front of dv |
| `Heap.MSpace.JoinNext` | src/kernel/dlmalloc.cc:4427-4436 | a freed chunk in front of a binned one joins it, and the old one leaves its bin |
| `Heap.MSpace.JoinNone` | src/kernel/dlmalloc.cc:4438-4441 | a freed chunk in front of a live one is marked free for its neighbour and binned |
| `Heap.MSpace.ReplaceDv` | src/kernel/dlmalloc.cc:3651-3660 | the new dv takes over, and the bins hold every free chunk but it |
| `Heap.MSpace.InsertChunk` | src/kernel/dlmalloc.cc:3806-3808 | the bins and maps in place become those of `HeapBins.InsertChunk`, and so do those that the links and map words make |
| `Heap.MSpace.UnlinkChunk` | src/kernel/dlmalloc.cc:3810-3812 | the bins and maps in place become those of `HeapBins.UnlinkChunk`, and so do those that the links and map words make |
| `Heap.MSpace.constructor` | src/kernel/dlmalloc.cc:5416-5437 | a valid heap whose one live chunk is the malloc_state and whose top reaches the foot of the segment, for segments whose top reads as free |
| `HeapState.LiveDisjoint` | src/kernel/dlmalloc.cc:3440-3468 | in a valid heap two live blocks never overlap |
| `HeapState.Tiling` | src/kernel/dlmalloc.cc:3440-3468 | in a valid heap every byte below top belongs to exactly one chunk |
| `HeapState.JoinOk` | src/kernel/dlmalloc.cc:4380-4446 | merging a detached chunk with free space keeps every header, foot and pinuse bit consistent and leaves no two free neighbours |
| `HeapBins.InsertChunkOk` | src/kernel/dlmalloc.cc:3587-3603 | after an insertion the bins hold exactly one chunk more, in its own bin, with the map bit set exactly for the bins that are not empty |
| `HeapBins.UnlinkChunkOk` | src/kernel/dlmalloc.cc:3606-3629 | after an unlink the bins hold exactly one chunk less, with the map bits exact |
| `TreeBin.InsertOk` | src/kernel/dlmalloc.cc:3665-3714 | insert_large_chunk keeps the trie in order (each side has its half of the range, one node per size) and adds exactly that chunk |
| `TreeBin.UnlinkOk` | src/kernel/dlmalloc.cc:3733-3802 | unlink_large_chunk, by its ring or by replacing a node with the rightmost leaf below it, keeps the trie in order and removes exactly that chunk |
| `TreeBin.RightmostOk` | src/kernel/dlmalloc.cc:3748-3760 | the leaf that replaces a node is below it, and the rest of the subtree is in order without it |
| `TreeBin.SearchLeftmost` | src/kernel/dlmalloc.cc:4490-4497 | the path of leftmost children passes the least chunk of a trie |
| `TreeBin.SearchPath` | src/kernel/dlmalloc.cc:4457-4479 | after the walk along the bits of the request, every chunk that fits is the candidate, is larger, or is in the remembered subtree |
| `HeapSearch.FindLarge` | src/kernel/dlmalloc.cc:4451-4497 | the least chunk at or above nb over all tree bins, or none |
| `HeapSearch.FindAbove` | src/kernel/dlmalloc.cc:4480-4497 | when the bin of nb has nothing, the next bin that is not empty has the best fit |
| `HeapSearch.FindLeast` | src/kernel/dlmalloc.cc:4522-4537 | the least chunk over all tree bins |
| `HeapSizes.IndexInRange` | src/kernel/dlmalloc.cc:2855-2866 | for sizes below 2^40 the tree bin of a size covers it, and minsize_for_tree_index is its lower end |
| `HeapSizes.IndexOrders` | src/kernel/dlmalloc.cc:2855-2866 | sizes in a lower bin are smaller |
| `HeapSizes.BinShift` | src/kernel/dlmalloc.cc:2922-2924 | leftshift_for_tree_index puts the bit that halves the range of the bin at the top of the word |
| `HeapSizes.RequestToSize` | src/kernel/dlmalloc.cc:2248-2253 | request2size, in a word, is the needed size for every request of at most 2^64 - 64 |
| `HeapSizes.Need` | src/kernel/dlmalloc.cc:2221-2253 | the least multiple of 32 that is at least 32 and has room for the request and a head word |
| `HeapState.LiveOwns` | src/kernel/dlmalloc.cc:2175-2209 | in a valid heap the bytes of a live block, up to the head word of the next chunk, are in no head word, in no other chunk and not in top |
| `HeapSizes.RoundAlignment` | src/kernel/dlmalloc.cc:4909-4915 | the least power of two that is at least the alignment and 32 |
| `HeapSizes.NeverReaches` | src/kernel/dlmalloc.cc:4911-4915 | the doubling in a 64-bit word never passes 2^63 |
| `HeapSizes.TopInside` | src/kernel/dlmalloc.cc:5458-5471 | an accepted capacity gives a top inside the segment if and only if it covers the alignment skip too |
| `HeapSizes.TopOutside` | src/kernel/dlmalloc.cc:5458-5471 | 1080 bytes at 4096 are accepted, and top is not inside them |
| `HeadWords.TagReadsBack` | src/kernel/dlmalloc.cc:2266-2282 | chunksize and the flags can be read back from a header word if and only if the size is a multiple of 8, and the size that the check of top compares if and only if it is a multiple of 4 |
| `HeadWords.TopReadsBack` | src/kernel/dlmalloc.cc:3913-3924 | in a new mspace top reads as free if and only if the segment ends at 0 or 1 modulo 4, and has the size the debug check compares if and only if at 0 |
| `HeadWords.TopReadsInUse` | src/kernel/dlmalloc.cc:3913-3924 | an accepted segment whose top reads as in use |
| `HeadWords.HeadsReadBack` | src/kernel/dlmalloc.cc:3241-3253 | in a valid heap the flags in every header word, that of top too, are the ones meant |
| `LinkedBins.Links.InsertChunk` | src/kernel/dlmalloc.cc:3806-3808 | on all bins in one memory: afterwards the links and the map words make the bins with exactly that chunk inserted, and no chunk is on the links of two bins |
| `LinkedBins.Links.UnlinkChunk` | src/kernel/dlmalloc.cc:3810-3812 | on all bins in one memory: afterwards the links and the map words make the bins with exactly that chunk unlinked |
| `LinkedBins.Links.constructor` | src/kernel/dlmalloc.cc:3928-3935 | the links and map words of a new heap make empty bins |
| `LinkedBins.OneBin` | src/kernel/dlmalloc.cc:3806-3812 | if one bin has become another, of the same chunks and a new one at most, and the memory of the others has not changed, then all bins are as they should be |
| `LinkedBins.NowhereLinked` | src/kernel/dlmalloc.cc:2850-2851 | a chunk that is in no bin is on no link, and is not the address of a small bin |
| `LinkedBins.TreeBinPasses` | src/kernel/dlmalloc.cc:3317-3378 | the map bit is set exactly when the bin has a root, and each of its chunks passes what do_check_tree asserts of neighbours, parent, children, order and bin |
| `LinkedBins.SmallBinPasses` | src/kernel/dlmalloc.cc:3380-3402 | a small bin that links to itself is not marked, and in a marked one every chunk is between its neighbours |
| `LinkedBins.Links.InsertLarge` | src/kernel/dlmalloc.cc:3665-3714 | on the fd, bk, child and parent links: afterwards they make the trie with the chunk inserted, in a ring or as a leaf, the bit is set, and no word outside of the bin and the chunk has changed |
| `LinkedBins.Links.UnlinkLarge` | src/kernel/dlmalloc.cc:3733-3802 | on the same links: afterwards they make the trie with the chunk unlinked, whether it leaves a ring, hands its place to the next of its ring, or is replaced by the rightmost leaf below it; the bit is cleared with the last chunk, and no word outside of the bin has changed |
| `LinkedBins.Links.TakeLeaf` | src/kernel/dlmalloc.cc:3748-3762 | the loop finds the rightmost leaf and clears the one word that leads to it |
| `LinkedBins.Links.TakePlace` | src/kernel/dlmalloc.cc:3763-3801 | parent and children of a chunk are those of the one that takes its place |
| `TreeLinks.Substitute` | src/kernel/dlmalloc.cc:3763-3778 | if a subtree is replaced in memory and only the word that leads to it changes outside, the whole trie has the new subtree in its place |
| `TreeLinks.DropLeaf` | src/kernel/dlmalloc.cc:3748-3762 | clearing one child word takes exactly the rightmost leaf out |
| `TreeLinks.MoveOk` | src/kernel/dlmalloc.cc:3780-3800 | a chunk with nothing below it takes over what is below another |
| `LinkedBins.Links.InsertSmall` | src/kernel/dlmalloc.cc:3587-3603 | the ring of links has the chunk first, and the bit is set, whatever an empty bin was left linking to |
| `LinkedBins.Links.UnlinkSmall` | src/kernel/dlmalloc.cc:3606-3629 | the ring closes without exactly that chunk, and the bit is cleared with the last one |
| `LinkedBins.Links.UnlinkFirst` | src/kernel/dlmalloc.cc:3632-3647 | the same for the first chunk |
| `BinMaps.NextBin` | src/kernel/dlmalloc.cc:4481-4486 | left_bits, least_bit and compute_bit2idx find the least bin above an index that the map marks, if there is one |
| `BinMaps.FirstBin` | src/kernel/dlmalloc.cc:4526-4527 | least_bit and compute_bit2idx find the least bin that the map marks |
| `BinMaps.MarkAndClear` | src/kernel/dlmalloc.cc:2938-2944 | marking adds exactly one bin to the map, clearing takes exactly one away |
| `FreeList.Safety` | deps/concurrentqueue/concurrentqueue.h:1263-1342 | in every state of every run the list is acyclic, each node is in exactly one of: with a client, on the list, being added or taken; a node that was popped has no SHOULD_BE_ON_FREELIST bit |
| `FreeList.HandsOutOnce` | deps/concurrentqueue/concurrentqueue.h:1277-1314 | a node that try_get hands out had no holder and gets one |
| `FreeList.EmptyHanded` | deps/concurrentqueue/concurrentqueue.h:1282-1314 | in every run a try_get that returns no node has itself read a null freeListHead, in its load or in its CAS |
| `FreeList.AloneGets` | deps/concurrentqueue/concurrentqueue.h:1277-1314 | whatever calls are in flight: if nobody else acts, a try_get on a list that is not empty goes on for six accesses, and then it has the first node |
| `FreeList.AloneGetsNone` | deps/concurrentqueue/concurrentqueue.h:1282-1314 | on an empty list it returns at once, and nothing changes |
| `FreeList.AloneAdds` | deps/concurrentqueue/concurrentqueue.h:1263-1275 | with no other call in flight, add puts its node in front of the list |
| `FreeList.Quiescent` | deps/concurrentqueue/concurrentqueue.h:1263-1342 | with no call in flight every node is held or on the list, and its reference word is 0 or 1 |
| `FreeList.KeepsInv` | deps/concurrentqueue/concurrentqueue.h:1263-1342 | every atomic access of every thread keeps the invariant, so no ABA swap goes through |
| `FreeList.PutCasIsGood` | deps/concurrentqueue/concurrentqueue.h:1331-1341 | the publishing CAS of add_knowing_refcount_is_zero links the node that nobody else can touch |
| `FreeList.GetCasIsGood` | deps/concurrentqueue/concurrentqueue.h:1293-1302 | the popping CAS of try_get succeeds only with the next pointer the node still has |
| `FreeList.GoesOn` | deps/concurrentqueue/concurrentqueue.h:1263-1342 | every enabled access can extend every run: the model never gets stuck |
| `DequeueClaims.Safety` | deps/concurrentqueue/concurrentqueue.h:2034-2067 | in every interleaving in which no call is let through more than 2^63 tickets beyond the tail (modulo 2^64), headIndex is at most tailIndex, and the claims are consecutive ranges from 0 to headIndex |
| `DequeueClaims.ClaimedOnce` | deps/concurrentqueue/concurrentqueue.h:1756-1803 | in the same runs every index below headIndex is in exactly one claim |
| `DequeueClaims.Quiescent` | deps/concurrentqueue/concurrentqueue.h:2034-2125 | in the same runs, with no dequeue in flight, the optimistic count minus the overcommit is headIndex |
| `DequeueClaims.SafeForFewTickets` | deps/concurrentqueue/concurrentqueue.h:2034-2067 | in every run at all that has drawn at most 2^63 tickets: headIndex is at most tailIndex, each index below it is in exactly one claim, and with no call in flight the counts agree |
| `DequeueClaims.PacedExact` | deps/concurrentqueue/concurrentqueue.h:2046-2056 | a call takes only tickets that the tail and the overcommit it saw cover if and only if it is not beyond them by more than 2^63, modulo 2^64 |
| `DequeueClaims.AvailableExact` | deps/concurrentqueue/concurrentqueue.h:2047-2048 | the comparison and the subtraction are right together if and only if the count is at least -2^63 (for counts above -2^64) |
| `DequeueClaims.SpentBelowTail` | deps/concurrentqueue/concurrentqueue.h:1756-1803 | of all tickets drawn, those that may still succeed or did are covered by published elements |
| `DequeueClaims.SingleIsBulk` | deps/concurrentqueue/concurrentqueue.h:1756-1765 | the test of dequeue is the test of dequeue_bulk |
| `DequeueClaims.CircularIsLess` | deps/concurrentqueue/concurrentqueue.h:324-335 | circular_less_than is less-than on numbers less than 2^63 apart, however often the words have wrapped |
| `DequeueClaims.CircularExact` | deps/concurrentqueue/concurrentqueue.h:324-335 | for numbers less than 2^64 apart it is right if and only if they are within half of that |
| `DequeueClaims.Unpaced` | deps/concurrentqueue/concurrentqueue.h:2034-2067 | a run in which a call 3 * 2^62 tickets beyond the tail is let through and headIndex passes tailIndex |
| `DequeueClaims.TakesNothing` | deps/concurrentqueue/concurrentqueue.h:2036-2064 | in every run a call that takes nothing has loaded a tail, an overcommit and an optimistic count by which nothing was left (or 2^63 or more, modulo 2^64), for its first test or its second |
| `DequeueClaims.TakesAll` | deps/concurrentqueue/concurrentqueue.h:2036-2056 | a call that takes something takes what it asked for, or what was left by what it loaded for the first or the second test, whichever is least |
| `DequeueClaims.AloneTakes` | deps/concurrentqueue/concurrentqueue.h:2034-2067 | with no other call in flight a call takes all elements there are, or as many as it asked for |
| `DequeueClaims.AloneTakesNone` | deps/concurrentqueue/concurrentqueue.h:2034-2067 | and nothing when there are none, or 2^63 or more, modulo 2^64 |
| `DequeueClaims.OvercommitBelow` | deps/concurrentqueue/concurrentqueue.h:2044-2044 | the assertion on the overcommit and the count drawn holds |
| `BlockCells.Safety` | deps/concurrentqueue/concurrentqueue.h:2338-2407 | in every interleaving, across ring wrap, doubling, reuse, rewind and a full queue: the assertions on the key of the tail, on the emptiness counter and on headIndex in enqueue hold, a dequeuer finds in the block it was led to the very element it claimed, the enqueuer builds only in empty cells, and a block is returned only after all 32 cells were consumed, by one thread |
| `BlockCells.NewSlotIsInvalid` | deps/concurrentqueue/concurrentqueue.h:2699-2702 | the slot used right after new_block_index has no key, as is asserted there |
| `BlockCells.BoundedKept` | deps/concurrentqueue/concurrentqueue.h:2276-2284 | the test at the begin of a block keeps the queue below 2^63 elements |
| `BlockCells.Quiescent` | deps/concurrentqueue/concurrentqueue.h:2338-2407 | with no call in flight no block that is consumed is kept: none is leaked |
| `BlockCells.GoesOn` | deps/concurrentqueue/concurrentqueue.h:2274-2407 | every enabled access can extend every run |
| `BlockCells.EnqueueEnds` | deps/concurrentqueue/concurrentqueue.h:2274-2335 | in every run an enqueue publishes its element after at most eight of its steps, or gives up, exactly when it begins a block and the queue would come to hold 2^63 elements, when a larger index or a block cannot be had; it asks for a larger index exactly when the next slot is taken |
| `BlockCells.NeverTakenBack` | deps/concurrentqueue/concurrentqueue.h:2292-2300 | when no allocation fails the tail of the index is never taken back |
| `BlockCells.CellFilled` | deps/concurrentqueue/concurrentqueue.h:2330-2335 | publishing an element puts it into a cell that held none, and the cells hold exactly the elements published and not consumed |
| `BlockCells.CellEmptied` | deps/concurrentqueue/concurrentqueue.h:2354-2396 | consuming an element empties exactly its cell |
| `BlockCells.LedgerKept` | deps/concurrentqueue/concurrentqueue.h:2384-2396 | every block that is consumed has a thread that returns it, and every block that is out has an owner |
| `BlockIndex.KeepsInv` | deps/concurrentqueue/concurrentqueue.h:2274-2407 | every access keeps the invariant of the index |
| `BlockIndex.Resolves` | deps/concurrentqueue/concurrentqueue.h:2721-2737 | whatever has happened since a dequeuer loaded the index, its tail and its key, the slot it computes has the key and the block of its index |
| `BlockIndex.OffsetLeads` | deps/concurrentqueue/concurrentqueue.h:2731-2734 | the unsigned quotient, masked, is the place that the true numbers give, however often the words have wrapped |
| `BlockIndex.OffsetNeedsPower` | deps/concurrentqueue/concurrentqueue.h:2731-2734 | for a block before the tail that is so if and only if the capacity divides 2^59 |
| `BlockIndex.NewIndexStep` | deps/concurrentqueue/concurrentqueue.h:2739-2781 | doubling keeps every entry that a dequeuer may still need, under the old index and the new |
| `BlockIndex.CheckStep` | deps/concurrentqueue/concurrentqueue.h:2682-2693 | a slot that is invalid or empty belongs to no block that is still there |
| `BlockIndex.RewindStep` | deps/concurrentqueue/concurrentqueue.h:2708-2712 | taking back the tail after a failed allocation leaves every dequeuer's facts intact |
| `BlockIndex.ConsumeStep` | deps/concurrentqueue/concurrentqueue.h:1401-1415 | counting an element keeps the counter equal to the consumed elements of the block, and exactly one thread sees it reach 32 |
| `BlockIndex.ClearStep` | deps/concurrentqueue/concurrentqueue.h:2387-2396 | clearing the entry of a consumed block leaves all other entries as they were |
| `QueueDelivery.DeliveredOnce` | deps/concurrentqueue/concurrentqueue.h:2338-2407 | in every interleaving of an enqueuer and dequeuers, as long as no call is let through by the wrap: no element is delivered twice, and each is delivered to the call that claimed its index |
| `QueueDelivery.NothingLost` | deps/concurrentqueue/concurrentqueue.h:2338-2407 | in the same runs a published element has been delivered, is with the call that claimed it, or waits; with no call in flight exactly the elements below headIndex have been delivered |
| `QueueDelivery.FewTickets` | deps/concurrentqueue/concurrentqueue.h:2341-2349 | every run that has drawn at most 2^63 tickets is one of those |
| `QueueDelivery.KeepsInv` | deps/concurrentqueue/concurrentqueue.h:2274-2407 | every access keeps the joint invariant of counters, index, cells and deliveries |
| `QueueDelivery.GoesOn` | deps/concurrentqueue/concurrentqueue.h:2350-2353 | a call that may take an index by the counters can take it in the whole system: there is an element for it |
| `QueueDelivery.DequeueFails` | deps/concurrentqueue/concurrentqueue.h:2338-2407 | in every run a dequeue that takes no index has loaded counts by which nothing was left, for its first test or its second |
| `QueueDelivery.ReadGoesOn` | deps/concurrentqueue/concurrentqueue.h:2350-2366 | a call that has taken an index gets its element with its fifth access, whatever the others do |
| `QueueDelivery.QuietDequeue` | deps/concurrentqueue/concurrentqueue.h:2338-2407 | with no other call in flight, a dequeue from a queue that is not empty delivers the element at headIndex |
| `ProducerHash.Safety` | deps/concurrentqueue/concurrentqueue.h:3157-3300 | with concurrent inserts, migration, resizes and failing allocations no table is three quarters full, no probe passes as many slots, and a thread gets one producer for life |
| `ProducerHash.PathBound` | deps/concurrentqueue/concurrentqueue.h:3176-3217 | a probe passes fewer slots than three quarters of the table |
| `ProducerHash.KeepsInv` | deps/concurrentqueue/concurrentqueue.h:3157-3300 | every access keeps the invariant: a key is on its probe path, once per table |
| `ProducerHash.PutStep` | deps/concurrentqueue/concurrentqueue.h:3274-3291 | an insertion keeps every other thread's path and adds one entry |
| `ProducerHash.GoesOn` | deps/concurrentqueue/concurrentqueue.h:3157-3300 | every enabled access can extend every run |
| `ProducerHash.NotShared` | deps/concurrentqueue/concurrentqueue.h:3157-3300 | no two threads are ever given the same producer |
| `ProducerHash.NullOnlyIfRefused` | deps/concurrentqueue/concurrentqueue.h:3224-3266 | a call that returns null has had an allocation fail, of a table or of a producer; every other call returns a producer |
| `ProducerHash.NeverAgainNull` | deps/concurrentqueue/concurrentqueue.h:3176-3214 | a thread that has been given a producer is never refused |
| `ProducerHash.SizesLaw` | deps/concurrentqueue/concurrentqueue.h:3228-3259 | a thread joins its table as long as that is less than three quarters full, and the next table is the first, by doubling, that it does not fill to the half |
| `CanonicalCode.PrefixFree` | deps/miniz/tinfl.c:309-324 | in a complete code no code is a prefix of another |
| `CanonicalCode.EveryStreamBegins` | deps/miniz/tinfl.c:316-320 | every stream of 15 bits begins with a code |
| `CanonicalCode.BeginsOnce` | deps/miniz/tinfl.c:309-324 | and with one only |
| `HuffmanTable.CountLengths` | deps/miniz/tinfl.c:313-320 | the first code of each length, and acceptance exactly for complete codes and codes of at most one symbol |
| `HuffmanTable.BuildTable` | deps/miniz/tinfl.c:321-333 | for every complete code the two tables hold exactly its symbols and the nodes above them |
| `HuffmanTable.AddSymbol` | deps/miniz/tinfl.c:321-333 | one more symbol, short or long, keeps the tables those of the symbols so far |
| `HuffmanTable.AddLong` | deps/miniz/tinfl.c:326-332 | the same for a code of 11 to 15 bits and its path in the overflow tree |
| `HuffmanTable.ReverseCode` | deps/miniz/tinfl.c:324-324 | the bits of a code in the order of the stream |
| `HuffmanTable.FillLookUp` | deps/miniz/tinfl.c:325-325 | exactly the entries that end in a short code change |
| `HuffmanTable.NodeBound` | deps/miniz/tinfl.c:106-106 | a complete code on at most 288 symbols needs at most 576 slots of m_tree |
| `HuffmanTable.Decode` | deps/miniz/tinfl.c:223-227 | look-up gives exactly the symbol, and the code length, that the bits begin with |
| `HuffmanTable.HasCode` | deps/miniz/tinfl.c:195-208 | the end-of-input test finds a code exactly when the bits in the buffer hold one |
| `BitReader.Reader.HuffDecode` | deps/miniz/tinfl.c:214-227 | the next symbol of the stream however the input is cut; a wait only when it holds no whole code |
| `BitReader.Reader.Fill` | deps/miniz/tinfl.c:195-208 | stops when the buffer holds a whole code, and has put in no byte without which it held one; waits only when there is no whole code |
| `BitReader.Reader.GetBits` | deps/miniz/tinfl.c:171-189 | the next n bits, or a wait that loses nothing |
| `CodeLengths.Fits` | deps/miniz/tinfl.c:336-345 | every expansion stays within the 457 entries of m_len_codes and consists of code lengths |
| `CodeLengths.RoomIsNeeded` | deps/miniz/tinfl.c:127-127 | an expansion that needs all 457 |
| `BlockHeader.Header.Run` | deps/miniz/tinfl.c:305-306 | the three sizes and the lengths of the code for code lengths are those the input begins with, however it was cut; it waits only when the bits of the next field are not there |
| `BlockHeader.LengthsAre` | deps/miniz/tinfl.c:235-235 | each symbol has the length that came at its place in the order, or none |
| `BlockHeader.SizeRange` | deps/miniz/tinfl.c:305-305 | at most 288 literal and length symbols, 32 distances and 19 code lengths |
| `DeflateTables.OneMeaning` | deps/miniz/tinfl.c:231-234 | every length from 3 to 258 and every distance from 1 to 32768 is what exactly one regular symbol with exactly one string of extra bits stands for |
| `DeflateTables.TableLaw` | deps/miniz/tinfl.c:231-234 | the numbers of extra bits follow their law, and the values of a symbol begin where those of the symbol before it end |
| `DeflateTables.LowerIsLess` | deps/miniz/tinfl.c:231-234 | a lower symbol stands for lower values |
| `DeflateTables.InRange` | deps/miniz/tinfl.c:231-234 | a regular symbol stands for nothing else |
| `DeflateTables.LastLength` | deps/miniz/tinfl.c:231-232 | symbol 256 ends a block, and 285 stands for 258 without extra bits |
| `DeflateTables.LengthOfSymbol` | deps/miniz/tinfl.c:235-235 | the lengths of the code for code lengths come for 16, 17, 18 and 0 first and then from 8 outwards |
| `DeflateTables.SizesAre` | deps/miniz/tinfl.c:305-305 | HLIT, HDIST and HCLEN of section 3.2.7 of RFC 1951 |
| `DeflateTables.RunLaw` | deps/miniz/tinfl.c:343-343 | symbol 16 repeats a length 3 to 6 times, 17 a zero 3 to 10 times and 18 a zero 11 to 138 times |
| `CodeLengths.Expander.Run` | deps/miniz/tinfl.c:336-349 | the lengths are the expansion of exactly the items the stream begins with; it fails only on a copy of nothing or an overrun, and waits only when the next item is not there |
| `CodeLengths.Expander.Split` | deps/miniz/tinfl.c:350-350 | the two codes of the block are the two parts of the expansion |
| `CodeLengths.SplitsDoNotMatter` | deps/miniz/tinfl.c:336-350 | the lengths do not depend on how the input was cut |
| `CodeLengths.OneReading` | deps/miniz/tinfl.c:338-345 | of two item sequences that one stream begins with, one continues the other |
| `CodeLengths.NotFooled` | deps/miniz/tinfl.c:336-349 | on items that expand to the whole of the lengths the reader neither fails nor waits, and it ends with exactly those |
| `Tokens.SameToken` | deps/miniz/tinfl.c:353-417 | a stream begins with the code of at most one token |
| `Tokens.OneReading` | deps/miniz/tinfl.c:353-417 | of two token sequences that one stream begins with, one continues the other |
| `Inflater.Block.Run` | deps/miniz/tinfl.c:353-470 | after whatever earlier blocks put out: what has been put out is that and the output of the tokens read, which are exactly those the input begins with, and matches may reach into the earlier output; it waits only when the next token is not there or the buffer is full |
| `Inflater.Block.StepPair` | deps/miniz/tinfl.c:366-405 | the two-literal path reads the same tokens as the slow one |
| `Inflater.Block.StepSymbol` | deps/miniz/tinfl.c:358-365 | the slow path reads one symbol of the stream |
| `Inflater.Block.StepCopy` | deps/miniz/tinfl.c:427-468 | a match is put out as far as there is room, and goes on later |
| `Inflater.SplitsDoNotMatter` | deps/miniz/tinfl.c:353-470 | two inflaters at the end of a block of one stream, after the same earlier output, cut in whatever way, have the same tokens and output |
| `Inflater.NotStuck` | deps/miniz/tinfl.c:353-470 | on a well-formed block, first or later, the inflater neither fails nor waits once the input is there |
| `Inflater.InflateBlock` | deps/miniz/tinfl.c:353-470 | inflating a well-formed block after earlier output neither fails nor waits; it comes to the end, with exactly the output of its tokens, if and only if the buffer has room for all of it, and otherwise fills the buffer with the beginning |
| `Deflate.InflateStream` | deps/miniz/tinfl.c:258-471 | on every well-formed stream of stored, fixed and dynamic blocks the output is exactly what the blocks stand for, matches into earlier blocks included, and what comes after the last block is left |
| `Deflate.OneMeaning` | deps/miniz/tinfl.c:258-471 | two ways to see a stream as blocks give the same output and leave the same rest |
| `Deflate.InflateNext` | deps/miniz/tinfl.c:260-261 | one block of any kind, from the bits that say whether it is the last and of which kind |
| `Deflate.InflateStored` | deps/miniz/tinfl.c:262-289 | a stored block, from the bits to the next byte on: its bytes are put out, from the bit buffer first |
| `Deflate.ReadLength` | deps/miniz/tinfl.c:264-265 | LEN and NLEN are accepted if and only if they are those of some length |
| `Deflate.InflateDynamic` | deps/miniz/tinfl.c:305-470 | a dynamic block, from its header on: the codes are read in the code of the header and the tokens in those codes, and their output is put out |
| `Deflate.InflateCoded` | deps/miniz/tinfl.c:353-470 | a block of tokens in any two complete codes: their output is put out |
| `Deflate.ReadLengths` | deps/miniz/tinfl.c:336-350 | the two codes of a dynamic block are the expansion of its items, in two parts |
| `Deflate.FixedLengths` | deps/miniz/tinfl.c:296-301 | the loops set up the lengths of section 3.2.6 of RFC 1951 |
| `Deflate.FixedComplete` | deps/miniz/tinfl.c:296-301 | the fixed codes are complete |
| `Inflater.LengthRange` | deps/miniz/tinfl.c:409-410 | match lengths are from 3 to 258 |
| `MatchCopy.CopyMatch` | deps/miniz/tinfl.c:417-468 | by whichever copy, in a linear or a power-of-two window, the output goes on byte by byte as section 3.2.5 of RFC 1951 says |
| `MatchCopy.CopyMasked` | deps/miniz/tinfl.c:427-435 | the masked copy, as far as the buffer goes |
| `MatchCopy.CopyWords` | deps/miniz/tinfl.c:437-457 | eight bytes at a time equal one at a time when the distance is at least the length |
| `MatchCopy.CopyThrees` | deps/miniz/tinfl.c:459-473 | three bytes at a time equal one at a time, overlapping or not |
| `MatchCopy.RepeatAt` | deps/miniz/tinfl.c:427-435 | byte k of a match is byte k - dist of the output |
| `MatchCopy.RepeatIs` | deps/miniz/tinfl.c:427-435 | byte k of a match is byte k modulo dist of the dist bytes it begins to copy |
| `Adler32.Update` | deps/miniz/tinfl.c:482-497 | the checksum of all output so far becomes that of all output, in 32 bits, however the output was cut |
| `Adler32.NoOverflow` | deps/miniz/tinfl.c:484-493 | within a block of 5552 bytes neither sum passes 32 bits |
| `Adler32.SumBlock` | deps/miniz/tinfl.c:487-492 | the unrolled loop computes the two sums |
| `Adler32.SumsSplit` | deps/miniz/tinfl.c:485-494 | the sums of a whole are those of its parts |
| `JsonRoundTrip.RoundTrip` | deps/json11/json11.cpp:724-734 | parsing the dump of a value gives that value under either strategy if its depth is at most 200, and fails otherwise |
| `JsonRoundTrip.StringBack` | deps/json11/json11.cpp:472-559 | every byte string, with its escapes and its U+2028 and U+2029, is read back |
| `JsonRoundTrip.IntBack` | deps/json11/json11.cpp:565-614 | every integer of at most nine characters is read back |
| `JsonRoundTrip.ObjectBack` | deps/json11/json11.cpp:662-693 | the members of an object are read back in order |
| `JsonRoundTrip.LongIntegers` | deps/json11/json11.cpp:584-587 | an integer is read back as such if and only if it has at most nine characters |
| `JsonGrammar.Accepts` | deps/json11/json11.cpp:724-734 | a text is accepted if and only if it is a text of the grammar: section 2 of RFC 8259 with comments in the gaps where the strategy allows them, nested at most 200 deep and not ending in a block comment |
| `JsonGrammar.DocBack` | deps/json11/json11.cpp:724-734 | every text of the grammar is read as what its syntax tree stands for |
| `JsonGrammar.DocFrom` | deps/json11/json11.cpp:724-734 | every text that is read has a syntax tree that stands for what it is read as |
| `JsonGrammar.OneMeaning` | deps/json11/json11.cpp:724-734 | two syntax trees of one text stand for the same value |
| `JsonGrammar.BlockAtEnd` | deps/json11/json11.cpp:391-406 | the digit 1 and a block comment are refused |
| `JsonGrammar.StringBack` | deps/json11/json11.cpp:472-559 | pieces of a string are read as their bytes, with surrogate pairs joined and single surrogates encoded alone |
| `JsonGrammar.NumBack` | deps/json11/json11.cpp:565-614 | a number of the grammar is read as a whole |
| `JsonGrammar.NumFrom` | deps/json11/json11.cpp:565-614 | what is read as a number is one of the grammar |
| `JsonGrammar.GapBack` | deps/json11/json11.cpp:418-428 | white space and comments are skipped as a whole |
| `JsonGrammar.GapFrom` | deps/json11/json11.cpp:373-428 | what is skipped is white space and whole comments |
| `JsonGrammar.ValueBack` | deps/json11/json11.cpp:636-720 | a value of the grammar after a gap is read as what it stands for, at any depth |
| `JsonGrammar.ValueFrom` | deps/json11/json11.cpp:636-720 | what is read as a value is one of the grammar after a gap |
| `JsonReader.PrintValue` | deps/json11/json11.cpp:44-129 | the printer appends the text that `RoundTrip` reads |
| `JsonReader.PrintString` | deps/json11/json11.cpp:68-103 | every byte is printed as itself or as its escape |
| `JsonReader.PrintArray` | deps/json11/json11.cpp:105-115 | elements with separators between them |
| `JsonReader.PrintObject` | deps/json11/json11.cpp:117-129 | members with separators between them |
| `JsonReader.ParseText` | deps/json11/json11.cpp:724-734 | the parser fails or gives a value exactly as `JsonParse.Parse` says |
| `JsonReader.Parser.ParseJson` | deps/json11/json11.cpp:636-720 | the same for a value at the cursor |
| `JsonReader.Parser.ParseStringBody` | deps/json11/json11.cpp:472-559 | the same for a string, with the code point that is held back for its surrogate |
| `JsonReader.Parser.ParseNumberHere` | deps/json11/json11.cpp:565-614 | the same for a number |
| `JsonReader.Parser.ConsumeComment` | deps/json11/json11.cpp:373-412 | the same for a comment |
| `JsonReader.Parser.ConsumeGarbage` | deps/json11/json11.cpp:418-428 | the same for white space and comments |
| `JsonLaws.Utf8Law` | deps/json11/json11.cpp:443-465 | every character is encoded so that a decoder by section 3 of RFC 3629 gives it back with its length, in 1 to 4 bytes by its bounds |
| `JsonLaws.PairLaw` | deps/json11/json11.cpp:524-530 | every character beyond U+FFFF is what exactly one surrogate pair is joined to |
| `JsonLaws.HexLaw` | deps/json11/json11.cpp:504-519 | four hexadecimal digits of either case are the number they stand for |
| `JsonLaws.LetterLaw` | deps/json11/json11.cpp:543-556 | the escapes by a letter are those of section 7 of RFC 8259 |
| `JsonLaws.CharacterLaw` | deps/json11/json11.cpp:364-366 | white space, digits and structural characters are those of section 2 of RFC 8259 |
| `JsonLaws.EscapedLaw` | deps/json11/json11.cpp:68-103 | a byte is printed as it is if and only if it is no control character, quote or backslash and begins no U+2028 or U+2029; as a letter if and only if there is one |
| `JsonLaws.BodyLaw` | deps/json11/json11.cpp:68-103 | the text of a string has no control character, no U+2028 and no U+2029 in it |
| `JsonLaws.LessLaw` | deps/json11/json11.cpp:117-129 | members are ordered by their keys lexicographically |
| `JsonLaws.PutLaw` | deps/json11/json11.cpp:662-693 | a member that is read takes the place of one with its key, the others keep their values, and the keys stay in order |
| `Crc32.TableIs` | src/kernel/crc32.cc:5-70 | each of the 256 entries is what eight single steps make of its index |
| `Crc32.LookUp` | src/kernel/crc32.cc:75-77 | one look-up does the work of eight steps, for every register and byte |
| `Crc32.Compute` | src/kernel/crc32.cc:72-79 | the loop computes the reflected CRC with polynomial 0xEDB88320 of every message |
| `PhysicalPages.PagesStack.Push` | src/kernel/mem-manager.h:43-48 | the page is on top, or nothing changes when the stack is full |
| `PhysicalPages.PagesStack.Pop` | src/kernel/mem-manager.h:50-55 | the top page leaves, or 0 |
| `PhysicalPages.PhysicalAllocator.InsertRange` | src/kernel/mem-manager.h:211-237 | every page of a range that is not held is stacked once, even for overlapping ranges |
| `PhysicalPages.PhysicalAllocator.Free` | src/kernel/mem-manager.h:117-137 | a page given out is stacked again; a free one is left alone |
| `PhysicalPages.PhysicalAllocator.Alloc32` | src/kernel/mem-manager.h:149-159 | a page below 4 GiB that nobody holds; null exactly when none is free |
| `PhysicalPages.PhysicalAllocator.Alloc` | src/kernel/mem-manager.h:161-175 | a page that nobody holds, above 4 GiB if one is free; null exactly when none is free |
| `PhysicalPages.FreeMemory` | src/kernel/mem-manager.h:177-183 | total minus used memory is the page size times the pages stacked, and no page held is stacked |
| `ModulePaths.NormalizePath` | js/__loader.js:33-60 | the loop gives a path without dots and with no empty part but the first, or null |
| `ModulePaths.WalkExact` | js/__loader.js:33-60 | the result is null if and only if some .. comes when there is no component left, the root counting as one; it is absolute if and only if the root was there and no .. has taken it away |
| `ModulePaths.RootPopped` | js/__loader.js:33-60 | /../x is normalized to x |
| `ModulePaths.NormalIsFixed` | js/__loader.js:33-60 | a normal path is normalized to itself |
| `ModulePaths.ResolveIsProper` | js/__loader.js:154-188 | resolution finds only files that are there, and names each by its normal form |
| `ModulePaths.RelativeIsAbsolute` | js/__loader.js:164-185 | a relative request is the absolute one that begins with the directory of the module |
| `ModulePaths.SearchNodeModules` | js/__loader.js:120-152 | the loop over the directories upwards, skipping those named node_modules |
| `ModulePaths.NearestWins` | js/__loader.js:120-152 | what is found is what the nearest node_modules has that has anything; nothing is found if and only if none has |
| `ModulePaths.DirectoryIsProper` | js/__loader.js:91-118 | a directory leads to a file that is there: the main file of its package.json, or index |
| `ModulePaths.SplitJoin` | js/__loader.js:106-106 | splitting a path undoes joining it |
| `ModulePaths.FileOrder` | js/__loader.js:62-69 | of a path, .js, .json and .node behind it, the first that is there is found |
| `ModulePaths.PathOrder` | js/__loader.js:91-118 | of a path without a package.json: the path as a file, and then index in it, in that order |
| `ModulePaths.PackageOrder` | js/__loader.js:91-118 | of one with a package.json: the path as a file, what the package names, and then index in that |
| `ModulePaths.RequestKinds` | js/__loader.js:154-188 | a request with a leading slash does not depend on the module, a bare name is searched upwards from it, and a built-in name is the request for its path |
| `ModulePaths.DirLaw` | js/__loader.js:202-203 | the directory of a file is what comes before its name |
| `ModuleLoader.Loader.Load` | js/__loader.js:211-258 | loading ends on every finite graph, cyclic or not; a request that resolves to no file throws; a cached file is never run again and its exports are returned; no module that was in the cache exports anything else afterwards; global.module is restored by every return |
| `ModuleLoader.Loader.LoadNew` | js/__loader.js:228-258 | a file that is not cached is cached under its normal name and run once; what is returned is what JSON.parse makes of it or what its script has set last, and it throws exactly for a .node file, no content, text that is no JSON, or a script that throws |
| `ModuleLoader.Loader.RunScript` | js/__loader.js:245-252 | the acts of a script are carried out one after the other: it is given an exception for a file that is not there, what it has exported so far for itself, and what they export for other modules |
| `ModuleLoader.AlwaysTheSame` | js/__loader.js:245-252 | a script that requires nothing does one thing |

## Left out

- Weak memory: the queue is modelled with sequentially consistent accesses; fences are not.
- Heap: segments, mmap, morecore, trimming, locks and footers are not compiled; the corruption checks
  (RTCHECK) always pass; what users write into their blocks, the memcpy of realloc and the clearing of calloc
  are not modelled.
- Heap: the searches of mspace_malloc read the bins as values, which the links in memory are proved to make; the
  index word of a tree chunk, always the bin of its size, is not kept.
- Heap.MSpace.constructor: asks that capacity covers the bytes skipped to align the base, that it is below 2^40,
  where compute_tree_index is exact, and that base and capacity end at 0 or 1 modulo 4; create_mspace_with_base
  asks for less, and HeapSizes.TopInside and HeadWords.TopReadsBack show that the code needs it.
- Heap.MSpace.Memalign: asks for an alignment of at most 2^63, beyond which the source does not return.
- Heap.MSpace.InternalMemalign: the same.
- FreeList.Safety: for at most 2^31 - 2 threads, which is what the reference count has bits for.
- DequeueClaims.Safety: for runs in which no call is let through by the wrap of the counts; without that it is
  false, as DequeueClaims.Unpaced shows, and DequeueClaims.PacedExact has the exact condition of each step.
- BlockCells.Safety: elements are claimed one at a time, and there is memory for at most 2^59 index entries;
  the walk of dequeue_bulk along the index, enqueue_bulk and constructors that throw are not modelled. The two loads
  that test a slot are one step, and so are building an element and publishing it, and moving one out and
  counting it: between them no other thread can touch what they touch.
- QueueDelivery.DeliveredOnce: one implicit producer, elements dequeued one at a time, with the limits of the two
  systems it joins.
- ProducerHash.Safety: threads do not exit, so no producer is recycled; key and value of an entry are written in
  one step.
- Queue: explicit producers' blocks, tokens, rotation, move and swap, destructors.
- Deflate.InflateStream: for well-formed streams with all of the input at hand and room for the output; cuts of the
  input and full buffers are in the header, code length and block decoders it runs, and for stored blocks not at
  all. The failures are modelled where they happen in those decoders and in Deflate.ReadLength; that of block
  kind 3 is not.
- Inflater: zlib headers, the last-call mode that pads the input with zeros, and output into a
  wrapping buffer (MatchCopy has the wrapping copy itself); codes with at most one symbol have no table here,
  and the model stops at length symbols 286 and 287 and distance symbols 30 and 31, where the source reads
  beyond its tables or uses a zero.
- CodeLengths.Expander.Run: begins when the header has been read, which BlockHeader.Header.Run does.
- JSON: floating-point numbers are kept as their text, error messages are not modelled, and the model's parser
  stops at the first failure where the source goes on to unwind with a failure already recorded.
- PhysicalPages.PhysicalAllocator.InsertRange: for ranges without page 0 (the source inserts none below 32 MiB, and
  0 stands for no page) and without pages that were given out (the source inserts only at start-up), on stacks
  that have room for the low and the high pages of the range.
- ModuleLoader.Loader.Load: virtual modules and the nocache flag are left out; a script makes finitely many calls, each
  decided by what the calls before it came to.
- V8 bindings, interrupts, devices, networking and the JavaScript library.
