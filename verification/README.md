# Verified models of the allocator, the request server and the buffered reader

The repository contains three programs whose correctness depends on an interplay of views that
is easy to get wrong. Each of them is modelled here in its own terms, and proved.

**The allocator (`hw4/malloc_3.cpp`).** Memory is flat: 8-byte words and bytes by address, where a
store destroys every cell it overlaps. Headers, footers, list links and payloads all live in that
memory, so a write that runs over a link really loses it. `BlockList` is the list sorted by size
and address, `Allocator` the operations on top of it. The ghost field `tiles` is the row of blocks
in address order. `Allocator.Valid()` says that four views agree: the row tiles the heap exactly
from `sbrk_start` to the break, every header and footer records its block, the links spell out
exactly those blocks in sorted order in both directions, and the five counters are those recomputed
from the row and the live mappings plus the ghost field `drift`; besides, no two neighbours are both
free, and `wilderness` names the last block. `drift` is zero at the start, and one branch of
`srealloc` changes it, by an amount the contract gives. The kernel's answers (`sbrk`, the address `mmap` picks) are parameters.

Some calls of the real code do not return in an orderly state. They are not excluded by
preconditions. The model stops there, and the contract says exactly when:

| outcome | what the code does there |
|---|---|
| `UnmapsHeap` | passes a block of the `sbrk` heap to `munmap`, because its size reaches the threshold; the counters drop, header and footer disagree, and what `munmap` answers is not looked at |
| `OverwritesLinks` | moves a payload over the links of a block that is still in the list |
| `SplitsMapping` | calls `splitBlock` on a mapped block |
| `NullCopy` | copies to the null pointer `smalloc` returned |
| `AssertFails` | fails one of its own assertions on alignment |

Three more defects do not stop anything at once, and have their exact conditions too. Two merges of
`srealloc` leave `wilderness` naming a block that no longer exists (`Forgets`). A cut to a size that
is no multiple of 8 takes the heap off its alignment (`LosesAlignment`). And when `sbrk` refuses to
grow the last block, the counter of allocated bytes stays raised (`Miscount`). `Counterexamples.dfy`
has a small heap for each of these eight.

`Client.dfy` looks at the allocator from outside. A program that allocates, frees, writes and
resizes sees a store of independent buffers; `Step` and `Run` prove that memory refines that store
before and after every call, and that the rows of blocks a run goes through follow one another exactly
as `RowSpec` says.

**The server (`hw3/webserver-files/server.c`, `queue.c`).** `Queue` is the linked list with head, tail
and size. `ServerModel` is a transition system: a step is a region executed under the mutex, or an
event outside it, including spurious wake-ups and any choice of whom a signal wakes. All theorems
are about every run, with any number of workers, any queue size and all four policies.
`RequestServer` executes the regions on two `Queue` objects and is proved to make those steps.

**The buffered reader (`hw3/webserver-files/segel.c`).** `Stream` delivers any number of bytes at a time,
is interrupted, or fails. `Reader` is proved against the plain byte stream.

Where comments and code of the repository disagree, the code is followed. `searchFreeBlock` is
described as finding the first block by address (`hw4/malloc_3.cpp:144`); it finds the smallest one that
fits, and the lowest of those. `rio_readlineb` returns the number of bytes stored only when they
end in a newline, and one more otherwise.

## Model

| member | source | states |
|---|---|---|
| BlockListModel.BlockList.AddMetadata | hw4/malloc_3.cpp:59-117 | inserting into the list is insertion into the set sorted by size, then address: the links spell out the old blocks plus the new one, sorted, acyclic, in both directions, and size is its length; the branch at 103-111 and the fall-out at 116 are dead code |
| BlockListModel.BlockList.RemoveMetadata | hw4/malloc_3.cpp:119-141 | exactly the given block leaves the list and the others keep their order, even when its size was changed while it was linked; the fall-out at 140 is dead code |
| BlockListModel.BlockList.SearchFreeBlock | hw4/malloc_3.cpp:149-158 | returns a free block with enough room that precedes all other such blocks in the list order, or null exactly if there is none |
| BlockListModel.SortedUnique | hw4/malloc_3.cpp:67-112 | the order leaves no choice: a set of blocks has only one sorted list |
| RequestSpec.SearchIsBestFit | hw4/malloc_3.cpp:149-158 | the block the search returns is the best fit of the whole heap: least size, then least address |
| SizeArithmetic.SplitTestExact | hw4/malloc_3.cpp:442 | in wrapping 64-bit arithmetic the two-part split test holds if and only if the block has room for the request, two metadata and 128 bytes more, for every request that leaves room for two metadata |
| SizeArithmetic.RoundUpLeast | hw4/malloc_3.cpp:438-438 | the rounded request is the least multiple of 8 that holds the request |
| SizeArithmetic.SplitTestFooled | hw4/malloc_3.cpp:442 | for every size beyond that bound the test is wrong |
| SizeArithmetic.Limits | hw4/malloc_3.cpp:435-442 | the limits are 100000000 bytes for a request, 131072 for mmap and 128 for a split; metadata take 32 bytes |
| RequestSpec.GrantedExactly | hw4/malloc_3.cpp:455-480 | when sbrk is assumed to succeed: the kernel is willing, the new break is an address, and nothing up to it is mapped |
| RequestSpec.MapClearExactly | hw4/malloc_3.cpp:486-489 | where mmap may put a mapping: beside the heap, on addresses no mapping has |
| HeapSpec.FreedNoPair | hw4/malloc_3.cpp:257-297 | freeing a live block, with merging, leaves no two free neighbours if there were none |
| HeapSpec.FreeKeepsInvariant | hw4/malloc_3.cpp:241-298 | after sfree the counters equal their recomputation, the wilderness names the last block and no free pair exists |
| HeapSpec.SplitKeepsInvariant | hw4/malloc_3.cpp:213-234 | the same after splitBlock, whose upper part is freed and may merge with its right neighbour |
| HeapSpec.SplitTotals | hw4/malloc_3.cpp:228-229 | the counter updates of splitBlock and of the sfree inside it, made as if the block were free, add up to the recomputed counters |
| AllocatorModel.Allocator.MergeBlocks | hw4/malloc_3.cpp:241-298 | replaces the freed block and its free neighbours by one block, found by reading footers and headers in memory; all four views agree afterwards; only the merged range and list links were written |
| AllocatorModel.Allocator.MergeBoth | hw4/malloc_3.cpp:259-271 | three blocks become one: the row, the counters and the wilderness pointer are those of a two-sided merge |
| AllocatorModel.Allocator.MergeNext | hw4/malloc_3.cpp:272-282 | the same for a free right neighbour, whose size is still readable after it left the list |
| AllocatorModel.Allocator.MergePrev | hw4/malloc_3.cpp:283-294 | the same for a free left neighbour, found through its footer |
| AllocatorModel.Allocator.constructor | hw4/malloc_3.cpp:24-30 | before the first call the invariant holds, with no blocks and counters at zero |
| AllocatorModel.Allocator.UpdateStatistics | hw4/malloc_3.cpp:40-47 | each of the five counters grows by its own argument |
| AllocatorModel.Allocator.CutBlock | hw4/malloc_3.cpp:213-226 | the block leaves the list and two live blocks with headers, footers and list places take exactly its range; the lower payload keeps its bytes |
| AllocatorModel.Allocator.SplitBlock | hw4/malloc_3.cpp:213-234 | the row after the split, the counters and the wilderness pointer; fails exactly if the upper part reaches the mmap threshold; the lower payload keeps its bytes |
| AllocatorModel.Allocator.SFree | hw4/malloc_3.cpp:507-526 | keeps the invariant and the bytes of every other live block, does nothing for null or a free block, removes a mapping together with all its cells, and fails exactly when a heap block is as large as the mmap threshold; then the counters have dropped as if a mapping had gone |
| AllocatorModel.Allocator.FreeInHeap | hw4/malloc_3.cpp:515-520 | header and footer are marked free and the block is merged; the heap is in order and all other live blocks keep their bytes |
| AllocatorModel.Allocator.FreeAsMapping | hw4/malloc_3.cpp:521-525 | succeeds exactly for a mapping, which disappears with all its cells; for a heap block the header is already marked free and the footer is not; the counters drop in either case |
| AllocatorModel.Allocator.Reuse | hw4/malloc_3.cpp:440-451 | handing out the best fit, split or whole, keeps the invariant; fails exactly if the part split off would be passed to munmap |
| AllocatorModel.Allocator.MapAnew | hw4/malloc_3.cpp:485-495 | a request at or above the threshold gets a mapping of its own, or nothing changes |
| AllocatorModel.Allocator.GrowWilderness | hw4/malloc_3.cpp:453-462 | the last free block is grown in place; the assertion that the request is larger never fails; a refused sbrk changes nothing, and the old payload area keeps its bytes |
| AllocatorModel.Allocator.Append | hw4/malloc_3.cpp:472-483 | the new block begins at the old break and becomes the wilderness |
| AllocatorModel.Allocator.AppendMisaligned | hw4/malloc_3.cpp:465-471 | when the first break is not a multiple of 8, sbrk_start becomes the break before the padding, where no row of blocks begins, or -1 if the padding is refused; exactly when memory is obtained, where the break ends up, what is listed, counted and kept in every case |
| AllocatorModel.Allocator.SMalloc | hw4/malloc_3.cpp:434-496 | which of the four ways serves a request, the row it leaves, exactly when it passes heap memory to munmap, and exactly when it returns null: for 0, for more than 100000000 bytes, or when memory is refused; a request that rounds to 131072 or more gets a mapping, any other one heap memory; every live block keeps its bytes; a first request at a misaligned break is described completely too |
| RequestSpec.ServedBlock | hw4/malloc_3.cpp:439-451 | a served block is live, at least as large as the rounded request and larger by less than 2*SOM + 128 |
| Guarantees.SplitRemainder | hw4/malloc_3.cpp:442-444 | whatever is split off has at least 128 bytes and is free |
| Guarantees.WalkEndsAtBreak | hw4/malloc_3.cpp:12-18 | hopping from sbrk_start by the sizes found in memory ends exactly at the break, after as many hops as there are blocks |
| Guarantees.PayloadsDisjoint | hw4/malloc_3.cpp:12-18 | a payload overlaps no other payload, no header and no footer, and lies within the heap |
| Guarantees.CountersCount | hw4/malloc_3.cpp:24-47 | the recomputed counters count blocks and free blocks and add up the sizes of both, and metadata is always 2*SOM per block |
| Guarantees.BytesMakeUpHeap | hw4/malloc_3.cpp:24-47 | payload bytes and metadata bytes of the heap's blocks add up to its extent |
| Guarantees.RoundTrip | hw4/malloc_3.cpp:439-451 | serving a request from a free block and freeing it at once gives back the same row, split or not |
| Guarantees.RowDeterminesRest | hw4/malloc_3.cpp:50-159 | two heaps with the same row have the same list, head and metadata |
| ClientModel.AllocThenFree | hw4/malloc_3.cpp:434-526 | the round trip on the allocator itself: row, list, wilderness, counters and all live bytes are restored, if and only if the block served is below the mmap threshold |
| Guarantees.ServesAligned | hw4/malloc_3.cpp:438-483 | from an 8-aligned break smalloc keeps all addresses and sizes multiples of 8 |
| Guarantees.FreedAligned | hw4/malloc_3.cpp:241-298 | so does sfree |
| Guarantees.ResizedAligned | hw4/malloc_3.cpp:300-432 | in an aligned heap no merge of srealloc fails an assertion, and the merged heap is aligned |
| Guarantees.SizesDecideAlignment | hw4/malloc_3.cpp:438-471 | from an aligned start, blocks whose sizes are multiples of 8 lie on multiples of 8, and so do their pointers and the break |
| RowSpec.TrimmedAlignedExactly | hw4/malloc_3.cpp:536-541 | cutting a block of an aligned heap keeps alignment if and only if nothing is cut or the request is a multiple of 8 |
| RowSpec.RegrownAlignedExactly | hw4/malloc_3.cpp:546-554 | the same for a merge to the rounded size followed by a cut to the unrounded one |
| RowSpec.ResizesAligned | hw4/malloc_3.cpp:528-570 | over all routes of srealloc: alignment is lost exactly at those cuts |
| ReallocSpec.FateNull | hw4/malloc_3.cpp:318-431 | tryMergeRealloc returns null exactly if no merge fits, or one does but for memory sbrk refuses |
| ReallocSpec.WayShape | hw4/malloc_3.cpp:318-430 | each merge takes only free blocks besides the one resized, ends in a block that is large enough, and moves the break only if it ends there |
| ReallocSpec.WayCounts | hw4/malloc_3.cpp:323-428 | the counter updates of every merge equal the recomputation |
| ReallocSpec.WayWilderness | hw4/malloc_3.cpp:331-427 | after a merge the wilderness names the last block if and only if the merge was not case d or e with the last block on the right |
| ReallocSpec.RegrowWilderness | hw4/malloc_3.cpp:364-388 | the same after the cut that follows a merge: exactly when the pointer is left dangling |
| AllocatorModel.Allocator.TryMergeRealloc | hw4/malloc_3.cpp:300-432 | which merge is chosen, its exact outcome, the row, payload, counters and wilderness it leaves; null exactly if no merge fits or sbrk refuses, and then nothing changed but, in case c, the counters |
| AllocatorModel.Allocator.ReallocLeft | hw4/malloc_3.cpp:318-345 | case b: the payload arrives in the left block; stops exactly when the move reaches the links of the old block |
| AllocatorModel.Allocator.ReallocWild | hw4/malloc_3.cpp:346-363 | case c: the last block grows in place; if sbrk refuses, nothing has happened except that the counters are too high by exactly the growth |
| AllocatorModel.Allocator.ReallocRight | hw4/malloc_3.cpp:364-374 | case d: the right neighbour is taken in; the wilderness pointer is not looked at |
| AllocatorModel.Allocator.ReallocBoth | hw4/malloc_3.cpp:375-388 | case e: both neighbours are taken in; stops exactly when the move reaches the links of the old block |
| AllocatorModel.Allocator.ReallocBothWild | hw4/malloc_3.cpp:389-411 | case f with a free left neighbour: all three blocks and the new memory become one block, the new wilderness |
| AllocatorModel.Allocator.ReallocRightWild | hw4/malloc_3.cpp:412-429 | case f: both size updates, the sbrk in between and the relinking leave one block up to the new break; added_size > 0 never fails |
| AllocatorModel.Allocator.TrimBlock | hw4/malloc_3.cpp:538-541 | cutting a live block to the request keeps the invariant through the temporary claim that the block is free |
| AllocatorModel.Allocator.ReallocDown | hw4/malloc_3.cpp:536-543 | case a: the pointer and the first request bytes stay, the block is cut to size; the two exceptions are exactly a mapping that would be split and heap memory that would be passed to munmap |
| AllocatorModel.Allocator.ReallocInPlace | hw4/malloc_3.cpp:544-556 | a merge followed by a cut: the row it leaves, the old payload in it, and the exact conditions of failure, of giving up and of a forgotten wilderness |
| AllocatorModel.Allocator.ReallocMove | hw4/malloc_3.cpp:557-560 | freeing before allocating and copying is right, also after a refused sbrk: the payload survives until it is copied, even over itself when the freed block is the one that gets enlarged; and the exact conditions under which the call fails |
| AllocatorModel.Allocator.CopyOut | hw4/malloc_3.cpp:559-559 | the copy out of the freed block, whose old header may by then hold another size, delivers all of the old payload |
| Survival.StillTooSmall | hw4/malloc_3.cpp:318-557 | if no merge fits without new memory, the block once freed and merged is still too small for the request, and it is the last one exactly if new memory would have helped |
| Survival.ServedElsewhere | hw4/malloc_3.cpp:439-483 | so the new block lies somewhere else, unless it is that last block enlarged |
| AllocatorModel.Allocator.ReallocMapping | hw4/malloc_3.cpp:562-568 | allocate, copy, free: right for mappings, while a heap block of that size is passed to munmap |
| AllocatorModel.Allocator.SRealloc | hw4/malloc_3.cpp:528-570 | null without any change for 0 or more than 100000000 bytes; smalloc for a null pointer, with every way that can end; on every live block: the first min(old, new) bytes arrive at the result, every other live block keeps place and bytes, the block is at least the request and less than the rounded request plus 2*SOM + 128, the row is the one the request leads to, and the verdict function says exactly which calls fail and how; the invariant holds afterwards if and only if the wilderness was not forgotten, and then the pointer is the one from before, an aligned heap stays aligned if and only if LosesAlignment does not hold, and the counters drift by exactly Miscount |
| ClientModel.DoAlloc | hw4/malloc_3.cpp:434-496 | a new buffer appears at a pointer the program did not hold, and every other buffer keeps its data |
| ClientModel.DoFree | hw4/malloc_3.cpp:507-526 | one buffer disappears and every other keeps its data, exactly if its block is not taken for a mapping |
| ClientModel.DoResize | hw4/malloc_3.cpp:528-570 | a buffer moves with its data, cut to the new size, and every other keeps its data; exactly if the call is harmless |
| ClientModel.ReadsBack | hw4/malloc_3.cpp:434-570 | what refinement is worth to a program: each byte it wrote is in memory, in a live block with room for the whole buffer |
| ClientModel.AfterExactly | hw4/malloc_3.cpp:434-570 | what the program may believe after each command, buffer by buffer and byte by byte |
| ClientModel.FrugalExactly | hw4/malloc_3.cpp:438-485 | which scripts are sure to run to their end: no realloc, and heap allocations that together stay below the threshold |
| ClientModel.Step | hw4/malloc_3.cpp:434-570 | one call of a program that keeps buffers: exactly if it is harmless, memory goes on refining the program's own store, the row becomes the one the call leads to, and the pointer returned is none the program holds, unless a realloc stays in place; exactly when alignment is lost, and by how much the counters drift |
| ClientModel.Run | hw4/malloc_3.cpp:434-570 | any script of calls: the rows follow one another as the calls say, every executed call was harmless and returned no pointer still in use, and the run stops early only at a call that is not harmless; before each call and after the last executed one the memory of that moment refines the store, also in a run that stops early; alignment is kept unless some call loses it, and over a whole script the counters drift by the sum of the calls' miscounts; a script without srealloc whose blocks fit below the mmap threshold always runs to its end |
| ClientModel.WildernessKnown | hw4/malloc_3.cpp:364-388 | a check a caller could make: the invariant holds after srealloc if and only if the wilderness is a listed block that ends at the break |
| Counterexamples.MergingPassesTheThreshold | hw4/malloc_3.cpp:283-294 | two blocks of 100000 bytes merge into one above the mmap threshold |
| Counterexamples.SplitUnmapsHeap | hw4/malloc_3.cpp:229-229 | a small request served from it passes heap memory to munmap |
| Counterexamples.ServedAboveThreshold | hw4/malloc_3.cpp:445-450 | a request just below the threshold can get a block that sfree will pass to munmap |
| Counterexamples.LeftMergeLosesLinks | hw4/malloc_3.cpp:338-339 | resizing a 1000-byte block behind a free 8-byte one overwrites links in use |
| Counterexamples.MoveOverLinks | hw4/malloc_3.cpp:338-339 | the move keeps the links if and only if it copies at most the left size plus SOM plus 16 bytes; past that the next link is unreadable or a word of the payload |
| Counterexamples.RightMergeForgetsWilderness | hw4/malloc_3.cpp:364-374 | a heap and a call after which the wilderness dangles |
| Counterexamples.ShrinkingLosesAlignment | hw4/malloc_3.cpp:536-541 | srealloc to 201 bytes leaves a block of 201 bytes |
| Counterexamples.ShrinkingLeavesEights | hw4/malloc_3.cpp:536-541 | that call takes an aligned heap off its alignment |
| Counterexamples.CountersStayRaised | hw4/malloc_3.cpp:348-354 | a resize to 208 bytes that succeeds after a refused sbrk leaves the counter of allocated bytes 8 too high |
| Counterexamples.RefusedGrowthMoves | hw4/malloc_3.cpp:412-419 | a block whose growth sbrk refuses is moved to a free block elsewhere, and nothing is lost |
| Counterexamples.MisalignedStart | hw4/malloc_3.cpp:465-471 | an allocator whose first break is 4097, asked for 8 bytes: the block lies at 4104, sbrk_start is 4097, and the block does not tile the heap from there |
| Counterexamples.GrowthAssertionFails | hw4/malloc_3.cpp:350-350 | growing such a block as the last one fails the assertion |
| Counterexamples.MoveWithoutMemory | hw4/malloc_3.cpp:557-559 | without memory the old block is freed and the copy goes to the null pointer |
| Counterexamples.ShrinkingSplitsMapping | hw4/malloc_3.cpp:536-541 | shrinking a mapping calls splitBlock on it |
| QueueModel.Queue.Push | hw3/webserver-files/queue.c:65-83 | appends to the sequence the list stands for |
| QueueModel.Queue.Pop | hw3/webserver-files/queue.c:47-63 | takes the first entry, or gives -1 for an empty queue; tail is repaired |
| QueueModel.Queue.RemoveByIndex | hw3/webserver-files/queue.c:109-131 | removes exactly the entry at the index and repairs tail; runs into a null pointer exactly if the index is the size of a non-empty queue, or negative with fewer than two entries |
| QueueModel.Queue.DiscardX | hw3/webserver-files/queue.c:99-107 | closes min(num, size) descriptors and never indexes an empty queue; removal j takes the entry at rand(j) modulo the number of entries then left, closes its descriptor, and leaves the entries before and behind it |
| QueueModel.DiscardOne | hw3/webserver-files/queue.c:102-103 | one removal takes out the entry at rand() modulo the size and closes the gap |
| QueueModel.DiscardStep | hw3/webserver-files/queue.c:101-106 | j + 1 removals are j removals and then one from what is left, at the next random number modulo the length left |
| QueueModel.DiscardedAt | hw3/webserver-files/queue.c:101-104 | entry j of those removed is the one the j-th random number picks in what is then left |
| QueueModel.DiscardCount | hw3/webserver-files/queue.c:99-107 | that is min(num, size) entries |
| QueueModel.DiscardAccounts | hw3/webserver-files/queue.c:99-107 | none is lost or invented |
| QueueModel.DiscardKeepsOrder | hw3/webserver-files/queue.c:99-107 | the rest keeps its order |
| QueueModel.SubsequenceExactly | hw3/webserver-files/queue.c:99-107 | keeping the order means exactly that the kept entries stand at ascending positions of the old queue |
| ServerModel.RunOK | hw3/webserver-files/server.c:51-163 | the invariant behind the theorems holds after every run, for any number of workers |
| ServerModel.Conservation | hw3/webserver-files/server.c:54-162 | every accepted connection is held by the acceptor, waits, is owned by exactly one worker or is closed: one of these, once, and closed at most once |
| ServerModel.Capacity | hw3/webserver-files/server.c:55-161 | waiting and running never exceed the queue size; running is as long as there are workers between take and finish, so the pop at finish never meets an empty queue |
| ServerModel.Refusal | hw3/webserver-files/server.c:114-161 | exactly when a newcomer is turned away, for each policy; under DROP_HEAD and DROP_RAND only when the running connections alone fill the server |
| ServerModel.Order | hw3/webserver-files/server.c:59-160 | dispatched connections followed by waiting ones are a subsequence of arrivals, and under BLOCK and DROP_TAIL equal the admitted ones |
| ServerModel.NoLostWakeup | hw3/webserver-files/server.c:55-158 | while a worker sleeps there are no more waiting connections than awake idle workers; while the acceptor sleeps the server is full |
| ServerModel.SomeoneCanMove | hw3/webserver-files/server.c:55-118 | with a worker and a queue size of at least 1, a blocked acceptor or a waiting connection always leaves some worker able to move |
| ServerModel.WorkerStepDescends | hw3/webserver-files/server.c:54-73 | worker steps cannot go on for ever without new arrivals, although every broadcast wakes all sleepers |
| ServerModel.StuckMeansIdle | hw3/webserver-files/server.c:54-73 | when no worker can move, every accepted connection the acceptor does not hold is closed and the acceptor is not blocked |
| ServerModel.WorkDrains | hw3/webserver-files/server.c:54-73 | from every reachable state worker steps alone lead to such a state |
| ServerModel.RunningMisnames | hw3/webserver-files/server.c:66-70 | a run after which the running queue names a closed connection and not the one being handled |
| ServerModel.RequestServer.TakeRequest | hw3/webserver-files/server.c:59-62 | on the two linked queues this is the Take step of the transition system; the worker gets the oldest entry with its own arrival time, and the running queue the never-set one |
| ServerModel.RequestServer.FinishRequest | hw3/webserver-files/server.c:69-72 | this is the Finish step; the waiting entries stay as they are |
| ServerModel.RequestServer.ReplaceHead | hw3/webserver-files/server.c:145-155 | the oldest waiting connection is closed for the new one, or the new one if none waits; all other entries keep their arrival times |
| ServerModel.RequestServer.Decide | hw3/webserver-files/server.c:113-162 | under every policy the accept region does to the two linked queues what the transition system says; the entries kept are old ones with their arrival times, and a newcomer that is admitted comes last with its own |
| ServerModel.DecisionIsStep | hw3/webserver-files/server.c:113-162 | such a decision is the Admit step |
| ServerModel.ClosedCount | hw3/webserver-files/server.c:113-162 | how many connections a newcomer costs: none while there is room; when full, DROP_HEAD closes one waiting connection and DROP_RAND min(num, waiting) of them, the newcomer is closed if that made no room, and the waiting queue is as long as that leaves it |
| ServerModel.CeilingDiscards | hw3/webserver-files/server.c:133-133 | rounding up any fraction up to 1 of the number waiting gives a number of entries to discard that the transition system allows |
| ServerModel.StepsPossible | hw3/webserver-files/server.c:51-163 | the transition system leaves out no behaviour: whatever state workers and acceptor are in, the step the code would make next is possible |
| ReaderModel.Reader.Read | hw3/webserver-files/segel.c:331-356 | delivers min(n, buffered) bytes, refilling only an empty buffer, or 0 only at the end of the stream; interruptions never get out, and nothing else in the caller's buffer changes |
| ReaderModel.Stream.Read | hw3/webserver-files/segel.c:336-345 | read(): exactly the chunk the kernel gives, from one byte up, end of stream exactly when nothing is left, or an error that takes nothing |
| ReaderModel.Reader.Refill | hw3/webserver-files/segel.c:335-346 | refilling the empty buffer changes nothing that is pending and absorbs interruptions; it reports the end only when nothing is pending |
| ReaderModel.Reader.ReadNB | hw3/webserver-files/segel.c:375-394 | delivers exactly min(n, pending) bytes, whatever the chunks; on an error the bytes already taken are accounted for |
| ReaderModel.Reader.ReadLineB | hw3/webserver-files/segel.c:401-421 | stores the bytes through the first newline, the end of the stream or maxlen - 1, writes one terminator behind them and nothing further, and returns the count described above |
| ReaderModel.Perform | hw3/webserver-files/segel.c:375-421 | from what a call returns and stores, its caller recovers exactly the bytes taken from the stream |
| ReaderModel.LineEndExact | hw3/webserver-files/segel.c:406-418 | the line's end is the only position with those three properties, a newline being byte 10 |
| ReaderModel.CountExact | hw3/webserver-files/segel.c:406-420 | the count equals the number of bytes stored exactly if they end in byte 10 or the stream is at its end, and is one higher otherwise |
| ReaderModel.Session | hw3/webserver-files/segel.c:331-421 | any mix of calls, failing ones included: for every chunking and interruption pattern each call answers from what the calls before it left of the stream, and what the calls took, the lost pieces of failed ones included, and what is pending make up the stream; up to the first failure the answers are those of the plain stream, and without read errors no call fails |
| ReaderModel.AnswersMakeUpStream | hw3/webserver-files/segel.c:331-421 | the answers of the plain stream and what remains of it are the stream |

## Left out

- AllocatorModel.Allocator.AppendMisaligned: after a first break that is not a multiple of 8 the heap does not begin at sbrk_start; nothing is claimed about later calls
- AllocatorModel.Allocator.UpdateStatistics: the counters are unbounded integers; since they equal their recomputation, but for the drift, only a drift could make them wrap in a heap that fits the address space
- AllocatorModel.Allocator.SFree: a pointer into a block that was merged away, or to no block at all, is not a legal argument; freeing a free block again is covered
- ReaderModel.Stream.Read: an unending series of interruptions is not covered; rio_readlineb would not return
- ServerModel.Refusal: the number of entries DROP_RAND discards is any number from 1 to the number waiting; the computation in server.c is covered with a real factor, not with its float rounding
- the compiler's placement of the padding in MallocMetadata: is_free takes a whole word
- the stale next and prev copies in footers are carried along but nothing is claimed about them, as nothing reads them
- failure of malloc in queuePush, reuse of descriptor numbers by the kernel, and the never-set arrival time in the running queue
- scalloc, which only zeroes what smalloc returned, and the five statistics getters
- MmapList, whose only instance is commented out; mappings are a sequence of blocks
- hw4/malloc_1.cpp, hw4/malloc_2.cpp and the older copy hw4/niv_tests/malloc_3.cpp: easier versions of the same properties
- request.c, client.c, output.c and the rest of segel.c: handling a request is an arbitrary finite delay
- argument parsing, the unreachable shutdown code of server.c, and real time
- hw1, a shell whose behaviour is mostly fork, exec, signals and terminal output
