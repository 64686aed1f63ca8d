# The sdtree allocator, its hash and its test data sets

A Dafny model of the block allocator of the sdtree repository (`chunk_block.c`), of the tick
protocol its deferred frees rely on (`spt_thread.c`), of the hash in `jhash.h`, and of the file,
load and cache arithmetic that feeds the tree (`data_set_construct.c`, `data_read_cache.c`),
with proofs of what they promise. `dafny verify dfyconfig.toml` checks everything.

## What is modelled

**Concurrent stacks** (`LockFreePool.dfy`, `DeferredFrees.dfy`, `LockFreePages.dfy`). Any number of
threads interleave at every atomic access: head reads, link reads, compare-and-swaps and counter
updates are single steps, each thread has its own program counter and snapshot, and a pop installs
whatever link it read without looking again. Ids come back to the vec and db stack from the threads'
deferred-free queues, by the source's tests on masked stamps, the tick a walk carries along
included; the stack is safe in every run none of whose walks slips past a wrap of the clock. The
block stack is safe because blocks never come back. Page reservation by add-then-undo and the
installation of the three-level table are steps of the second machine.

**The tick protocol** (`ThreadTick.dfy`, `GuardedPool.dfy`, `GuardedRuns.dfy`). The online map, the
black-white map and the tick as the threads update them, the product of that protocol with the vec
and db stack, and the runs of that product which break the stack.

**The allocator as a whole** (`PoolSpec.dfy`, `PoolLaws.dfy`, `PoolSteps.dfy`, `PoolRuns.dfy`,
`PoolAges.dfy`, `PoolWaits.dfy`, `PoolPromises.dfy`, `PoolData.dfy`, `TickAge.dfy`). What each call
does to the free stacks, the reserved vecs, the deferred-free queues and the clients' ids, as
functions on lists; then what every run of calls keeps, when a call fails, what a walk frees, what
nobody touches before its two ticks are over, which id a call hands out, what its status tells, and
what becomes of the data of a retired db.

**The allocator's memory** (`ClusterRep.dfy`, `ClusterMoves.dfy`, `ClusterWords.dfy`,
`Cluster.dfy`). `class Cluster` holds the heads, counters, per-thread records and memory words of
`cluster_head_t` and updates them in place, in the source's loops; every method's contract equates
the lists the memory spells after the call with the function of `PoolSpec` applied to those before.

**The page table** (`PageTable.dfy`). `class PageList` has `pglist` and the index pages, adds pages
and follows ids to addresses; it is proved to be a flat map. `PagesOfPool.dfy` puts the lists of the
allocator over it.

**The hash** (`JHash.dfy`) and **the data set** (`DataSet.dfy`, `DataCache.dfy`, `DataLoad.dfy`).

Some predicates are written `forall on: bool :: PIf(on, ...)`. They mean no more than
`PIf(true, ...)`; the form keeps their bodies out of proofs that only pass them on.

## What the proofs found

- **The two-tick grace holds for one or two threads, and for no more.** A thread that leaves a
  section intersects the black-white map with a snapshot of the online map it took earlier. With n
  threads, stale snapshots let an open section see up to n - 1 ticks (`GraceBound`), and that many
  do happen (`ReachLate`); d ticks of grace are enough exactly for n <= d + 1 (`GraceExactly`). It
  matters: in runs without slipping walks every swap pops the top if and only if there are at most
  two threads (`SafeExactly`); from three on a swap can install an id that a client holds.
- **A walk over an aged queue can free young nodes.** `vec_buf_free` and `db_buf_free` keep the
  widened tick for later nodes, so a walk that passes a stamp from before a wrap of the clock goes
  on through stamps of the present tick (`SlipsExactly`, `StraddleExample`). With that, two threads
  are not safe either (`SlipBreaks`, for queues of any length above two): the stack proofs ask that
  no walk slips. A call disturbs a node younger than two ticks if and only if it walks such a queue
  (`CallKeepsExactly`).
- **A refused page can stop later callers for ever.** If the page or the index page of slot 320,
  832 or 832 + 512k is refused, adders at the slots behind it wait for an index page nobody brings
  (`BlockedExactly`, `PageList.AddPage`; `RefusalHangs` is such a run). A refusal anywhere else
  costs one slot.
- **No id is mistaken for the null id** only because the last page number is never given out: the
  largest vec id is 8388095, below `SPT_NULL` = 8388607 (`IdsBelowNull`).
- **`free_vec_cnt` and its like pass through 0xffffffff** when a pop overtakes the counter update of
  a push; they are right modulo 2^32 and at rest (`QuiescentCounters`).
- **A split of the data set loses bytes** exactly when its number of files or its largest file does
  not fit in an `int` (`SplitExactly`); two files of 4 GiB are listed as empty (`SplitExample`).
- **Cache windows give the instances** exactly when the instance length divides the cache unit or
  one window holds everything (`WindowsExact`, `WindowExample` for the default unit of 40 MiB).
  Otherwise the last windows hand out instances that run past the end of the data set, and from some
  length on even instances that start there (`WalkWithinData`, `PastTheEnd`).

Where the repository's comments and its code differ, the model follows the code.

## Model

The tick protocol's rows cite its state and its calls in `spt_thread.h`; the code behind them is in
`spt_thread.c`, whose comments are not UTF-8 text, and its lines are named in the third column.

| member | source | states |
|---|---|---|
| LockFreePool.OneOwner | chunk_block.c:491-593 | in every interleaving without a slipping walk no id is in two hands, none in hand is on the stack or queued, a queued id is in one queue once, and none is lost |
| LockFreePool.HandsDisjoint | chunk_block.c:491-593 | two threads' hands never share an id |
| LockFreePool.PopIsAbaFree | chunk_block.c:549-568 | in runs without a slipping walk a successful swap of a pop removes exactly the top and installs the true second id, whatever happened since the snapshot |
| LockFreePool.SnapshotStep | chunk_block.c:551-567 | while the queues are in order (which slipping walks alone upset) an id a popper may hold a snapshot of does not come back to the stack in one step |
| LockFreePool.GoneStaysGone | chunk_block.c:549-593 | nor over any run without a slipping walk while the popper's section stays open |
| LockFreePool.AtomicStack | chunk_block.c:443-486 | in runs without a slipping walk every step pops the top, prepends a whole chain, or leaves the stack alone |
| LockFreePool.QuiescentCounters | chunk_block.c:516-517 | at rest after a run without a slipping walk the free counter is the stack's length and free plus used is all that was carved |
| LockFreePool.CountersKept | chunk_block.c:569-590 | in every state the counters are right modulo 2^32 up to what threads between swap and update still owe |
| LockFreePool.HoldersKept | chunk_block.c:577-593 | an id marked as taken or being pushed stays in the hands of the thread named |
| LockFreePool.HeadGraced | chunk_block.c:611-632 | what the masked test of either alloc-from-buf function or of a walk takes off a queue has waited two ticks |
| LockFreePool.QueuesKept | chunk_block.c:813-845 | every step but the start of a slipping walk keeps the queues in order, the walks among aged ids, and each parked id in its queue |
| LockFreePool.RunInv | chunk_block.c:420-593 | the invariant of stack, snapshots, queues, holders and counters holds after every run without a slipping walk |
| DeferredFrees.CalmExactly | chunk_block.c:823-836 | everything a walk frees is two ticks old if and only if it does not slip |
| ThreadTick.RefillNeverFails | spt_thread.h:4-25 | (spt_thread.c 75-83) the refill of the black-white map always finds it empty, so its assertion cannot fire |
| ThreadTick.RunInv | spt_thread.h:21-37 | (spt_thread.c 24-86) the online map is the set of threads inside; at most one thread turns the tick |
| ThreadTick.GraceBound | spt_thread.h:24-37 | (spt_thread.c 62-86) with n threads an open section sees at most n - 1 ticks |
| ThreadTick.ReachLate | spt_thread.h:24-37 | (spt_thread.c 62-86) and n - 1 ticks do happen |
| ThreadTick.GraceExactly | spt_thread.h:24-37 | (spt_thread.c 62-86) d ticks of grace are enough for n threads if and only if n <= d + 1 |
| ThreadTick.BudgetsKept | spt_thread.h:24-37 | (spt_thread.c 67-74) ticks seen plus ticks still to be caused by stale snapshots never exceed the number of other threads |
| ThreadTick.BudgetsWithin | spt_thread.h:24-37 | (spt_thread.c 55-86) that budget bounds the ticks every open section has seen |
| GuardedPool.TickIsAllowed | spt_thread.h:24-37 | (spt_thread.c 75-78) with at most two threads the protocol ticks only when the pool can stand it |
| GuardedPool.RunInv | spt_thread.h:24-37 | (spt_thread.c 55-86) with one or two threads and no slipping walk protocol and pool agree on the clock and on who is inside, and the pool's invariant holds |
| GuardedPool.SafeWithTwoThreads | chunk_block.c:491-593 | with one or two threads under the protocol itself, ids have one owner and pops are ABA-free unless a walk slips |
| GuardedRuns.SafeExactly | chunk_block.c:549-568 | in the runs without a slipping walk every successful swap pops the top if and only if there are at most two threads |
| GuardedRuns.SlipBreaks | chunk_block.c:813-845 | with two threads or more, and a queue of any length, a run whose only slipping walk makes a successful swap install an id still queued |
| LockFreePages.PageIdGivenOnce | chunk_block.c:157-169 | a reservation gets an id of 0..pg_num_max-2 that no earlier moment of the run gave to anybody |
| LockFreePages.UndoMeansFull | chunk_block.c:158-162 | the cursor is taken back only when every page id has been given out |
| LockFreePages.CellFilledOnce | chunk_block.c:171-243 | every pointer cell, index roots included, is filled at most once and never emptied |
| LockFreePages.HandedOutOnce | chunk_block.c:390-418 | a block handed out never returns to the stack |
| LockFreePages.PopIsAbaFree | chunk_block.c:398-413 | a successful swap pops exactly the top block with no grace period at all |
| LockFreePages.LookupNeverWaits | chunk_block.c:23-92 | looking up a listed, handed-out or snapshotted block meets only filled cells |
| LockFreePages.AtomicStack | chunk_block.c:259-278 | every step pops the top block, prepends a whole page, or leaves the stack alone |
| LockFreePages.QuiescentCounter | chunk_block.c:278-414 | at rest `free_blk_cnt` is the stack's length |
| LockFreePages.RunInv | chunk_block.c:145-418 | the invariant of cursor, cells, blocks, snapshots and counter holds after every run |
| TickAge.ExpiredIsAge | chunk_block.c:612-620 | the masked test sees the age modulo the window: never early, and exact below a window |
| TickAge.WalkExactly | chunk_block.c:823-836 | the walk frees at least the aged prefix, and exactly it if and only if the clock did not wrap inside |
| TickAge.WalkInOneWindow | chunk_block.c:823-836 | a queue stamped within the present window is walked exactly |
| TickAge.SlipsExactly | chunk_block.c:823-836 | for stamps of any age the walk frees young nodes if and only if it slips |
| TickAge.SlipsIsStraddles | chunk_block.c:823-836 | for stamps less than a window old slipping is a wrap between the head and the first young node |
| TickAge.StraddleExample | chunk_block.c:826-829 | one aged head before any number of nodes stamped just now, all of which the walk frees |
| PoolRuns.RunGood | chunk_block.c:145-1073 | after any calls every vec and db is in exactly one place, every block free or carved into one kind, and every queue in order |
| PoolLaws.IdsBelowNull | chunk_block.c:157-169 | every vec id in use is below SPT_NULL and belongs to an installed page |
| PoolLaws.DbIdsBelowNull | chunk_block.c:157-169 | the same for db ids |
| PoolLaws.ShareExcludes | chunk_block.c:595-694 | an id on a thread's list is there once and is neither free nor with a client |
| PoolLaws.InstallPageKeeps | chunk_block.c:259-278 | a new page's blocks join the books once |
| PoolLaws.AddPageKeeps | chunk_block.c:145-280 | adding a page, or failing to, keeps the books |
| PoolLaws.BlkAllocKeeps | chunk_block.c:390-418 | taking a block keeps the books |
| PoolLaws.CarveKeeps | chunk_block.c:420-488 | carving a block into vecs or dbs keeps the books |
| PoolLaws.VecAllocKeeps | chunk_block.c:546-575 | vec_alloc keeps the books |
| PoolLaws.DbAllocKeeps | chunk_block.c:491-525 | db_alloc keeps the books |
| PoolLaws.VecAllocFromBufKeeps | chunk_block.c:647-694 | taking from the vec queue keeps the books, and only a two-tick-old head is spent |
| PoolSteps.DbAllocFromBufGood | chunk_block.c:595-645 | taking from the data queue keeps the books and the contents |
| PoolSteps.ReleaseVecGood | chunk_block.c:837-845 | one turn of vec_buf_free keeps the books and the contents |
| PoolSteps.ReleaseDbGood | chunk_block.c:916-932 | one turn of db_buf_free keeps the books and the contents |
| PoolSteps.ParkVecGood | chunk_block.c:937-966 | retiring a vec keeps the books, and the queue in order |
| PoolSteps.ParkDbGood | chunk_block.c:968-995 | retiring a db keeps the books, and the queue in order |
| PoolSteps.ParkSteps | chunk_block.c:946-965 | retiring is marking, taking a reserved vec and queuing, in this order |
| PoolSteps.FillGood | chunk_block.c:790-811 | filling the reserve keeps the books |
| PoolSteps.VecFreeToBufGood | chunk_block.c:850-892 | the whole of vec_free_to_buf keeps the books |
| PoolSteps.DbFreeToBufGood | chunk_block.c:998-1038 | the whole of db_free_to_buf keeps the books |
| PoolSteps.FillRsvListGood | chunk_block.c:764-787 | the whole of fill_in_rsv_list keeps the books |
| PoolRuns.FillEffect | chunk_block.c:790-811 | a fill adds vecs up to the number asked for, succeeds exactly when it adds them all, and lengthens no queue |
| PoolRuns.RetireVecKeepsReserve | chunk_block.c:850-892 | SPT_OK means the reserve is as long as before and at most 200 vecs are queued; SPT_NOMEM costs one reserved vec; `RetireVecStatus` says when which is returned |
| PoolRuns.RetireDbKeepsReserve | chunk_block.c:998-1038 | the same for dbs |
| PoolRuns.FillRestoresReserve | chunk_block.c:744-787 | a fill of rsv_list_fill_cnt that succeeds restores exactly the full reserve |
| PoolRuns.VecAllocFailsExactly | chunk_block.c:546-568 | vec_alloc fails if and only if no vec and block is free and every page request it is due is refused, for any garbage in try_cnts; then no free list has changed |
| PoolRuns.DbAllocFailsExactly | chunk_block.c:491-510 | the same for db_alloc, whose four requests are all due |
| PoolRuns.CombosFailExactly | chunk_block.c:1040-1074 | the two combos fail if and only if, besides, the head of their queue has not expired |
| PoolRuns.FailsOnlyWhenFull | chunk_block.c:396-413 | if the system refuses nothing they fail only when all (pg_num_max - 1) * blk_per_pg blocks are carved |
| PoolRuns.PagesDense | chunk_block.c:157-178 | the installed pages are those of the slots used up and granted, and between calls no block is off the stack uncarved |
| PoolRuns.InitialReached | chunk_block.c:354-386 | what cluster_init leaves is reached by a run of calls |
| PoolRuns.InitialReserves | chunk_block.c:354-369 | if no page is refused and ids are left over every thread starts with its full reserve and the root vec is there |
| PoolAges.VecBufFreeExactly | chunk_block.c:813-848 | vec_buf_free frees exactly the two-tick-old nodes before the tail if and only if the clock did not wrap inside; the tail stays |
| PoolAges.DbBufFreeExactly | chunk_block.c:894-935 | the same for db_buf_free, and the data passed on is exactly that of those dbs, in order |
| PoolAges.ReleaseGivesBack | chunk_block.c:837-845 | each carrier and each unspent id of the freed front is on the free stack once, the queue keeps the rest |
| PoolAges.ReleasedVecs | chunk_block.c:837-845 | the order in which they lie there |
| PoolAges.ReleasedDbs | chunk_block.c:916-932 | the freed front's dbs and carriers on their stacks, last freed on top |
| PoolAges.ReleasedData | chunk_block.c:917-924 | the data of the freed dbs that is flagged for it, and no other, goes to freedata |
| PoolAges.VecReuseExactly | chunk_block.c:680-694 | a parked vec is handed out if and only if its age modulo the window is two or more |
| PoolAges.DbReuseExactly | chunk_block.c:611-643 | the same for a parked db, whose data is passed on only then |
| PoolWaits.YoungWaits | chunk_block.c:595-1038 | no call by any thread, unless it walks a queue and slips, moves a node younger than two ticks or changes what it parks |
| PoolWaits.CallKeepsExactly | chunk_block.c:764-1038 | a call leaves every node younger than two ticks alone if and only if no walk it makes slips |
| PoolWaits.CalmBefore | chunk_block.c:875-881 | a retirement walks only from the watermark on, and then the queue as it stood before |
| PoolWaits.WaitsUntilAged | chunk_block.c:595-1038 | over any run of calls that slip in no walk a node stays until the clock is two ticks past its stamp; till then its id is neither free nor with a client |
| PoolWaits.CallKept | chunk_block.c:595-1038 | each call whose walks do not slip keeps every young node of every thread |
| PoolWaits.CalmWalk | chunk_block.c:823-836 | a walk frees aged nodes only, if and only if it does not slip |
| PoolPromises.VecAllocCascade | chunk_block.c:546-575 | vec_alloc takes the top of the stack, else the first vec of the top block, else the first vec of the page it adds, and goes no further than it must |
| PoolPromises.DbAllocCascade | chunk_block.c:491-525 | the same for db_alloc, and the db's header is cleared |
| PoolPromises.CarvedOnTop | chunk_block.c:262-486 | what is carved lies on top of its stack, lowest number first |
| PoolPromises.VecQueueFirst | chunk_block.c:1040-1049 | the thread's queue serves if and only if its head is spent or two ticks old, and then the stack is untouched; otherwise the stack serves and the queue is untouched |
| PoolPromises.DbQueueFirst | chunk_block.c:1051-1074 | the same for dbs; the carrier of a db from the queue is freed |
| PoolPromises.VecAllocHandsOut | chunk_block.c:546-575 | the vec handed out was with no client and is now, no other id changes hands, no client's contents change |
| PoolPromises.DbAllocHandsOut | chunk_block.c:511-524 | the same for db_alloc; None if and only if nothing changes hands |
| PoolPromises.VecFromBufHandsOut | chunk_block.c:647-694 | the same for vec_alloc_from_buf |
| PoolPromises.DbFromBufHandsOut | chunk_block.c:595-645 | the same for db_alloc_from_buf; the flag word is cleared, the data word left |
| PoolPromises.CombosHandOut | chunk_block.c:1040-1074 | the same for the two combos |
| PoolPromises.RetireVecStatus | chunk_block.c:870-891 | SPT_WAIT_AMT if and only if more than 200 vecs stay queued after the walk, which only a queue of 200 or more gets; otherwise SPT_OK if and only if the walk freed something or a vec is in reach |
| PoolPromises.RetireDbStatus | chunk_block.c:1015-1037 | the same for dbs, with 100 |
| PoolPromises.FillWatchedStatus | chunk_block.c:764-787 | SPT_WAIT_AMT if and only if either queue stays above its watermark; otherwise SPT_OK if and only if all vecs asked for were found |
| PoolPromises.RetireVecParks | chunk_block.c:850-892 | the vec is the client's no more, bears its mark and is queued last, on the first reserved vec, with the present tick, whatever is freed and filled afterwards |
| PoolPromises.RetireDbParks | chunk_block.c:998-1038 | the same for dbs, whose header and data stay |
| PoolPromises.RetiredVecWaits | chunk_block.c:595-1038 | over any run without slipping walks a retired vec is neither free nor with a client, and keeps its mark, until the clock is two ticks on |
| PoolPromises.RetiredDbWaits | chunk_block.c:595-1038 | the same for dbs and their contents |
| PoolPromises.FillStacks | chunk_block.c:796-808 | a fill leaves the reserve as it was below what it adds |
| PoolPromises.FillPutsOne | chunk_block.c:796-808 | the vec that is found goes on top of it |
| PoolPromises.RetireStacks | chunk_block.c:749-762 | retiring takes the top of the reserve and leaves the rest at its bottom |
| PoolData.CallPassesOn | chunk_block.c:595-1038 | every call passes to freedata exactly what the dbs it takes off a queue owe, in queue order, and no call passes on anything else |
| PoolData.WalkPassesOn | chunk_block.c:905-933 | a walk passes on exactly the non-zero data words of the freed dbs whose flag word is odd |
| PoolData.CallSame | chunk_block.c:968-995 | no call touches the contents of a db it leaves queued, not even one whose walk slips |
| PoolData.ReusePassesOn | chunk_block.c:621-630 | a db written with (rsv, x), retired, and taken from the queue by the thread's next allocation however many calls later: freedata gets x if and only if x is not zero and rsv is odd, and the flag word is cleared |
| PoolData.LeavingPassesOn | chunk_block.c:916-924 | the same for whatever other call takes it off the queue, in its place among the data of the dbs that leave with it |
| ClusterRep.VecEndsMeet | chunk_block.c:667-676 | the two ends of a vec queue are equal exactly when it has one node |
| ClusterRep.NullUnlisted | chunk_block.c:655-664 | no list of a thread runs through SPT_NULL, so null ends mean an empty list |
| ClusterRep.HeapFrame | chunk_block.c:434-451 | writes to words of no list and no client change no list |
| ClusterWords.QueueShape | chunk_block.c:595-694 | the ends of a queue are null together and exactly when it is empty; vec_cnt is twice vec_list_cnt less one for a spent head, data_cnt is data_list_cnt; only a two-tick-old head is spent; stamps never decrease towards the tail |
| ClusterMoves.VecHeadCell | chunk_block.c:655-666 | what the two end pointers and the head's word say about the queue |
| ClusterMoves.QueueVecRep | chunk_block.c:948-965 | linking the old tail to the new node appends to the queue the memory spells |
| ClusterMoves.FreeVecMove | chunk_block.c:577-593 | writing one word and the head pushes onto the stack the memory spells |
| ClusterHead.Cluster.ClusterInit | chunk_block.c:287-388 | the fresh cluster's lists are those of `Initial` |
| ClusterHead.Cluster.LinkItems | chunk_block.c:263-276 | the items are chained in order, the last to the head, and nothing else is written |
| ClusterHead.Cluster.InstallPage | chunk_block.c:259-278 | the granted page's blocks are prepended to the stack |
| ClusterHead.Cluster.AddPage | chunk_block.c:145-280 | the lists change as `PoolSpec.AddPage` says, a refused page costing its slot |
| ClusterHead.Cluster.BlkPop | chunk_block.c:409-414 | the top block is taken off the stack |
| ClusterHead.Cluster.BlkAlloc | chunk_block.c:390-418 | the lists change as `PoolSpec.BlkAlloc` says; the refill loop ends |
| ClusterHead.Cluster.CarveVecs | chunk_block.c:464-485 | a block's vecs are prepended to the vec stack |
| ClusterHead.Cluster.VecAddBlk | chunk_block.c:454-488 | the lists change as `PoolSpec.VecAddBlk` says |
| ClusterHead.Cluster.CarveDbs | chunk_block.c:430-449 | a block's dbs are prepended to the db stack |
| ClusterHead.Cluster.DbAddBlk | chunk_block.c:420-452 | the lists change as `PoolSpec.DbAddBlk` says |
| ClusterHead.Cluster.VecPop | chunk_block.c:564-570 | the top vec is taken off the stack and counted as used |
| ClusterHead.Cluster.VecAlloc | chunk_block.c:546-575 | the lists change as `PoolSpec.VecAlloc` says, for any garbage in try_cnts; the loop ends |
| ClusterHead.Cluster.DbPop | chunk_block.c:511-521 | the top db is taken off the stack with its header cleared |
| ClusterHead.Cluster.DbAlloc | chunk_block.c:491-525 | the lists change as `PoolSpec.DbAlloc` says; the loop ends |
| ClusterHead.Cluster.VecFree | chunk_block.c:577-593 | the vec is on top of the stack and one word is written |
| ClusterHead.Cluster.DbFree | chunk_block.c:527-543 | the db is on top of the stack and one word is written |
| ClusterHead.Cluster.SpendVecHead | chunk_block.c:690-694 | the head's id is handed out and its node spent in place |
| ClusterHead.Cluster.VecAllocFromBuf | chunk_block.c:647-694 | the lists change as `PoolSpec.VecAllocFromBuf` says |
| ClusterHead.Cluster.FreeDataOf | chunk_block.c:623-629 | the data is passed to freedata exactly if it is there and flagged |
| ClusterHead.Cluster.ClearRsv | chunk_block.c:630 | the flag word is cleared, the data word stays |
| ClusterHead.Cluster.TakeDbHead | chunk_block.c:621-644 | the head's db is handed out and its carrier freed |
| ClusterHead.Cluster.DbAllocFromBuf | chunk_block.c:595-645 | the lists change as `PoolSpec.DbAllocFromBuf` says |
| ClusterHead.Cluster.VecAllocCombo | chunk_block.c:1040-1049 | queue first, stack second, as `PoolSpec.VecAllocCombo` says |
| ClusterHead.Cluster.DataAllocCombo | chunk_block.c:1051-1074 | the same for dbs; data_total counts what was handed out |
| ClusterHead.Cluster.RsvListFillCnt | chunk_block.c:744-747 | how many vecs the reserve lacks |
| ClusterHead.Cluster.VecAllocFromRsvList | chunk_block.c:749-762 | the reserve's first vec is taken off it |
| ClusterHead.Cluster.RsvPush | chunk_block.c:805-808 | a vec is put on the reserve |
| ClusterHead.Cluster.FillInRsvListSimple | chunk_block.c:790-811 | the lists change as `PoolSpec.Fill` says |
| ClusterHead.Cluster.ReleaseVecHead | chunk_block.c:837-845 | one turn of the loop frees the head's parked id and carrier |
| ClusterHead.Cluster.VecBufFree | chunk_block.c:813-848 | the lists change as `PoolSpec.VecBufFree` says |
| ClusterHead.Cluster.WalkVecs | chunk_block.c:823-846 | the loop ends, in the pool that the walk with its carried tick leads to |
| ClusterHead.Cluster.ReleaseDbHead | chunk_block.c:916-932 | one turn of the loop frees the head's db and carrier |
| ClusterHead.Cluster.DbBufFree | chunk_block.c:894-935 | the lists change as `PoolSpec.DbBufFree` says |
| ClusterHead.Cluster.WalkDbs | chunk_block.c:905-933 | the loop ends, in the pool that the walk with its carried tick leads to |
| ClusterHead.Cluster.MarkVec | chunk_block.c:945-946 | the status mark is the only write to a retired vec |
| ClusterHead.Cluster.QueueVec | chunk_block.c:948-965 | the node is written and linked behind the tail |
| ClusterHead.Cluster.QueueDb | chunk_block.c:976-992 | the same for the data queue |
| ClusterHead.Cluster.VecFreeToBufSimple | chunk_block.c:937-966 | the lists change as `PoolSpec.ParkVec` says |
| ClusterHead.Cluster.DbFreeToBufSimple | chunk_block.c:968-995 | the lists change as `PoolSpec.ParkDb` says; data_total drops by one |
| ClusterHead.Cluster.TrimVecs | chunk_block.c:876-880 | a vec queue above its watermark is walked, and whether it stayed above is told |
| ClusterHead.Cluster.TrimDbs | chunk_block.c:1022-1026 | the same for a data queue |
| ClusterHead.Cluster.TrimBoth | chunk_block.c:768-777 | both queues are walked if they are too long, and whether one stayed so is told |
| ClusterHead.Cluster.FillOrWait | chunk_block.c:880-890 | the reserve is filled either way; a full queue is reported instead of the fill's outcome |
| ClusterHead.Cluster.VecFreeToBuf | chunk_block.c:850-892 | the lists and the status change as `PoolSpec.VecFreeToBuf` says |
| ClusterHead.Cluster.DbFreeToBuf | chunk_block.c:998-1038 | the lists, the status and data_total change as `PoolSpec.DbFreeToBuf` says |
| ClusterHead.Cluster.FillInRsvList | chunk_block.c:764-787 | the lists and the status change as `PoolSpec.FillRsvList` says |
| PageTable.PageList.AddPage | chunk_block.c:145-243 | the flat map gains exactly the slot's page or nothing; the outcome is full, no memory, installed or waiting for ever, exactly as `Outcome` says |
| PageTable.PageList.FillSlot | chunk_block.c:164-243 | the same for a slot already used up |
| PageTable.PageList.InstallDirect | chunk_block.c:172-176 | a direct slot is written and no other lookup changes |
| PageTable.PageList.InstallInd | chunk_block.c:177-205 | the single indirect page, brought by its first slot |
| PageTable.PageList.InstallDind | chunk_block.c:206-243 | the third level: root, inner page and entry |
| PageTable.PageList.BlkIdToPtr | chunk_block.c:23-92 | block i of an installed page is found 32 * i bytes into it, a block of any other page never |
| PageTable.PageList.VecIdToPtr | chunk_block.c:108-121 | a vec 8 bytes per number into its block |
| PageTable.PageList.DbIdToPtr | chunk_block.c:94-106 | a db 16 bytes per number into its block |
| PageTable.PageList.LinkBlocks | chunk_block.c:259-276 | the loop that links a page's blocks writes block i's link where block i is looked up, naming block i + 1, and in the last block the old head |
| PageTable.BlkOfPage | chunk_block.c:89-91 | block pg * 128 + i lies i blocks behind the start of page pg |
| PageTable.ItemOfPage | chunk_block.c:94-121 | the lookups' addresses of vecs and dbs are those of the items the blocks are cut into |
| PageTable.InstalledExactly | chunk_block.c:157-243 | a slot is filled if and only if one is left, nothing blocks it and every request its adder makes is granted: three at slot 832, two at 320 and at 832 + 512k, else one |
| PageTable.BlockedExactly | chunk_block.c:180-232 | an adder waits for ever if and only if a refused slot was to carry its index page or the root was refused |
| PageTable.RefusalHangs | chunk_block.c:180-201 | one refused index page at slot 320, and the next adder waits for ever |
| PageTable.BurntExactly | chunk_block.c:164-200 | the slots lost are those whose adder was refused a page or waits |
| PageTable.AddPages | chunk_block.c:157-243 | after any number of adds requests and lost slots are those of `BooksAt` |
| PageTable.PageList.FoundApart | chunk_block.c:94-121 | two different vecs that are found share no byte, nor do two different dbs |
| PageTable.PageList.FoundKindsApart | chunk_block.c:94-121 | nor do a vec and a db of different blocks |
| PagesOfPool.PagesAgree | chunk_block.c:145-280 | after the same adds the lists and the table have the same pages, also after refusals |
| PagesOfPool.EveryIdIsFound | chunk_block.c:23-121 | every block, vec and db the allocator has anywhere is found by its lookup |
| PagesOfPool.KnownIdsApart | chunk_block.c:94-121 | no vec and db of the allocator share a byte |
| PageTable.DindWrite | chunk_block.c:240-241 | writing the third level changes one lookup |
| PageTable.RootWrite | chunk_block.c:182-212 | hanging a fresh index page changes no lookup |
| PageTable.BlksApart | chunk_block.c:89-91 | blocks lie inside their page, different blocks apart |
| PageTable.ItemInBlk | chunk_block.c:105-119 | an item lies inside its block even when its size does not divide the block's |
| PageTable.ItemsApart | chunk_block.c:105-119 | different vecs, different dbs, and any vec and db lie apart |
| PageTable.CarvedAddress | chunk_block.c:430-441 | the address the carving loop writes is the one the lookup finds |
| JHash.MixReversible | jhash.h:30-40 | the mixer has an inverse, on both sides |
| JHash.FinalReversible | jhash.h:42-51 | so has the final mixer |
| JHash.RotatesWord | jhash.h:19-22 | rotating by s moves a word's top s bits to its bottom and the rest up |
| JHash.MovesBit | jhash.h:19-22 | bit k goes to bit (k + s) modulo 32 |
| JHash.StandardAmounts | jhash.h:31-50 | the thirteen rotations are by the amounts of the two macros |
| JHash.MixSpelledOut | jhash.h:31-39 | the mixer is the twelve assignments, in their order |
| JHash.FinalSpelledOut | jhash.h:42-51 | the final mixer likewise |
| JHash.XorBitByBit | jhash.h:33-38 | exclusive or, bit by bit |
| JHash.DigestStarts | jhash.h:71-72 | the initial state is 0xdeadbeef plus length and initial value modulo 2^32 in all three words, the empty key's hash is that, and words lie lowest byte first |
| JHash.XorTwice | jhash.h:33-38 | exclusive or undoes itself |
| JHash.JHash | jhash.h:66-104 | the loop and the fall-through switch compute the fold over zero-padded twelve-byte blocks |
| JHash.JHash2 | jhash.h:113-142 | the same over words |
| JHash.AddTail | jhash.h:82-98 | four cases of the switch add one zero-padded word |
| JHash.BytesAndWordsAgree | jhash.h:66-142 | on a word array the byte form and the word form leave the same state |
| JHash.FixedFormsAgree | jhash.h:145-169 | the one-, two- and three-word forms are jhash2 of as many words |
| JHash.OneBlockMatters | jhash.h:66-104 | equal-length keys that differ within one block leave different states |
| JHash.MixersLossless | jhash.h:30-51 | neither mixer maps two states to one |
| DataSet.GetFileList | data_set_construct.c:42-124 | the list returned is that of `Entries`, or none |
| DataSet.SplitExactly | data_set_construct.c:61-93 | the files add up to the data set if and only if their number and the largest fit in an int |
| DataSet.SplitExample | data_set_construct.c:61-93 | 8 GiB in two files: a list of two empty files |
| DataSet.TotalUpTo | data_set_construct.c:83-93 | storing a length in an int only ever loses bytes |
| DataSet.InstancesExactly | data_set_construct.c:61-93 | the files hold all instances between them if and only if their number and a full file's instances fit in an int |
| DataSet.FilesAsConfigured | data_set_construct.c:61-93 | no file is empty or longer than configured, a full one has no room for another instance, and each is as long as its instances |
| DataSet.PerFile | data_set_construct.c:61-63 | as many instances as the configured length has room for |
| DataSet.RangeEndMeans | data_set_construct.c:395-439 | an offset is in the part loaded if and only if it is in the data set and in the range asked for |
| DataSet.LastFile | data_set_construct.c:61-88 | the last file is not empty and no longer than a full one |
| DataSet.GetDataFromFile | data_set_construct.c:390-441 | the planned reads follow one another through exactly the part of the range that exists, each byte to its own place |
| DataSet.EachByteOnce | data_set_construct.c:395-439 | each address of the range is in exactly one read |
| DataCache.Cache.GetNextData | data_read_cache.c:13-25 | the next instance's address, until the window is used up |
| DataCache.Settings.GetDataSetCache | data_read_cache.c:28-100 | window by number, with the length and address it has, or none |
| DataCache.Settings.LoadArgs | test_case_main.c:299-312 | the range loaded before the walk starts where the walk starts and has its length, or all there is |
| DataCache.RangeAsAsked | data_read_cache.c:41-66 | the walk starts at the instance asked for and has as many as asked for; without a number, start and number together make the whole data set |
| DataCache.Drift | data_read_cache.c:45-96 | how far the address of an instance is from where the instance lies |
| DataCache.WithinRange | data_read_cache.c:45-96 | all instances yielded lie within the range if and only if the windows are exact; all start there if and only if the drift at the last is less than an instance |
| DataCache.WalkWithinData | data_read_cache.c:59-96 | the same in terms of the settings and of the end of the data set |
| DataCache.PastTheEnd | data_read_cache.c:45-96 | 3000 bytes in the default unit: the first address of the 76th window is the end of the data set |
| DataCache.Settings.GetNextDataSetCache | data_read_cache.c:102-112 | the window after the present one |
| DataCache.Settings.WalkAll | data_set_construct.c:459-469 | the walk ends and yields the windows' addresses in order |
| DataCache.WindowsExact | data_read_cache.c:45-96 | these are the instances in order, each once, if and only if the instance length divides the unit or one window holds all |
| DataCache.WindowExample | data_read_cache.c:45-96 | instances of 3000 bytes in the default unit: the second window starts 40 bytes late |
| DataLoad.LensListed | data_set_construct.c:61-93 | the lengths loaded from are those in the list of files |
| DataLoad.ByteLoaded | data_set_construct.c:395-439 | every byte of every instance in the range is loaded once, from its place in its file |
| DataLoad.YieldedIsLoaded | test_case_main.c:295-312 | with a split that loses nothing and exact windows, the walk yields the range's instances in order, each byte of each loaded exactly once from its file |
| DataLoad.SettingsSetUp | test_case_main.c:295-312 | settings that ask for what exists set load and walk up alike |
| DataLoad.WalkIsLoaded | test_case_main.c:295-312 | what `WalkAll` yields under such settings, the windows being exact: from the instance asked for on, as many as asked for or all there are, each byte of each loaded once from its file |
| DataCache.WindowLens | data_read_cache.c:66-89 | a window goes on where the one before it ended |

## Left out

- The tree itself (insert, delete, lookup in `vector.c` and `splitter.c`): the allocator is modelled through the calls the tree makes.
- The tick promise in `LockFreePool`: it is the guard of the tick step, because for three or more threads `spt_thread.c` does not keep it; `GuardedPool` removes it for up to two, and `GuardedRuns` shows what happens beyond.
- Runs with a slipping walk: what still holds of the stacks after one is not stated; `GuardedRuns` shows what no longer does.
- The watermarks in `LockFreePool`: a walk may start over a queue of any length, and a carve may make any number of ids; `Cluster` and `PoolSpec` have the watermarks and the sizes.
- `spt_atomic64_set_bit` and its counterpart: the retry loops of the two bit updates are one step each; `spt_thread_wait` only enters and leaves sections.
- Memory fences, compiler reordering and inline assembly: every atomic access is one sequentially consistent step.
- Retry control of `blk_alloc`, `db_alloc` and `vec_alloc` in the concurrent machines: a thread may start over or give up at any point; the sequential class has the retry counters.
- Pointers: in `Cluster` a word's number stands for its address; `PageTable` has the addresses.
- Refused index pages in `PoolSpec`: granting a slot means granting every page its adder asks for; `PageTable` has the refusals and what they cost.
- Overlays of one word by several structs: a word holds one view at a time, the one it was last written through; the magic numbers beside the links are not kept.
- Debug counters, `spt_debug` output, the key and construction callbacks, `is_bottom`, `startbit` and `endbit` of a cluster.
- `cluster_init` failing for want of its own page or its thread table; the failure of its last `vec_alloc` is modelled.
- `test_add_page`, the other test helpers and code disabled by `#if 0`.
- Overflow of 64-bit products and offsets in the data set arithmetic: numbers there are unbounded except where the source stores them in an `int`.
- File names, creating, mapping and reading files; `malloc` failing in `get_data_set_cache`.
- `parse_cmdline`, `sdtree_perf_stat.c`, `splitter_adp.c` and the setters of `data_set.h`: easy members only.
