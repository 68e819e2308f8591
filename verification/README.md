# A verified model of the kernel's allocators, log, file system, page tables and processes

This project models, in Dafny, the stateful core of a small RISC-V teaching kernel and of two of
its user programs, and proves what that code is for. Eight parts are modelled:

- **The buddy allocator** (`kernel/alloc`). One bit per pair of buddies says that exactly one of
  the two is free, split bits are all that is stored of a block's size, and the free lists run
  through the free memory itself. `BuddyAllocator.Allocator` keeps lists, pair bits and split bits
  in memory. They are tied to one abstract state: the set of blocks that are live or reserved.
- **The redo log over the buffer cache** (`kernel/log.c`, `kernel/file/bio.c`). The cache is a class
  with the LRU ring in memory, and its abstract state is a plain array of blocks, the view. The
  log's writes are a sequence of single-block writes, and a crash may come between any two of them.
  `LogCalls` says on block numbers alone what any sequence of calls does, to the last block write;
  `LogRuns` proves that cache and log do that, and `LogCalls.RunDurable` what a crash leaves.
- **Blocks and inodes** (`kernel/file/fs.c`, `kernel/file/file.c`): bitmap, inode table, direct and
  indirect blocks in bytes, truncation, reading, writing, the chunks of `filewrite`, exactly when a write
  comes up short, and what a crash at any block write of a whole call leaves of the files.
- **Sv39 page tables** (`kernel/memory/vm.c`; section 4.4 of the RISC-V Privileged Architecture,
  version 20211203) over one pool of physical pages, up to `fork`, `sbrk`, copies between kernel and
  user memory, and the end of a process. Runs of many processes are compared with processes that
  each have a memory of their own.
- **The process table** (`kernel/process/proc.c`) as a machine of small steps under `wait_lock` and
  the per-process locks, any number of processes, any interleaving: what every step keeps, when `wait`
  sleeps, gives up and returns whom, whom `kill` reaches, who is whose parent, and that nobody is stuck.
- **The user heap** (`user/umalloc.c`; section 8.7 of The C Programming Language, 2nd edition).
- **The disk driver and its device** (`kernel/hardware/virtio_disk.c`; sections 2.6 and 5.2 of
  VIRTIO 1.1), step by step, with the 16-bit indices that wrap, compared with a disk that takes
  requests for buffers and makes one transfer after the other.
- **The matcher of grep** (`user/grep.c`; chapter 9 of The Practice of Programming).

State that the C code updates in place is in classes with `modifies` clauses, loops are loops, and
each method is proved against a specification on values. The process table, which is about
interleaving, is a step function on values.

## What turned out not to hold

- `bd_initfree` pushes a block twice, or one that is not usable, and the check at the end of
  `buddy_init` panics, for some small heaps: `BuddyBootCheck.DoublePush` and `PastMiddle` name their
  sizes, and `BuddyBootCheck.BootCheckAnywhere` gives the exact condition for every layout. With
  metadata in the first quarter, which `BuddyMetadata.MetaFits` proves for every heap above 512 bytes,
  it cannot happen.
- `firstk` ends exactly for requests of at most 2^63 bytes (`BuddyAddresses.FirstKEnds`): above that
  the doubled size wraps to 0 and never reaches the request.
- "too big a transaction" can be reached by operations that all stay within their quota, whatever the
  size of the log (`LogAdmission.PanicReachable`). The check comes before the search for a listed
  block, so that above LOGSIZE blocks a full header turns away a block that is in it already. For a
  block that is new to the log the panic is reachable exactly up to LOGSIZE blocks, as `mkfs` makes it
  (`LogAdmission.NewBlockPanics`).
- `commit` needs a buffer besides the pinned ones and panics without it: in every run exactly when the
  pinned blocks and the other blocks that readers outside of the operations hold are as many as the
  buffers (`LogPanics.CommitPanics`). With the log of LOGSIZE blocks that `mkfs` makes, one such reader
  is enough (`LogPanics.OneReader`). On a disk with NBUF blocks in a row outside the log, it is reachable
  without any reader if and only if the log has more than LOGSIZE blocks (`LogPanics.PanicWithoutReaders`), and
  with readers if and only if the log has room for a block (`LogPanics.PanicWithReaders`).
- The comment on `uvmdealloc` allows an old size beyond the process. The code panics exactly when a page
  between the sizes is not mapped (`UserMemory.UvmDealloc`), and `ProcSpaces.DeallocPanics` shows the
  size for every process.
- `kill(0)` marks a free slot, and the next child in that slot is born killed
  (`ProcInvariant.BornKilled`, `ProcInvariant.KillZero`).
- `kill` does not always get a process out of `wait`. One that has looked at its mark and not yet taken its
  own lock in `sleep` goes to sleep with the mark set (`ProcKill.KillTooLate`, and `ProcKill.KillMissed` for a run
  from boot). That window is the only one (`ProcKill.KillWakes`); killed anywhere else in `wait`, a process does
  not sleep there again and returns within as many of its own steps as there are slots, and two
  (`ProcKill.KilledLeaves`).
- `virtio_disk_rw` multiplies the block number in 32 bits, so that two block numbers are the same place on the
  disk exactly when they are 2^31 apart (`VirtioDisk.HomeApart`, `VirtioDisk.SectorsApart`). Below 2^31 a block
  is where it should be, and only there (`VirtioDisk.SectorBytes`).
- A failing `uvmalloc` or `uvmcopy` gives back all user pages but keeps the table pages it made; they
  go back to the pool when the table is freed. The theorems count them.

`proc_is_child` reads parent links without `wait_lock`, and the comment on it asks for two locks where
`dump2` holds one. That one is enough (`ProcWalk.WalkAnswer`): whoever exits meanwhile has to take it in
`wakeup`.

## Assumptions

- Buddy: the managed range is not exactly a block, so there is an unavailable tail, and it is larger
  than 512 bytes. Offsets are unbounded integers.
- Cache and log: one device with a non-zero number; the disk writes a block atomically; logged blocks
  lie outside the log. Operations change a block only between reading and logging it, log what they
  changed before they release it, release their buffers before `end_op`, and add at most MAXOPBLOCKS
  blocks each; a call against these rules is refused and changes nothing. Calls are interleaved, and
  readers outside of the operations come between any two block writes of a commit.
- The log is told apart from the files by its place: it lies before the inode table, as `mkfs` puts it.
- Files: a copy from or to user memory moves all its bytes or none, and so the first bytes of a buffer are
  good up to some number of them; every block below a file's size is
  mapped at the start, which every operation keeps.
- Heap: `sbrk` returns memory above everything it returned before, and the static header is below it.
- Processes: a process in `dump2` does nothing else meanwhile, and a link is read at once.
- Disk: the device reports success. Memory fences are taken as given, so a step of the driver is what
  it does while it holds `vdisk_lock`.

## Model

| member | source | states |
|---|---|---|
| `BitArrays.BitArray.IsSet` | kernel/alloc/bits.c:5-9 | Answers exactly whether the index is in the set that the bytes stand for. |
| `BitArrays.BitArray.Set` | kernel/alloc/bits.c:12-16 | The set of bits gains the index and no other bit changes. |
| `BitArrays.BitArray.Clear` | kernel/alloc/bits.c:19-23 | The set of bits loses the index and no other bit changes. |
| `BitArrays.BitArray.Switch` | kernel/alloc/bits.c:25-31 | The index enters the set if it was out and leaves it if it was in; nothing else changes. |
| `FreeLists.ListMemory.Init` | kernel/alloc/list.c:6-9 | A new ring of its own head only, beside all rings there were. |
| `FreeLists.ListMemory.Empty` | kernel/alloc/list.c:11-11 | True exactly for a ring with nothing but its head. |
| `FreeLists.ListMemory.Remove` | kernel/alloc/list.c:13-16 | Given only the node, takes it out of the one ring it is on; the order of the rest, all other rings and all memory off that ring stay. |
| `FreeLists.ListMemory.Pop` | kernel/alloc/list.c:18-25 | Returns the element behind the head and leaves the rest in order, other rings and other memory untouched. |
| `FreeLists.ListMemory.Push` | kernel/alloc/list.c:27-33 | Puts a node that is on no ring behind the head; other rings and other memory untouched. |
| `BuddyBlocks.CanonicalUnique` | kernel/alloc/buddy.c:94-166 | Free lists, pair bits and split bits that fit a set of occupied blocks are the only ones that fit it: the stored state depends on what is occupied and on nothing else. |
| `BuddyBlocks.PinCanonical` | kernel/alloc/buddy.c:107-112 | Taking a free block off its list and flipping one pair bit is exactly what occupying it needs, and the reverse is what releasing it needs. |
| `BuddyBlocks.HalveCanonical` | kernel/alloc/buddy.c:113-122 | Splitting an occupied block: its right half on the list below, one pair bit flipped, one split bit set, fits the occupied left half. |
| `BuddyBlocks.MergeCanonical` | kernel/alloc/buddy.c:145-163 | The reverse of splitting: the buddy off the list, the pair bit flipped back, the split bit cleared, fits the occupied parent. |
| `BuddyBlocks.BuddyState` | kernel/alloc/buddy.c:145-155 | With a block being freed, the pair bit is set exactly when its buddy is wholly free, and then the parent is free but for it: the one bit decides whether to merge. |
| `BuddyBlocks.FreeAncestor` | kernel/alloc/buddy.c:100-106 | Every wholly free block lies in a block that is on a free list. |
| `BuddyBlocks.FreeApart` | kernel/alloc/buddy.c:94-166 | Blocks on free lists never overlap. |
| `BuddyBlocks.TopPinned` | kernel/alloc/buddy.c:157-163 | Since something is reserved, the whole heap is never one free block and stays split. |
| `BuddyAddresses.FirstK` | kernel/alloc/buddy.c:71-79 | The smallest level whose blocks hold the request. |
| `BuddyAddresses.FirstKEnds` | kernel/alloc/buddy.c:71-79 | In 64-bit arithmetic the search ends exactly for requests of at most 2^63 bytes. |
| `BuddyAddresses.BlkIndexUp` | kernel/alloc/buddy.c:82-91 | Index and address agree across levels: the index of a block's address at a higher level is that of the block it lies in. |
| `BuddyAddresses.OverlapBytes` | kernel/alloc/buddy.c:82-91 | Blocks overlap in the tree exactly when they share a byte. |
| `BuddyBoot.BootAvail` | kernel/alloc/buddy.c:186-203 | After the marking, a block is available exactly when it lies between the metadata and the unusable end. |
| `BuddyBoot.BootFreeAt` | kernel/alloc/buddy.c:205-245 | The two boundary blocks of a level are put on its list exactly when they are maximal free blocks: the lists cover [metadata end, usable end) with at most two blocks a level. |
| `BuddyBoot.BootXorAt` | kernel/alloc/buddy.c:186-203 | After the two markings a pair bit is set exactly when one of the two buddies is a maximal free block. |
| `BuddyBoot.NextIsCeil` | kernel/alloc/buddy.c:169-174 | The next index is the first block that starts at or after the address. |
| `BuddyBootCheck.TotalWithExcess` | kernel/alloc/buddy.c:233-245 | The sum that the initial lists are credited with is the usable bytes plus the blocks pushed twice. |
| `BuddyBootCheck.BootCheckExact` | kernel/alloc/buddy.c:326-332 | With metadata in the first half of the heap the final check passes if and only if every power of two of leaves that fits between the middle and the usable end also fits between the metadata and the middle. |
| `BuddyBootCheck.TotalAnywhere` | kernel/alloc/buddy.c:233-245 | Wherever metadata and memory end: the sum is the usable bytes, plus the blocks pushed twice below the block where the two ends meet, plus unusable blocks beyond it that are listed as free. |
| `BuddyBootCheck.BootCheckAnywhere` | kernel/alloc/buddy.c:326-332 | For every metadata end and every memory end behind it the final check passes if and only if the free memory lies around the middle of a block that ends the heap and is balanced there. |
| `BuddyBootCheck.QuarterBalanced` | kernel/alloc/buddy.c:326-332 | With metadata in the first quarter the final check always passes. |
| `BuddyBootCheck.DoublePush` | kernel/alloc/buddy.c:205-333 | For every range of 384 to 399 bytes buddy_init makes a heap of 32 leaves with 13 of metadata and memory up to leaf 24, and its final check fails. |
| `BuddyBootCheck.PastMiddle` | kernel/alloc/buddy.c:205-333 | For every range of 224 to 255 bytes it makes a heap of 16 leaves with 11 of metadata, past the middle, and the check fails too. |
| `BuddyMetadata.MetaFits` | kernel/alloc/buddy.c:291-314 | For every heap above 512 bytes the lists' heads and all bit arrays fit in its first quarter. |
| `BuddyMetadata.MetaGrows` | kernel/alloc/buddy.c:291-314 | One more level costs one list head and a quarter of the leaves' count in bytes. |
| `BuddyMetadata.BitsSuffice` | kernel/alloc/buddy.c:297-313 | The bytes allotted to a level hold a bit for every pair and every block of it. |
| `BuddyAllocator.Log2` | kernel/alloc/buddy.c:176-183 | The largest power of two not above the argument. |
| `BuddyAllocator.XorArrays` | kernel/alloc/buddy.c:297-304 | Arrays of pair bits, all clear, apart from each other and of the sizes that the metadata sum counts. |
| `BuddyAllocator.SplitArrays` | kernel/alloc/buddy.c:306-313 | The same for split bits, none for leaves. |
| `BuddyAllocator.Allocator.constructor` | kernel/alloc/buddy.c:272-333 | From any range above 512 bytes that is not itself a block: a valid heap, the size of the smallest that covers the range, with exactly metadata and tail reserved and nothing live. |
| `BuddyAllocator.Allocator.Mark` | kernel/alloc/buddy.c:186-203 | At every level exactly the blocks that touch the range get their split bit and flip their pair's bit. |
| `BuddyAllocator.Allocator.MarkBoot` | kernel/alloc/buddy.c:248-269 | Wherever metadata and memory end, after the two markings a pair bit is set exactly when one of the pair was marked and not both, counting what is marked twice as not marked; with metadata in the first quarter pair and split bits are those of a heap with just these reserved. |
| `BuddyAllocator.Allocator.CountFree` | kernel/alloc/buddy.c:233-245 | The sum that bd_initfree returns, read off the pair bits, on every layout. |
| `BuddyAllocator.Allocator.BootCheck` | kernel/alloc/buddy.c:316-332 | Marking, counting and the final check, on every layout: it passes exactly under the condition of BootCheckAnywhere. |
| `BuddyAllocator.Allocator.InitFreePairLeft` | kernel/alloc/buddy.c:220-228 | Lists the left boundary block, and counts its size, exactly when its pair's bit is set. |
| `BuddyAllocator.Allocator.InitFreePairRight` | kernel/alloc/buddy.c:205-216 | Lists the buddy of the right boundary block, and counts its size, exactly when its pair's bit is set. |
| `BuddyAllocator.Allocator.InitFree` | kernel/alloc/buddy.c:233-245 | The lists hold exactly the maximal free blocks and the returned sum is the usable bytes less the metadata. |
| `BuddyAllocator.Allocator.FindLevel` | kernel/alloc/buddy.c:100-106 | The first level from the wanted one on whose list is not empty, if any. |
| `BuddyAllocator.Allocator.SplitDown` | kernel/alloc/buddy.c:113-122 | Splits a taken block down to the wanted level at the same address, without touching memory of live blocks. |
| `BuddyAllocator.Allocator.Malloc` | kernel/alloc/buddy.c:94-126 | Fails exactly when no aligned block of the request's level is wholly free, changing nothing; else returns the address of such a block, which becomes live; no byte of a live block is written. |
| `BuddyAllocator.Allocator.Size` | kernel/alloc/buddy.c:129-136 | For a live block the level it was allocated at, though only split bits are stored; always below the top, so the scan stays in the table. |
| `BuddyAllocator.Allocator.SizeBit` | kernel/alloc/buddy.c:129-136 | Going up from a live block's address the first set split bit is the one of its parent. |
| `BuddyAllocator.Allocator.MergeOnce` | kernel/alloc/buddy.c:145-163 | One round of coalescing: either stops at a block that is maximal without its buddy, or goes on with the parent. |
| `BuddyAllocator.Allocator.Free` | kernel/alloc/buddy.c:140-166 | The block is no longer live and lists, pair bits and split bits are those of the remaining live blocks; memory of live blocks is not written. |
| `BuddyAllocator.Allocator.UserWrite` | kernel/alloc/buddy.c:94-166 | Whatever the holder of a live block writes into it, the allocator stays valid: no list node or head is inside. |
| `BuddyTheorems.EveryByteOnce` | kernel/alloc/buddy.c:94-166 | Every byte of the heap is in exactly one of: a free-list block, a live block, a reserved leaf. |
| `BuddyTheorems.PairBitMeaning` | kernel/alloc/buddy.c:94-166 | A pair's bit is set exactly when one of the two buddies is on that level's list, and never both are. |
| `BuddyTheorems.AvailBytes` | kernel/alloc/buddy.c:94-126 | A block is available exactly when none of its bytes is in a live or reserved block. |
| `BuddyTheorems.MallocThenFree` | kernel/alloc/buddy.c:94-166 | Freeing what was just allocated restores every free list, every pair bit below the top and every split bit. |
| `BuddyTheorems.FreeInAnyOrder` | kernel/alloc/buddy.c:140-166 | Freeing all live blocks, in any order, ends with lists, pair bits and split bits as they were after initialisation. |
| `DiskBlocks.HeadRest` | kernel/log.c:96-106 | Behind the entries the header block is as it was. |
| `DiskBlocks.HeadRoundTrip` | kernel/log.c:82-106 | The header block read back is the list of block numbers written, whatever the block held before. |
| `LogRecovery.RecoverAt` | kernel/log.c:66-113 | After recovery a home block listed in the header holds its log block, any other home block what it held. |
| `LogRecovery.RecoverEmpties` | kernel/log.c:108-113 | Recovery leaves an empty header and a disk that can be recovered again. |
| `LogRecovery.RecoveryCrash` | kernel/log.c:108-113 | A crash after any number of recovery's writes changes nothing about what a later recovery yields. |
| `LogRecovery.CommitCrash` | kernel/log.c:177-185 | A crash after any number of a commit's writes recovers to the old home blocks up to the header write and to the new ones from it on. |
| `LogHistory.StepIdeal` | kernel/log.c:108-185 | A commit, cut anywhere or not, with any number of interrupted recoveries and a final one, acts on home blocks as the whole transaction or not at all. |
| `LogHistory.CrashAtomicity` | kernel/log.c:66-185 | For every history of commits, crashes and interrupted recoveries, home blocks are the effect of exactly those transactions whose header write reached the disk, in order. |
| `BufferCache.Cache.constructor` | kernel/file/bio.c:35-50 | An empty cache: all buffers in the ring, none holding a block of the device, view equal to the disk. |
| `BufferCache.Cache.FindUnused` | kernel/file/bio.c:71-81 | The least recently used buffer with no references, if there is one. |
| `BufferCache.Cache.Bget` | kernel/file/bio.c:55-84 | Returns the one buffer of the block with a reference more, or recycles the least recently used of the unreferenced ones, marked not valid; fails exactly when the block is not cached and all buffers are referenced; still one buffer per block. |
| `BufferCache.Cache.Bread` | kernel/file/bio.c:87-96 | A referenced, valid buffer whose data is the current contents of the block, logged or not; only that buffer changes. |
| `BufferCache.Cache.Bwrite` | kernel/file/bio.c:99-103 | The block's current contents become its contents on disk, by one block write. |
| `BufferCache.Cache.Brelse` | kernel/file/bio.c:107-126 | One reference less; a buffer without references moves to the front of the ring and the others keep their order, else the ring stays. |
| `BufferCache.Cache.Bpin` | kernel/file/bio.c:128-132 | One reference more, so the buffer cannot be recycled. |
| `BufferCache.Cache.Bunpin` | kernel/file/bio.c:134-138 | One reference less; only a buffer whose contents are on disk may lose its last one. |
| `BufferCache.Recycled` | kernel/file/bio.c:68-83 | Recycling an unreferenced buffer for an uncached block loses no data: such a block's contents are on disk. |
| `RedoLog.WriteHead` | kernel/log.c:96-106 | One write, of a header that lists the given blocks; or, exactly when bget finds no buffer for it, a panic and nothing changed. |
| `RedoLog.WriteLog` | kernel/log.c:164-175 | The log blocks get the latest modified contents of the listed blocks, in order, never a stale disk copy, one write each; or, exactly when every buffer is referenced, it panics before the first write. |
| `RedoLog.InstallTrans` | kernel/log.c:66-79 | Each listed block gets its log block's contents, one write each, and is unpinned exactly when not recovering. |
| `RedoLog.CommitBlocks` | kernel/log.c:177-185 | The writes that reach the disk are those of the commit protocol in its order, with the contents the listed blocks have in the cache; it panics exactly when every buffer is referenced, and then nothing has changed. |
| `RedoLog.RecoverFromLog` | kernel/log.c:108-113 | The writes are those of the recovery protocol and cache and disk end up equal to the recovered disk. |
| `RedoLog.Log.constructor` | kernel/log.c:54-63 | After recovery: an empty log and nothing outstanding. |
| `RedoLog.Log.BeginOp` | kernel/log.c:116-130 | Admits an operation exactly when no commit runs and a full quota for it still fits; otherwise someone is there to wake it; the reservation invariant is kept. |
| `RedoLog.Log.Read` | kernel/file/bio.c:87-96 | For an operation or a reader outside: a held buffer with the current contents of the block, or bget's panic; every reference is still a holder's or the pin of a listed block. |
| `RedoLog.Log.Release` | kernel/file/bio.c:107-126 | One holder less; a listed block stays pinned, and no change that was logged is lost. |
| `RedoLog.Log.LogWrite` | kernel/log.c:196-215 | Panics exactly on its three checks, the last one also with no operation outstanding; else the block is listed once, pinned on first listing, and charged to its operation; listed blocks plus unused quotas stay within LOGSIZE. |
| `RedoLog.Log.EndOp` | kernel/log.c:134-150 | The operation leaves; the last one out starts a commit, and no operation is outstanding while one runs. |
| `RedoLog.Log.Commit` | kernel/log.c:152-160 | Uninterrupted: panics exactly when blocks are listed and every buffer is referenced, before any write. Else disk and view agree, home blocks read as before the commit, the log is empty; and at every point of its writes a crash recovers to all of the transaction or none of it. |
| `RedoLog.Log.CommitStep` | kernel/log.c:152-185 | The next block write of commit, whatever readers have done since the last one: log blocks, header, home blocks, header, each with the contents the cache holds; a home block is unpinned as it is installed; panics exactly when every buffer is referenced. |
| `RedoLog.CommitOutcome` | kernel/log.c:177-185 | If only listed blocks differ between cache and disk, the commit's writes make disk and cache agree on the cache's contents, crash-safely. |
| `LogAdmission.SpareForCommit` | kernel/log.c:177-185 | With only the log's pins, a log with fewer blocks listed than there are buffers leaves one that commit can use. |
| `LogAdmission.ReachesReserved` | kernel/log.c:116-215 | In every run of begin_op, log_write, of new and of listed blocks, end_op and commits, listed blocks plus what the outstanding operations may still add stay within LOGSIZE, and below the size of the log. |
| `LogAdmission.WritePanics` | kernel/log.c:196-204 | In every such run, a write within its quota meets the size check exactly when the log on disk is full, or the header is full and the block is one that is listed already and needs no room. |
| `LogAdmission.PanicReachable` | kernel/log.c:196-204 | Whatever the size of the log, operations that keep their quotas can run into the size check: up to LOGSIZE blocks with a new block, above with one that is listed already. |
| `LogAdmission.NewBlockPanics` | kernel/log.c:196-215 | They can do so with a block that is new to the log if and only if the log has at most LOGSIZE blocks. |
| `LogAdmission.FullLoad` | kernel/log.c:116-204 | The run of three operations that fills a log of any size up to its check. |
| `LogCalls.CommitDurable` | kernel/log.c:134-185 | One more commit behind a run of any length: a crash after any block write of the run recovers the store of the last commit whose header had been written. |
| `LogCalls.CommitRests` | kernel/log.c:177-185 | The block writes of a commit, in whatever run they come, lead from one recoverable disk with an empty log to the next, which holds the plain store. |
| `LogCalls.RunDurable` | kernel/log.c:116-215 | For every sequence of begin_op, bread, change, log_write, brelse, end_op and single block writes of a commit, by any number of operations and readers: a crash after any block write since boot recovers the plain store as it was at the last commit whose header had been written. |
| `LogPanics.CommitPanics` | kernel/file/bio.c:55-84 | In every run, while a commit is running, only readers outside hold blocks, and its next write panics exactly if the pinned blocks and the other blocks they hold are as many as the buffers. |
| `LogPanics.ScriptPanics` | kernel/log.c:134-185 | A run that gets there for every number of listed blocks: three operations list them, readers take the other buffers, and the last end_op's commit panics. |
| `LogPanics.OneReader` | kernel/log.c:134-185 | With the log that mkfs makes, 29 listed blocks and one reader are such a run. |
| `LogPanics.PanicWithoutReaders` | kernel/log.c:134-185 | Without readers outside, on a disk with NBUF home blocks in a row, a run into commit's panic exists if and only if the log has more than LOGSIZE blocks. |
| `LogPanics.PanicWithReaders` | kernel/log.c:134-185 | With readers outside, on such a disk, one exists if and only if the log has room for a block. |
| `LogRuns.BuffersInUse` | kernel/file/bio.c:55-138 | The referenced buffers are exactly those of the blocks that are held or pinned. |
| `LogRuns.Callers.constructor` | kernel/log.c:54-63 | Boot on any disk that recovery can start from: the machine has recovered it, with the same block writes. |
| `LogRuns.Callers.Left` | kernel/file/bio.c:55-84 | Whether bget finds a buffer for a block, in terms of how many blocks are held or pinned. |
| `LogRuns.Callers.DoBegin` | kernel/log.c:116-130 | begin_op opens an operation exactly when the machine does. |
| `LogRuns.Callers.DoRead` | kernel/file/bio.c:87-96 | bread gives the contents of the plain store, panics exactly when the block is not in use and the blocks in use fill the buffers, and changes nothing else. |
| `LogRuns.Callers.DoRelease` | kernel/file/bio.c:107-126 | brelse drops exactly that hold, and is refused exactly for a changed block. |
| `LogRuns.Callers.DoChange` | kernel/log.c:187-195 | Changing a held block changes that block of the plain store alone. |
| `LogRuns.Callers.DoLogWrite` | kernel/log.c:196-215 | log_write lists the block once and charges its operation, or panics, exactly as the machine does. |
| `LogRuns.Callers.DoEnd` | kernel/log.c:134-150 | end_op closes the operation, and the last one starts the commit. |
| `LogRuns.Callers.DoCommit` | kernel/log.c:152-185 | Each block write of a commit is the machine's, block number and contents, with readers outside coming in between. |
| `LogRuns.Callers.Step` | kernel/log.c:116-215 | Whatever the call, callers, log and cache go from the machine's state to its next one: operations, quotas, holds, listed blocks, stage of the commit, what was read, every block write, every panic. |
| `LogRuns.Run` | kernel/log.c:116-215 | Every run from every disk that recovery can start from is the machine's: it panics where the machine does, reads return what the plain store holds, the disk is what the machine's writes make of it, and after a crash at any of them recovery brings back the plain store of the last commit whose header had been written. |
| `FsBytes.WordPut` | kernel/file/fs.c:375-383 | A word written into a block is read back, and other words of the block are not disturbed. |
| `FsBytes.BitSet` | kernel/file/fs.c:68-70 | Or-ing in one bit sets that bit and keeps the others. |
| `FsBytes.BitClear` | kernel/file/fs.c:88-92 | Masking out one bit clears that bit and keeps the others. |
| `FsBitmap.UsedAfter` | kernel/file/fs.c:60-96 | Marking a block used or free changes the answer for that block and for no other, wherever the two bits lie. |
| `FsBitmap.BitAt` | kernel/file/fs.h:51-55 | Every bit of every byte of the bitmap is that of one block, and of which. |
| `FsTable.PackRoundTrip` | kernel/file/fs.h:36-49 | An inode, with type, device numbers, link count, size and block numbers, packed into its place of a block of the table is unpacked as it was. |
| `FsTable.DinodeBytes` | kernel/file/fs.h:36-46 | The 64 bytes of a packed inode: four fields of two bytes, then size and block numbers of four, least significant byte first, in the order of struct dinode. |
| `FsTable.InodeWritten` | kernel/file/fs.h:36-49 | Writing one inode: all its fields read back, every other inode of the table reads as before, and every byte of its block but its own 64 is kept. |
| `FsInodes.Allocate` | kernel/file/fs.c:60-81 | A block that the bitmap calls free is a data block no inode owns; marking and zeroing it moves no block number of any inode. |
| `FsInodes.AssignDirect` | kernel/file/fs.c:359-378 | A new block in an empty place of an inode: still one owner per block; for the indirect block this needs that it was zeroed. |
| `FsInodes.AssignIndirect` | kernel/file/fs.c:379-387 | The same for a place in the indirect block, without disturbing other inodes' places. |
| `FsInodes.Truncate` | kernel/file/fs.c:396-422 | Clearing exactly the bits of an inode's blocks and emptying it leaves every other inode's blocks owned and marked. |
| `FileSystem.EmptyImage` | mkfs/mkfs.c:229-241 | A disk that satisfies the ownership invariant: the blocks before the data in use, all others free, and a table of empty inodes. |
| `FileSystem.BitmapCount` | kernel/file/fs.h:51-55 | Which blocks are those of the bitmap, and that each of them has the bit of some block. |
| `FileSystem.FileSystem.Balloc` | kernel/file/fs.c:60-81 | The lowest free block, marked and zeroed, or 0 exactly when every block is in use; logs the bitmap block and the block. |
| `FileSystem.FileSystem.Bfree` | kernel/file/fs.c:84-96 | Afterwards the block is free, every other block is used or free as it was, nothing outside the bitmap has changed, and the bitmap block is logged; the block must be in use. |
| `FileSystem.FileSystem.Iupdate` | kernel/file/fs.c:212-226 | The inode read from its bytes in the table is the one in memory; every other inode, every other byte of the block and every other block are as they were; the block is logged. |
| `FileSystem.FileSystem.Save` | kernel/file/fs.c:212-226 | After iupdate the table on disk agrees with every inode in memory, and ownership, bitmap and the contents of all files are as before. |
| `FileSystem.FileSystem.Bmap` | kernel/file/fs.c:355-392 | The number of the file's block, the old one if there was one; on a full disk 0 with ownership intact; no block that any file had moves or changes; every block written is logged. |
| `FileSystem.FileSystem.Itrunc` | kernel/file/fs.c:396-422 | The file is empty, exactly its blocks are free again, no block is freed twice, all other files hold what they held, the table on disk is up to date, every block written is logged, and it logs the inode's block and blocks of the bitmap alone: within MAXOPBLOCKS on every disk with fewer bitmap blocks, as iput relies on. |
| `FsContents.GrowsContent` | kernel/file/fs.c:355-392 | Adding blocks to one file changes what no file reads. |
| `FsContents.EveryPlace` | kernel/file/fs.h:10-42 | The largest file uses every block number of an inode and every word of an indirect block, to the last byte of the last block. |
| `FsContents.WriteBlock` | kernel/file/fs.c:481-491 | Writing into the block behind a file offset changes those bytes of that file and no byte of any other. |
| `FsContents.ReadBlock` | kernel/file/fs.c:447-459 | A piece of the block behind an offset is that piece of the file, for direct and indirect blocks. |
| `FsContents.ProgressDone` | kernel/file/fs.c:493-494 | When writing stops, the file is the old one with the bytes written put over it, longer if they go past its end. |
| `FileIo.Readi` | kernel/file/fs.c:438-462 | Exactly the bytes of the file from the offset on, as many as asked or as there are; 0 past the end or on overflow; -1 when the user's memory ends first, with the bytes up to the block in which it ends copied; nothing changes. |
| `FileIo.Writei` | kernel/file/fs.c:470-502 | -1 and nothing changed exactly when the offset is past the end or the file would grow too long; else the file is overwritten and extended by exactly the returned count, which is short only at the beginning of a block: one that the file does not have and a full disk cannot give, or else the first that goes past the user's memory. From a readable source all is written exactly when the disk has as many free blocks as the range is missing, and always when it is missing none; other files unchanged; every block written, and the inode's, is logged. |
| `FsSpace.FreeAllocated` | kernel/file/fs.c:60-82 | balloc takes exactly one of the free blocks that the bitmap shows. |
| `FsSpace.NeededNone` | kernel/file/fs.c:355-391 | A range of a file's blocks needs none, the indirect block counted, exactly when it has them all. |
| `FsSpace.SurplusKept` | kernel/file/fs.c:355-391 | What bmap takes from the disk, also when it gets the indirect block and no data block, is what the file no longer needs. |
| `FsSpace.WriteExact` | kernel/file/fs.c:479-491 | A write from a readable source is complete exactly when the free blocks before it are at least those it needs; inside blocks that the file has it is never short. |
| `FsSpace.PartsExact` | kernel/file/file.c:178-198 | The same for a write made in parts, each of which begins where the one before it ended. |
| `FileIo.CountAll` | kernel/file/fs.c:470-502 | A write logs at most two blocks for each block it touches, one less if it starts inside a block, and three more. |
| `FileIo.ChunkFits` | kernel/file/file.c:171-177 | A chunk of filewrite logs at most MAXOPBLOCKS blocks wherever it starts. |
| `FileIo.WriteChunk` | kernel/file/file.c:181-192 | One transaction: the file gains the bytes written so far, every block that changed is among those it logged, and those are at most MAXOPBLOCKS; it ends short only where writei does. |
| `FileSystem.HistoryCovers` | kernel/file/file.c:181-192 | After a history of transactions every block that differs is in the log of one of them. |
| `FileIo.FileWrite` | kernel/file/file.c:170-202 | One transaction for each chunk begun, from one consistent file system to the next, each within MAXOPBLOCKS distinct blocks, every changed block among those logged; after k of them the file holds its first k chunks; in the end exactly the bytes by which the offset moved; all of them or -1. For a range that a file may have, all exactly when the source can be read and the disk has the blocks that the whole range is missing; else it ends in the last chunk begun, where writei does. |
| `FileIo.WriteThenRead` | kernel/file/fs.c:438-502 | Reading back what a write reported written gives those bytes, also when the disk filled up on the way, which it did exactly if it had fewer free blocks than the write needed. |
| `FileCrash.TransactionCrash` | kernel/log.c:164-185 | Any transaction, also a group of up to LOGSIZE blocks, from one consistent file system to another whose changed blocks are all logged is atomic for the files as read from the disk: after a crash at any block write of its commit, recovery leaves the old files or the new ones, the new ones exactly from the header write on. |
| `FileCrash.ChunkCrash` | kernel/file/file.c:181-192 | The same for a chunk of filewrite: the files without the chunk, or with exactly what writei wrote of it. |
| `LogTransactions.ScriptRuns` | kernel/log.c:187-215 | An operation on its own that reads, changes, logs and releases blocks within its quota, ends and commits: the plain store has these blocks, and this store is what the commit has made durable. |
| `FileRuns.HistoryRuns` | kernel/file/file.c:181-192 | Every history of transactions of the file system is a run of the log whose plain store is, at each commit and in the end, the file system's blocks. |
| `FileRuns.HistoryCrash` | kernel/file/file.c:181-192 | A crash after any block write of such a run leaves, once recovered, the files of the last transaction whose header had been written. |
| `FileRuns.WriteCrash` | kernel/file/file.c:170-202 | A crash at any block write of a whole filewrite leaves the file with a whole number of its chunks, of the last one as much as was written, and the other files as they were. |
| `FileRuns.TruncateCrash` | kernel/file/fs.c:396-422 | A crash at any block write of itrunc's transaction leaves the file whole or empty, and the other files as they were. |
| `PageTables.AddTable` | kernel/memory/vm.c:86-97 | A zeroed page hung below a table of the tree maps nothing and keeps the tree a tree. |
| `PageTables.SetEntry` | kernel/memory/vm.c:134-182 | Writing one level-0 entry changes one entry of the flat map from pages to entries. |
| `Sv39.HardwareEntry` | kernel/memory/vm.c:70-99 | The hardware's walk by the bits of an address, from the root, comes to exactly the entry of the flat map, for every address below MAXVA. |
| `AddressSpaces.Machine.Walk` | kernel/memory/vm.c:83-99 | Finds the level-0 entry of a page, which is the flat map's, making missing tables only if asked; it takes exactly as many pages as tables are missing and fails exactly when there are fewer, with the map unchanged; every page that left the pool is a table. |
| `AddressSpaces.CostNext` | kernel/memory/vm.c:83-99 | What a run of new pages costs, one page each and one for each table that is not there, grows by one page more exactly by the page and the tables that are missing for it then. |
| `AddressSpaces.Machine.WalkAddr` | kernel/memory/vm.c:104-120 | The physical address of a page that user code may use, and 0 for every other address; for a process these are exactly the pages of its size (`SpaceRuns.UserReach`). |
| `AddressSpaces.Machine.MapPages` | kernel/memory/vm.c:134-157 | Exactly the pages that the range touches get consecutive leaf entries; when memory runs out, exactly a prefix of them; it panics on size 0 and exactly at the first page that is mapped already or beyond the address space. |
| `AddressSpaces.Machine.UvmUnmap` | kernel/memory/vm.c:162-182 | Exactly the run of entries is cleared, and exactly their pages go back to the pool when asked; other allocated pages keep their contents. It panics exactly on an unaligned address or when some page of the run is not mapped, with the run before that page done. |
| `FreeTables.FreeWalk` | kernel/memory/vm.c:254-268 | Every table page at or below the root goes back to the pool, none twice, and no other page is touched. |
| `UserMemory.UvmAlloc` | kernel/memory/vm.c:211-234 | On success exactly the new pages are mapped, to different zeroed pages out of the pool, which pays exactly their cost in pages and tables; on failure the mapping is the old one, all but new table pages are back, and the pool had less than that cost; it panics only if a page of the run is mapped already or beyond the address space, and then it never succeeds. |
| `UserMemory.UvmDealloc` | kernel/memory/vm.c:240-250 | Exactly the pages between the two sizes are unmapped and back in the pool; a larger new size changes nothing; it panics exactly when one of the pages is not mapped. |
| `SpaceGrowth.GrewTrans` | kernel/memory/vm.c:211-234 | Growing by two runs one after the other is growing by one. |
| `SpaceGrowth.TakenBack` | kernel/memory/vm.c:220-229 | Undoing a partial growth leaves the entries there were before, with only new table pages out of the pool. |
| `ForkMemory.UvmCopy` | kernel/memory/vm.c:284-310 | The child maps different pages with the parent's flags and contents, for exactly their cost in pages and tables, or what it mapped before, and then the pool had less; it panics only if the parent misses a page, and then it never succeeds; the parent's table, pages and contents are untouched either way. |
| `ForkMemory.Isolated` | kernel/memory/vm.c:284-310 | A space that grows leaves another's tables, entries and page contents as they were. |
| `ProcSpaces.UvmCreate` | kernel/memory/vm.c:186-193 | A table that maps nothing, from one page, or none when the pool is empty. |
| `ProcSpaces.UvmFree` | kernel/memory/vm.c:272-276 | All user pages and all table pages are back in the pool, each once; nothing else changes. |
| `ProcSpaces.ProcPagetable` | kernel/process/proc.c:160-191 | A space with the two kernel pages and no others, or nothing at all and every page given back. |
| `ProcSpaces.LeafUser` | kernel/hardware/riscv.h:266-270 | An entry is one for user code exactly when mappages was given PTE_U. |
| `ProcSpaces.ProcFreePagetable` | kernel/process/proc.c:195-199 | The pool gets back exactly the tables and user pages of the space, not the two kernel pages. |
| `ProcSpaces.GrowProc` | kernel/process/proc.c:236-250 | The new size and a space of exactly that many pages, the new ones zeroed, or the old space; it fails exactly with less than the cost of the pages and tables; shrinking below 0 leaves the size; pages and contents below both sizes and the two kernel pages stay; pool plus space is conserved. Growing into the trapframe never succeeds, and only that can panic. |
| `ProcSpaces.SpacePresent` | kernel/memory/vm.c:240-250 | Exactly which runs of pages a process has mapped, and so for which sizes uvmdealloc panics. |
| `ProcSpaces.DeallocPanics` | kernel/memory/vm.c:236-250 | For every process that could still grow, an old size one byte beyond its last page makes uvmdealloc panic. |
| `SpaceLife.SpacesIsolated` | kernel/process/proc.c:236-250 | Processes that share no page still share none after one of them grows or shrinks, and the other's tables, pages and contents are as they were. |
| `SpaceLife.ForkSpace` | kernel/process/proc.c:254-267 | The child is a space of its own with a copy of the parent's memory, or everything is given back; the parent's space is untouched. |
| `SpaceLife.WholeLife` | kernel/process/proc.c:138-250 | A process that is made, grows and shrinks any number of times and is freed leaves the pool, and every page that was allocated before, as it found them; it panics only if it asks for more than the address space. |
| `SpaceLife.ForkThenExit` | kernel/process/proc.c:141-267 | A fork and the child's end, whether or not memory ran out on the way, leave the pool and the parent's memory as they were. |
| `SpaceRuns.OtherLives` | kernel/process/proc.c:236-267 | Whatever one process does with its own pages and the pool, another keeps its tables, pages, flags and contents. |
| `SpaceRuns.ResizedImages` | kernel/process/proc.c:236-250 | After growproc a process sees its old pages up to the new size and new zeroed ones behind them. |
| `SpaceRuns.ImagesCopied` | kernel/memory/vm.c:284-310 | A child sees what its parent sees, page by page, flags and contents. |
| `SpaceRuns.Procs.Step` | kernel/process/proc.c:97-267 | Making, forking, growing, shrinking, storing, copying out and in and exiting do to the processes over one pool what they do to processes with memories of their own; a copy answers by what of its range lies in the memory, and the others fail only with fewer free pages than the act may need. |
| `SpaceRuns.Run` | kernel/process/proc.c:97-267 | Over every sequence of these by any number of processes: each process has at every moment exactly the memory it would have on its own and its trapframe in its place; the pool and the disjoint pages of all processes are together the pages of the start; no other page changes. |
| `SpaceRuns.PokedByte` | kernel/memory/vm.c:326-344 | In a memory of its own, copyout changes exactly the bytes of its range. |
| `SpaceRuns.LivesReach` | kernel/memory/vm.c:104-120 | User code of a process reaches exactly the pages of its size: not what lies behind them, nor the trapframe or the trampoline. |
| `SpaceRuns.FitExact` | kernel/memory/vm.c:326-367 | The part of a range that a copy gets through is the part that lies in the memory. |
| `SpaceRuns.UserReach` | kernel/memory/vm.c:104-120 | At every moment of every run, for every process: a page is reachable exactly when it is one of its size, and a range exactly when it ends there or before, so copyout and copyin succeed exactly then. |
| `UserCopy.CopyOut` | kernel/memory/vm.c:326-344 | The bytes are in user memory from the address on, or exactly those before the first page that user code cannot reach; no other byte of user memory, no other word, no other page and no entry changes. |
| `UserCopy.CopyIn` | kernel/memory/vm.c:349-367 | Returns the bytes of user memory from the address on, all of them exactly when user code can reach them all. |
| `UserCopy.OutAndIn` | kernel/memory/vm.c:326-367 | Bytes copied out are read back unchanged, across any number of pages, exactly when the whole range is reachable. |
| `UserCopy.CopiedBytes` | kernel/memory/vm.c:337-337 | Bytes moved into a page are where they belong and its other bytes are kept. |
| `UserCopy.PatchedByte` | kernel/memory/vm.c:337-337 | The bytes of a range that lie in a page are in it, and its other bytes are kept. |
| `ProcInvariant.StepKeeps` | kernel/process/proc.c:82-564 | Every step of allocating, forking, exiting, reparenting, waiting, sleeping, waking, scheduling and killing, of free slots too, keeps the invariant on slots, locks, parents, pids and wakeups. What the steps do, and when, is in `ProcLife`, `ProcWait`, `ProcKill` and `ProcProgress`. |
| `ProcInvariant.RunKeeps` | kernel/process/proc.c:82-564 | The invariant holds after every interleaving of steps. |
| `ProcInvariant.ForkKeeps` | kernel/process/proc.c:254-299 | Fork's steps, with the locks dropped in between, keep the new slot its own until it is runnable. |
| `ProcInvariant.ExitKeeps` | kernel/process/proc.c:303-355 | Exit's steps hand every child to init and wake init and the parent before the process is a zombie. |
| `ProcInvariant.WaitKeeps` | kernel/process/proc.c:359-405 | Wait's steps keep the invariant: the scan has passed no zombie child, only zombies are reaped, and nobody dozes but after a full scan. |
| `ProcInvariant.SleepKeeps` | kernel/process/proc.c:501-526 | The window in sleep between releasing wait_lock and being asleep is covered by the process's own lock. |
| `ProcInvariant.NoLostWakeup` | kernel/process/proc.c:303-542 | In every run, whenever wait_lock is free, no process that sleeps in wait or is on its way to has a zombie child. |
| `ProcInvariant.BornKilled` | kernel/process/proc.c:549-564 | A child is born killed exactly when kill(0), which finds a free slot, has found its slot since it became free: allocproc does not clear the mark. |
| `ProcInvariant.KillZero` | kernel/process/proc.c:549-564 | A run from boot in which init's first child can run and is killed, though nobody has killed it. |
| `ProcLife.StateTurns` | kernel/process/proc.c:97-564 | In every run, exactly which steps make a slot free, taken, asleep, ready, running or a zombie. |
| `ProcLife.OthersPc` | kernel/process/proc.c:303-564 | Nobody moves another process on in its call, except that wait frees a zombie. |
| `ProcLife.ReapsOne` | kernel/process/proc.c:377-391 | A wait that returns a child frees that slot, and changes no other but where the caller stands. |
| `ProcLife.NoSlotLeaks` | kernel/process/proc.c:97-138 | In every run, a slot that is taken and not yet ready is the one that exactly one process is forking into. |
| `ProcLife.PidZero` | kernel/process/proc.c:141-156 | In every run, the free slots and no others have pid 0, so that kill(0) finds one of them. |
| `ProcLife.RunParent` | kernel/process/proc.c:286-312 | Over every run, the parent of a process is the one that forked it as long as that one has not handed its children on, and init once it has died. |
| `ProcWait.RunScans` | kernel/process/proc.c:367-396 | In every run, havekids is set exactly when the scan has passed a child of the caller. |
| `ProcWait.WaitDecides` | kernel/process/proc.c:397-404 | In every run, a full scan without a zombie ends the call exactly when the caller is killed or has no child in the table; otherwise the caller is on its way to sleep and holds wait_lock. |
| `ProcWait.WaitEnds` | kernel/process/proc.c:359-405 | In every run, a call of wait goes on through sleep and wakeup until the scan comes to a zombie child, or ends killed or childless; nothing else ends it. |
| `ProcWait.WaitReaps` | kernel/process/proc.c:377-391 | wait returns -1 with nothing changed, or the pid of a zombie child of the caller, with exactly its slot freed; nobody has that pid any more. |
| `ProcWait.RetiredForever` | kernel/process/proc.c:82-90 | A pid that wait has returned is never in use again. |
| `ProcKill.StepMarks` | kernel/process/proc.c:547-570 | kill marks a slot, freeing it unmarks it, and nothing else does either. |
| `ProcKill.KilledSince` | kernel/process/proc.c:547-570 | In every run from boot, a slot is marked exactly when a kill has found it since it was last freed. |
| `ProcKill.KilledInLife` | kernel/process/proc.c:547-570 | A process is killed exactly when it was born killed or a kill has come in its life. |
| `ProcKill.KillWakes` | kernel/process/proc.c:547-564 | In every run, right after kill its process is marked and not asleep, with nothing else about it changed, and nothing about any other; it is still on its way to sleep in wait exactly when it stood between its look at the mark and its lock. |
| `ProcKill.KilledLeaves` | kernel/process/proc.c:397-400 | Over every run, a process killed before its scan ends, or asleep, does not sleep in that call of wait again, and returns within as many own steps as there are slots, and two. |
| `ProcKill.KillTooLate` | kernel/process/proc.c:397-404 | From every state in which a process is past its look at the mark, a kill can leave it asleep in wait, marked, with wait_lock free. |
| `ProcKill.KillMissed` | kernel/process/proc.c:397-404 | A run from boot that ends so. |
| `ProcProgress.HolderSteps` | kernel/process/proc.c:317-526 | Whoever holds the lock of a process can take the next step, which brings its release nearer. |
| `ProcProgress.OnwardEnabled` | kernel/process/proc.c:303-405 | The holder of wait_lock can go on exactly when the lock that it needs next is free. |
| `ProcProgress.WaitLockFrees` | kernel/process/proc.c:303-526 | No deadlock: from every state of every run, a held wait_lock can be freed by its holder and those it waits for. |
| `ProcProgress.EveryoneMoves` | kernel/process/proc.c:254-526 | Every process in use has a step of its own to take, unless it sleeps in wait, is a zombie or being forked, or waits for wait_lock. |
| `ProcProgress.CallsMay` | kernel/process/proc.c:97-405 | A process in user space can fork into every free slot, wait exactly when wait_lock is free, and exit exactly then if it is not init. |
| `ProcFamily.FamilyTree` | kernel/process/proc.c:82-405 | In every reachable state pids of used slots are unique, a parent is alive with a smaller pid, and no two processes are each other's ancestors. |
| `ProcFamily.PidsShrink` | kernel/process/proc.c:286-312 | Going up from parent to parent the pids fall. |
| `ProcFamily.ProcIsChild` | kernel/process/proc.c:695-704 | Ends, and answers whether the second process is the first or one of its ancestors, when nothing else happens. |
| `ProcWalk.StepEffect` | kernel/process/proc.c:303-355 | While the lock of the target is held, no process that has to wake the whole table can die: it keeps its pid, and its parent or init. |
| `ProcWalk.WalkAnswer` | kernel/process/proc.c:695-729 | In every interleaving with the other processes, with only the lock of the target held: a yes of proc_is_child is right at its first look, a no at its last. |
| `UserHeapBlocks.CycleOrder` | user/umalloc.c:24-42 | Following the links from the base meets all free headers in the order of their addresses and then the base again. |
| `UserHeapBlocks.EveryUnitOnce` | user/umalloc.c:24-84 | Every unit of the heap is in exactly one block, free or live, and every unit of a block is the heap's. |
| `UserHeapBlocks.UnitsConserved` | user/umalloc.c:24-84 | The sizes of the free blocks and of the live blocks add up to the number of units the heap has got. |
| `UserHeapBlocks.LayoutMerge` | user/umalloc.c:30-37 | Merging a free block with the one that begins where it ends keeps the partition and leaves a gap behind it. |
| `UserHeapBlocks.LayoutSplit` | user/umalloc.c:70-74 | Cutting the end off a free block keeps the partition and the gaps. |
| `UserHeap.UserHeap.FindPlace` | user/umalloc.c:27-30 | The search ends, at the free header with the block's address between its own and the next one's. |
| `UserHeap.UserHeap.Free` | user/umalloc.c:24-42 | The block is free, merged with the free blocks on both sides that it touches: the list is still one cycle by address and no two free blocks touch; live blocks keep their units. |
| `UserHeap.UserHeap.Morecore` | user/umalloc.c:44-57 | A free block at least as large as asked for is there, and the heap has exactly the granted units more, at least 4096 of them, none of which it had; or nothing changed because sbrk failed. |
| `UserHeap.UserHeap.Malloc` | user/umalloc.c:59-84 | A new live block of exactly the units needed, of units that no live block had, or nothing because no free block is large enough and sbrk failed; sbrk is asked at most once, only when no free block fits, and the heap has the units it had and exactly those of the grant. |
| `UserHeap.UserHeap.Conserved` | user/umalloc.c:24-84 | In every state free and live units make up the units got from sbrk: none is lost and none invented. |
| `UserHeap.FreedOk` | user/umalloc.c:24-42 | In all four cases of touching neighbours what free leaves is again a cycle and a partition. |
| `VirtioRings.Balance` | kernel/hardware/virtio_disk.c:154-203 | Free descriptors and three for each request in flight make NUM. |
| `VirtioRings.RingRoom` | kernel/hardware/virtio_disk.c:259-265 | A ring never holds more entries than there are requests, and those are at most NUM / 3: no waiting entry is overwritten. |
| `VirtioRings.WrapIndex` | kernel/hardware/virtio_disk.c:259-265 | 16-bit indices name the same ring places as the full counts and go on counting through the wrap. |
| `VirtioDisk.Disk.AllocDesc` | kernel/hardware/virtio_disk.c:154-162 | The first free descriptor, or -1 exactly when there is none. |
| `VirtioDisk.Disk.Alloc3Desc` | kernel/hardware/virtio_disk.c:193-203 | Three different free descriptors taken, or none taken and fewer than three free. |
| `VirtioDisk.Disk.Submit` | kernel/hardware/virtio_disk.c:205-269 | A chain of three descriptors that says what was asked, with lengths and directions, is the last entry of the avail ring under a new number; or, exactly when fewer than three descriptors are free, nothing. |
| `VirtioDisk.SectorBytes` | kernel/hardware/virtio_disk.c:206-206 | The sector asked for begins at the bytes of the block, modulo 2^31, and at those of the block itself exactly below 2^31. |
| `VirtioDisk.SectorsApart` | kernel/hardware/virtio_disk.c:206-206 | Requests for two blocks move a common byte of the disk exactly when the block numbers are equal modulo 2^31. |
| `VirtioDisk.HomeApart` | kernel/hardware/virtio_disk.c:206-206 | Two block numbers are the same block of the disk exactly when they are equal or 2^31 apart. |
| `VirtioDisk.KeptBlock` | kernel/hardware/virtio_disk.c:222-253 | A block written to the bytes of the disk is read back, and no other block changes. |
| `VirtioDisk.Disk.Finish` | kernel/hardware/virtio_disk.c:222-253 | The device, going only by descriptors and their lengths, moves exactly the bytes of one block between the requested buffer and the requested sectors. |
| `VirtioDisk.Disk.Interrupt` | kernel/hardware/virtio_disk.c:298-310 | Takes the oldest finished request, whose status is 0, and completes it: its number was not completed before. |
| `VirtioDisk.Disk.FreeChain` | kernel/hardware/virtio_disk.c:179-189 | Following the links frees exactly the three descriptors of the chain; the panics of free_desc cannot happen. |
| `VirtioDisk.Disk.Complete` | kernel/hardware/virtio_disk.c:271-280 | The request's descriptors are free again and no other request is disturbed. |
| `VirtioCalls.StoredNext` | kernel/hardware/virtio_disk.c:222-253 | One more transfer behind a sequential history keeps it one in which every read gets what its block holds after the transfers before it. |
| `VirtioCalls.StoredLast` | kernel/hardware/virtio_disk.c:222-253 | What a block holds is what the last write of it put there, or what the disk held at the start. |
| `VirtioCalls.RunServed` | kernel/hardware/virtio_disk.c:205-313 | Over every interleaving of requests, device steps, interrupts and wakeups: each transfer belongs to one accepted request and is its only one; each accepted request is in one place on its way or has exactly one result, with its buffer, block and contents; its transfer comes after the request and before the result; a write puts into its block what the caller's buffer held, a read leaves in the buffer what the block held then. |
| `VirtioCalls.ReadGets` | kernel/hardware/virtio_disk.c:205-313 | A completed read of a block has in its buffer the contents of the last write request of that block carried out before it, or what the disk held for the block at the start, whatever other blocks were written. |
| `VirtioCalls.ResultsApart` | kernel/hardware/virtio_disk.c:271-280 | Different results are different transfers, and a write's buffer comes back as it was. |
| `VirtioRuns.Ask` | kernel/hardware/virtio_disk.c:205-269 | A request is accepted under the next number, or refused exactly because its buffer is in flight or fewer than three descriptors are free. |
| `VirtioRuns.CarryOut` | kernel/hardware/virtio_disk.c:222-253 | The device's transfer of sectors through descriptors is the machine's transfer of that buffer and block, and of no other. |
| `VirtioRuns.GoOn` | kernel/hardware/virtio_disk.c:271-280 | A caller goes on exactly when its request has been acknowledged, and gets its result: its number, what it asked, what is in its buffer, and which transfer that was. |
| `VirtioRuns.Run` | kernel/hardware/virtio_disk.c:154-313 | Every run of callers, driver, device and interrupt handler from boot is the machine's: the same requests accepted and refused, the same results and buffers, the machine's blocks in the bytes of the disk, with each descriptor free or in one chain and no panic. |
| `GrepMatch.MatchHere` | user/grep.c:78-88 | True exactly when the text begins with a string of the pattern's language, ending there for a final `$`. |
| `GrepMatch.MatchStar` | user/grep.c:91-97 | True exactly when after some run of fitting characters the text begins with a string of the rest. |
| `GrepMatch.Match` | user/grep.c:67-75 | True exactly when some suffix of the text, or the text itself for a leading `^`, begins with a string of the pattern's language. |
| `GrepMatch.ParsePrints` | user/grep.c:78-88 | A pattern is read as items that are written like it, with no single character before a star and no `$` as one at the end. |
| `GrepMatch.ParseUnique` | user/grep.c:78-88 | There is only one such sequence of items. |

## Left out

- BuddyAllocator.Allocator.constructor: demands a range above 512 bytes that is not exactly a block. At a
  power of two `bd_mark` and `bd_initfree` look at pair bits past the last block, which the model has no array for.
- BuddyAllocator.Allocator.InitFreePairRight: demands that the buddy is on no list; pushing it a second time, which
  happens only where the check then fails, would tie the list into a knot that the model does not describe.
- BuddyAllocator.Allocator.CountFree: demands that the lookups stay inside the bit arrays, which metadata in the last
  sixteenth of the heap would break.
- BuddyAllocator.Allocator.Malloc: demands at most 2^63 bytes, since `firstk` does not end above that; block
  offsets are unbounded integers, not `int`.
- BufferCache.Cache.Bget: one device, and no sleep locks: a caller has a buffer to itself between `bread` and
  `brelse`. `bget`'s panic is the result `None`.
- RedoLog.Log.Release: demands that a changed block has been logged, which `log_write`'s comment asks of its callers.
- RedoLog.Log.BeginOp: one attempt; sleeping until the next one is the caller's loop. Operations are
  interleaved call by call, and a commit block write by block write.
- FileSystem.EmptyImage: `mkfs` also writes a root directory and files into its image.
- FileRuns.HistoryRuns: a transaction is a run that reads, changes and logs each of its blocks once; the order in
  which `writei` and `itrunc` come to their blocks, and that they come to some of them again, is not followed.
- UserMemory.UvmDealloc: demands that the sizes are fewer than 2^31 pages apart, since the page count is an `int`.
- UserMemory.UvmAlloc: after a panic nothing is said of memory.
- SpaceLife.ForkSpace: memory only; registers, files and the directory of the child are not modelled.
- SpaceRuns.Run: acts come one after the other, not inside each other; the free pages below which an act may fail
  are a bound and not the exact number, which depends on the tables there are (`ProcSpaces.GrowProc` has it).
  Physical page 0 is no memory.
- ProcProgress.WaitLockFrees: a run that frees the lock exists; that the scheduler takes it is fairness, which the
  model does not have.
- ProcInvariant.StepKeeps: pids are unbounded; memory, files and names of processes, and the steps of other
  sleepers than `wait`, beyond their channel and state, are not modelled; `userinit` is the initial state.
- UserHeap.UserHeap.Malloc: sizes are unbounded, so the truncation of very large requests in `sbrk`'s `int`
  argument is not modelled; what `sbrk` returns is a parameter.
- VirtioDisk.Disk.Finish: the device always succeeds; a bad status would be the panic of `virtio_disk_intr`.
- UserCopy.CopyOut: demands that the pages user code can reach are the process's own and that physical page 0 is
  no memory; `SpaceRuns.LivesUser` has the first for every process of a run.
- `copyinstr`, `uvmfirst`, `uvmclear` and the kernel's own page table.
- Inode allocation and reference counts, directories, path lookup and link counts.
- Pipes, consoles, devices, system calls, `exec`, traps, interrupts, boot code and assembly.
- Spin locks and sleep locks themselves, and the memory model: locks are atomic.
- `mkfs`, except for the size it gives the log and the bitmap of an empty image.
- The shell, the other user programs, and `grep` apart from its matcher.
- `buddy_print` and other output.
