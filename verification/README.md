# A verified model of the xv6 kernel's core and three of its programs

xv6 is a small Unix for RISC-V multiprocessors. This project models the parts of it whose
correctness is a property of whole runs, and proves those properties.

- **Log and buffer cache** (`RedoLog`, `LogAdmission`, `BlockMachine`, `LruList` and
  `BlockLayer` in `BufferCache.dfy`, `CodeRuns`, `LogOverrun`, `Recovery`, `Reboot`, `FewBlocks`,
  `LostUpdates`). Processes, the committer and the disk are a transition system whose steps are critical
  sections and single block writes. Reading through the cache refines a flat store; crashing
  and recovering yields that store as of the last header write. The class `BlockStore` is the
  code, with its linked list, counters and loops; each of its methods is shown to make a run
  of the transition system. What goes wrong is shown on runs that the code can make, with the
  order of use that decides which buffer a miss takes (`CodeRuns`).
- **Files** (`FsImage`, `FsOwnership`, `FileSystem`, `TruncateCost`, `FileContent`,
  `FileStore`). Bitmap bits, inode addresses and indirect blocks down to bytes; every block is
  owned once or free; any sequence of calls refines a row of byte sequences with a block quota;
  `filewrite` stays within its log reservation, and `itrunc` on disks that are not too large.
- **Memory** (`PageTree`, `PageOwnership`, `VirtualMemory`, `UserMemory`, `AddressSpace`,
  `UserCopy`, `FreeTables`, `ProcMemory`). Three-level page tables refine a map from pages to
  frames (section 4.4 of the RISC-V Privileged Architecture, 20190608); every page is free, a
  table or a frame, at every moment; failures undo themselves; fork isolates.
- **Processes** (`SleepWakeup` with `SleepLocks`, `ProcMachine`, `ProcRuns`, `ProcCalls`,
  `ProcWaits`, `ProcProgress`, `Spinlock` with `SpinRuns`). Transition systems with steps at
  lock granularity, and for the spinlock itself at the granularity of memory accesses, for any
  number of processes and CPUs. What a call does when nothing interferes is a run of them.
- **Shell parser** (`ShellGrammar`, `ShellParser`, `ShellTokens`, `ShellSentences`,
  `ShellPrinter`, `ShellStrings`). A line is accepted exactly when it is a spelling of a
  sentence of the command language, with any spaces, and is taken for what that sentence says.
- **Allocator** (`FreeList` and `Umalloc` in `Umalloc.dfy`; section 8.7 of *The C Programming
  Language*, second edition), **virtio rings** (`VirtioRing`, `Virtio`, `VirtioRuns`; sections
  2.6.5, 2.6.6 and 2.6.8 of Virtio 1.1), **pipe** (`Pipe`), **grep** (`Regex` and `Grep` in
  `Grep.dfy`). `Common` has the types and parameters that several of them share.

Code that updates things in place is a class whose methods are proved against functions of
the state before; its loops are loops. Recursion over values is functions and lemmas. Panics
are results (`ok == false`, `Panic`, `Error`), and contracts say when they happen, as a
condition on the state before the call that holds if and only if they do; where that is not
so, "Left out" says it.

How things are represented: blocks, pages and processes are named by their numbers, and
`prev`/`next` pointers are indices. 32-bit and 16-bit counters wrap explicitly where the code
relies on it or falls foul of it. Page-table pages and data pages are kept in separate maps.
C strings are sequences without their NUL. Time, other processes' choices, the order of
device completions, the sizes of reads and failing copies to user memory are parameters, or
nondeterministic events of a transition system.

## Where the code does less than one might expect

Each of these is modelled as the code is, with a lemma that says exactly when it matters.

- `install_trans` unpins blocks during recovery that were never pinned; the counts wrap to
  2^32 - 1 (`RecoveryBalancedIff`). A process that then locks such a block can have its buffer
  taken away by the next miss, and its update is lost (`LoseUpdate`). This happens exactly when
  something was installed and some home block was not, as on any disk of NBUF home blocks or
  more (`ReadsAfterRebootIff`, `CrashAfterRebootIff`, `ManyBlocksCovered`).
- Recovery runs out of buffers on a header of NBUF blocks (`RecoverFromLog`). The kernel never
  leaves one on disk, so recovery gets through on all its own images (`CrashImageFitsCache`,
  `Restart`).
- `log_write` tests for room outside its critical section, so the list of logged blocks can
  outgrow a region of 2 to LOGSIZE blocks (`LogRegionNeverOverrunIff`). In the one mkfs makes,
  of LOGSIZE blocks, this ends in a panic before anything is written and not in a damaged disk
  (`FullCacheCannotCommit`); smaller ones are damaged (`CrashAtomicityIff`).
- `log_write` panics on a full log even for a block already in it; in regions larger than
  LOGSIZE this can happen to an operation that has used its allotment and to no other
  (`RoomIffAllotmentLeft`, `FullLogRefusesAbsorption`).
- `malloc` passes its size through an `int`. When nothing on the free list fits, a request
  for more than 2^31 - 32 bytes makes sbrk shrink the program or do next to nothing: the
  program is then killed at the new block's header, or given a block that is not all its own
  (`KillingIff`, `LargeRequest`).
- `growproc` succeeds without effect on a shrink below 0 (`Growproc`).
- A `fork` that finds no page for the trap frame leaves its pid in the unused slot
  (`ForkOutOfMemory`), and `kill` marks unused slots as well: the next process made in a
  slot so marked starts out killed (`KilledBeforeBirth`).
- `piperead` loses a byte when copying it out fails (`PipeRead`).
- `grep` stops printing at a NUL or at a line over 1023 bytes (`PrintsMatchingLinesIff`).
- init, and only init, can sleep in `wait` over a zombie child (`OnlyInitMissesExits`); the
  comment in `exit` calls this harmless.

## Model

| member | source | states |
|---|---|---|
| RedoLog.HeaderRoundTrip | kernel/log.c:35-38 | reading the header block that was written for a list of block numbers gives back that list |
| RedoLog.InstalledContents | kernel/log.c:68-82 | after t turns of install_trans each block of the disk is the logged copy if it is among the first t logged blocks, and unchanged otherwise |
| RedoLog.InstallKeepsLogical | kernel/log.c:68-82 | stopping install_trans after any number of turns leaves every home block's promised contents (what replaying the log gives) as they were |
| RedoLog.ClearKeepsHome | kernel/log.c:101-113 | erasing the header makes the promised contents of each home block its contents on disk |
| RedoLog.RecoveryCompletes | kernel/log.c:115-122 | a completed recovery leaves an empty log and every home block with its promised contents |
| RedoLog.CutKeepsLogical | kernel/log.c:115-122 | recovery cut off before any one of its disk writes changes no promised contents |
| RedoLog.RecoverySurvivesCrashes | kernel/log.c:115-122 | for any number of recoveries each cut short anywhere, the one that completes leaves every home block as promised at the first crash |
| RedoLog.BootLoopHeader | kernel/log.c:115-122 | however often and wherever recovery is cut short, the on-disk header names the blocks it named at first, or none |
| LogAdmission.StepInv | kernel/log.c:125-174 | each step of begin_op, log_write and end_op keeps: logged blocks distinct, logged plus still reserved blocks at most LOGSIZE, no operation outstanding while committing |
| LogAdmission.ReservationHolds | kernel/log.c:125-141 | in every reachable state of any number of interleaved operations the reservation invariant holds |
| LogAdmission.NoLogPanic | kernel/log.c:213-234 | in every reachable state at most LOGSIZE blocks are logged and end_op never finds a commit running; with a region larger than LOGSIZE an operation with blocks left of its allotment passes both panic tests |
| LogAdmission.NoLogPanicIff | kernel/log.c:213-219 | operations within their allotment find room in every run if and only if the region is larger than LOGSIZE |
| LogAdmission.RoomIffAllotmentLeft | kernel/log.c:213-227 | in such a region an operation that has appended u blocks finds room in every run if and only if u is less than MAXOPBLOCKS |
| LogAdmission.RaceOverruns | kernel/log.c:213-234 | for every region of 2 to LOGSIZE blocks, a run in which two operations pass log_write's unlocked test and both append, one block too many |
| LogAdmission.LogRegionNeverOverrunIff | kernel/log.c:218-219 | for every size: no run lists more blocks than the region holds if and only if the region is the header alone or larger than LOGSIZE (mkfs makes it exactly LOGSIZE) |
| LogAdmission.FullLogRefusesAbsorption | kernel/log.c:213-234 | for every larger region, a run after which an operation that has used its allotment meets the full-log panic on a block that is already logged, because the test comes before absorption; with RoomIffAllotmentLeft this is the only such case |
| BlockMachine.StepInv | kernel/bio.c:58-137 | every critical section and every disk write of the cache and the log keeps the invariant between the machine and a flat store with a current and a committed view |
| BlockMachine.RunInv | kernel/log.c:145-234 | the invariant holds after every run of any number of processes |
| BlockMachine.DiskMeansCommitted | kernel/log.c:177-202 | in every such state replaying the on-disk log gives each home block its committed contents |
| BlockMachine.LockedIsMine | kernel/bio.c:92-137 | in every run, a buffer that a process has locked keeps its block, its contents and its holder, whatever the other processes, the committer included, do |
| BlockMachine.ReadsSeeLastWrite | kernel/bio.c:92-103 | over any run from a boot with an empty log, a process that has a block locked and filled sees the last contents any process gave to that block |
| BlockMachine.CrashAtomicity | kernel/log.c:192-202 | for regions of at least LOGSIZE blocks: crash after any step of any run, crash recovery any number of times: the recovered disk holds for every home block exactly what it held at the last completed header write |
| BlockMachine.CrashImageFitsCache | kernel/log.c:85-122 | every image that a crash can leave, of the system or of any recovery after it, is a valid image whose header names fewer blocks than there are buffers |
| LogOverrun.OverrunDamagesDisk | kernel/log.c:213-234 | for every region of 2 to LOGSIZE - 1 blocks, a run of the code, bget's choice of buffers included, that overruns the log into a home block, and a crash after which recovery does not restore that block |
| LogOverrun.CrashAtomicityIff | kernel/log.c:54-234 | for every size: all runs of the code from boot, crashes and interrupted recoveries are atomic if and only if the region is the header alone or at least LOGSIZE blocks; at exactly LOGSIZE an overlong list fills the cache and commit panics before writing |
| CodeRuns.RightCounts | kernel/bio.c:58-89 | from every state in which the counts are right, over every run in which misses take the least recently used free buffer and processes write through the buffers that bread gave them: no buffer is taken from a process, reads see the last write and crashes are atomic |
| CodeRuns.LeastRecentlyUsed | kernel/bio.c:74-137 | after every run a miss takes, of the buffers not in use, one that no brelse has yet given up, or else the one given up longest ago |
| BlockMachine.CommittedIsQuiescent | kernel/log.c:145-174 | what a crash recovers to is the whole store as of a moment at which no operation was in progress, never part of an operation |
| BlockMachine.PinnedNeverRecycled | kernel/log.c:229-232 | no lookup takes the buffer of a logged block for another block before the block has been copied home |
| LruList.PushFront | kernel/bio.c:46-52 | the four assignments of binit's and brelse's insertion turn a doubly linked circle of buffers into one with b in front |
| LruList.Unlink | kernel/bio.c:128-129 | the two assignments of brelse take exactly buffer order[k] out of the circle, in both directions |
| BlockLayer.FillHeader | kernel/log.c:101-113 | the word-by-word loop of write_head produces a block whose header reads back as the first n logged block numbers |
| BlockLayer.BlockStore.Binit | kernel/bio.c:36-53 | the list is a circle through all buffers, none of them in use; on an image with an empty log the state is an initial state of the machine, for every log size |
| BlockLayer.BlockStore.Bget | kernel/bio.c:58-89 | succeeds iff the block is cached or some buffer is unused; a miss takes the least recently used unused buffer; the step is a Lookup of the machine |
| BlockLayer.BlockStore.Bread | kernel/bio.c:92-103 | panics iff the block is not cached and no buffer is unused; sleeps, with its reference taken, iff somebody has the buffer locked; otherwise the caller holds the buffer with cached or disk contents; always a path of lookup, lock and at most one disk read |
| BlockLayer.BlockStore.MoveToFront | kernel/bio.c:126-134 | the list stays one circle and its order becomes b followed by the old order without b |
| BlockLayer.BlockStore.Brelse | kernel/bio.c:116-137 | panics iff the caller does not hold the lock; otherwise unlocks and drops one reference, and the buffer becomes most recently used iff that was the last reference |
| BlockLayer.BlockStore.Bwrite | kernel/bio.c:106-112 | panics iff the caller does not hold the lock, and then no block of the disk changes; otherwise the block named by the buffer has its contents and every other block is as before |
| BlockLayer.BlockStore.BeginOp | kernel/log.c:125-141 | admits iff no commit is running and log.lh.n + (log.outstanding + 1) * MAXOPBLOCKS is at most LOGSIZE, and then counts one more operation outstanding; otherwise nothing changes |
| BlockLayer.BlockStore.FindSlot | kernel/log.c:224-227 | the absorption loop finds the block's position among the logged blocks, or their number |
| BlockLayer.BlockStore.LogWrite | kernel/log.c:213-234 | panics iff log.lh.n is LOGSIZE or one short of the region or no operation is outstanding; otherwise what is logged is the block that the buffer is for, whichever the caller asked for: appended to the list iff it was not in it, pinning exactly then; for a buffer still the caller's, the machine's test and update |
| BlockLayer.BlockStore.WriteLogBlocks | kernel/log.c:177-190 | the loop is a run of the machine that copies every logged block to its log slot and leaves the flat store alone; it stops in bget's panic iff no buffer is unused and some log slot is not cached, and says at which slot |
| BlockLayer.BlockStore.WriteHeadBlock | kernel/log.c:101-113 | a run containing exactly one header write, which is the commit point or the erasure depending on the phase; it stops before that write iff the header is not cached and no buffer is unused |
| BlockLayer.BlockStore.InstallTrans | kernel/log.c:68-82 | the loop is a run of the machine that copies every logged block home and unpins it; it gets through iff a buffer is unused or the log blocks are cached up to that of the first home block that only the log refers to, whose buffer becomes unused; otherwise it stops at a log block that is not cached |
| BlockLayer.BlockStore.Commit | kernel/log.c:192-202 | gets through iff the log is empty or a buffer is unused or header and log slots are all cached, and then committed equals current; otherwise it stops before the header write and committed is the old store |
| BlockLayer.BlockStore.EndOp | kernel/log.c:145-174 | the panic on a running commit cannot happen; the last operation to end commits, iff Commit's condition holds, and then the log is empty and every home block is on disk with its current contents; if it does not, nothing was committed; any other operation leaves log and disk alone |
| BlockLayer.FullCacheCannotCommit | kernel/log.c:177-190 | in every state of the machine's invariant a transaction of NBUF blocks fails Commit's condition: every buffer is pinned and none holds a log slot |
| Recovery.ReadHead | kernel/log.c:85-96 | the in-memory log becomes the list of blocks in the on-disk header |
| Recovery.RecoverOne | kernel/log.c:72-81 | one turn copies one logged block home and, having no pin to drop, leaves that block's buffer with reference count 2^32 - 1; it needs an unused buffer |
| Recovery.InstallTransAtBoot | kernel/log.c:68-82 | gets through iff fewer than NBUF blocks are logged; the disk passes exactly through the partially installed images |
| Recovery.RecoverFromLog | kernel/log.c:115-122 | gets through iff fewer than NBUF blocks are logged; every disk image it passes through is a cut recovery, the last one the recovered image; exactly the installed blocks' buffers have wrapped counts, and they come last in the order of use; while buffers last, every block read stays cached |
| Recovery.RecoveryBalancedIff | kernel/log.c:78 | reference counts are all 0 after recovery iff there was nothing to install |
| Recovery.CleanBootStartsMachine | kernel/log.c:54-65 | after a recovery with an empty log the machine's invariant holds, so all results about runs apply |
| Reboot.Restart | kernel/log.c:54-122 | booting from any image that the system and interrupted recoveries can leave: recovery always gets through, through cut recoveries only, and every home block holds its committed contents |
| LostUpdates.LoseUpdate | kernel/bio.c:58-89 | after a recovery that installed block b, a run of the code: a process locks b, whose count goes from 2^32 - 1 to 0; the next miss, of any home block a, takes b's buffer, the least recently used free one; the process's update of b is logged as one of a and overwritten when a is read in |
| LostUpdates.StaleRead | kernel/bio.c:92-103 | the run goes on with a read of b that returns the contents from before the update |
| LostUpdates.StaleCrash | kernel/log.c:192-202 | or with a commit and a crash after which recovery does not give b its update |
| FewBlocks.FewBlocksAreSafe | kernel/bio.c:58-89 | when recovery installed every home block there is and they are fewer than NBUF / 2, no buffer is ever recycled and adding 1 to the wrapped counts makes every run one with right counts, so reads see the last write and crashes are atomic |
| LostUpdates.ReadsAfterRebootIff | kernel/log.c:68-82 | after a reboot, reads see the last write over all runs of the code if and only if recovery installed nothing or installed every home block there is |
| LostUpdates.CrashAfterRebootIff | kernel/log.c:68-82 | after a reboot, all runs of the code and crashes are atomic if and only if recovery installed nothing or installed every home block there is |
| LostUpdates.ManyBlocksCovered | mkfs/mkfs.c:94-104 | a disk with at least NBUF home blocks, as mkfs makes, has one that recovery did not install |
| FsImage.BitLaws | kernel/fs.c:64-103 | setting or clearing bit i of a bitmap block changes bit i and no other of its 8192 bits |
| FsImage.WordLaws | kernel/fs.c:395-398 | writing entry j of an indirect block, as four bytes, changes entry j and no other |
| FsOwnership.GrowDirect | kernel/fs.c:383-387 | giving a file a free block as direct block keeps ownership exact (bit set iff metadata or owned by one slot) and every byte of every file |
| FsOwnership.GrowTable | kernel/fs.c:392-393 | the same for a new indirect block, whose entries are all 0 because balloc zeroes it |
| FsOwnership.GrowEntry | kernel/fs.c:394-400 | the same for a block listed in the indirect block |
| FsOwnership.ShrinkDirect | kernel/fs.c:416-421 | a direct block about to be freed is marked in the bitmap, and freeing it keeps ownership exact |
| FsOwnership.ShrinkEntry | kernel/fs.c:423-429 | a block listed in the indirect block about to be freed is marked, and freeing it keeps ownership exact for the entries not yet visited |
| FsOwnership.ShrinkTable | kernel/fs.c:431-432 | the indirect block about to be freed is marked, and freeing it last keeps ownership exact |
| FsOwnership.WriteBlock | kernel/fs.c:482-514 | new contents in one file block change the bytes of that file at that block and no other byte of any file |
| FsOwnership.FreeIsUnowned | kernel/fs.c:64-86 | a data block is free in the bitmap iff no slot of any file owns it |
| FsOwnership.FreeAfterGrow | kernel/fs.c:64-86 | giving a free block to a slot takes exactly that block from the free ones |
| FileSystem.InodeLayer.Format | mkfs/mkfs.c:246-259 | setting the bits of the metadata blocks one by one on an empty disk yields exact ownership, so the invariants of all other members have a state to start from |
| FileSystem.InodeLayer.Balloc | kernel/fs.c:64-86 | panics iff no block is free; otherwise takes the lowest free block, marks it, zeroes it, and changes nothing else |
| FileSystem.InodeLayer.Bfree | kernel/fs.c:89-103 | panics iff the block is free; otherwise clears its bit only |
| FileSystem.InodeLayer.Bmap | kernel/fs.c:377-405 | entry bn of the inode's addresses, or entry bn - 12 of its indirect block, allocated if missing; ownership stays exact, no file's bytes change, no other slot moves, at most one bitmap block per allocation is logged; panics iff bn is out of range or the blocks it has to allocate (0, 1 or 2) are more than are free |
| FileSystem.InodeLayer.Iupdate | kernel/fs.c:221-237 | the cache is write-through: if inode table and disk agreed except on this inode they agree after it, at the price of one logged block |
| FileSystem.InodeLayer.Itrunc | kernel/fs.c:409-437 | never frees a free block; afterwards the inode has size 0 and no blocks, on disk too, ownership is exact, and only bitmap blocks and this inode have changed; it logs exactly the bitmap blocks of the blocks freed and the inode's block |
| FileSystem.InodeLayer.Iput | kernel/fs.c:332-358 | the last reference to a valid inode without links frees its blocks and then the inode, on disk too, so no free inode ever owns a block, logging exactly what itrunc logs; every other call only drops its reference |
| TruncateCost.TruncateBound | kernel/fs.c:409-437 | whatever the file, truncating it logs at most one block for each bitmap block that covers data, and one |
| TruncateCost.TruncateFitsIff | kernel/fs.c:409-437 | all truncations on all file systems of a given layout stay within MAXOPBLOCKS blocks if and only if fewer than MAXOPBLOCKS bitmap blocks cover data |
| FileSystem.InodeLayer.Ialloc | kernel/fs.c:195-215 | panics iff no inode is free, changing nothing; otherwise the lowest free inode, cleared, with no block lost; keeps table and disk in agreement |
| FileContent.ChunkFits | kernel/file.c:149-167 | a chunk of filewrite's size at any offset needs at most 10 log blocks: data, bitmap, indirect and inode together |
| FileContent.BlockWrote | kernel/fs.c:493-503 | overwriting part of one block of a file puts exactly those bytes at that offset of that file |
| FileContent.NeedSplit | kernel/fs.c:493-503 | the blocks a write has to allocate are those of its first part plus those of the rest in the state after the first part |
| FileContent.NeedIsGrowth | kernel/fs.c:482-514 | in a file without spare blocks a write needs exactly the blocks, indirect block included, that its new size calls for beyond its old one |
| FileContent.TightAfterWrite | kernel/fs.c:482-514 | and the write leaves no spare blocks in any file |
| FileContent.WriteLoop | kernel/fs.c:493-503 | panics iff the write needs more blocks than are free; otherwise the bytes of src stand at off, all blocks below the new size exist, the free blocks are fewer by exactly the need, and the distinct blocks logged are within one data block per block touched, one bitmap block per allocation and the indirect block |
| FileContent.CostBound | kernel/fs.c:482-514 | the ledger of a write bounds the number of distinct blocks it logged by the cost of its span, counting on an unaligned first block being allocated already |
| FileContent.Writei | kernel/fs.c:482-514 | -1 and nothing changes iff off is past the end or off + n past 268 blocks; else panics iff the write needs more blocks than are free; else the file's content becomes its splice with src at off, all other files keep theirs, no file gets a hole, the log cost is bounded, and soundness (what readi, itrunc, ialloc and iput rely on) is kept |
| FileContent.Readi | kernel/fs.c:455-476 | returns exactly the file's bytes in the range clamped to its size, for every offset and length including 32-bit overflow, and changes, allocates and logs nothing |
| FileContent.ReadBack | kernel/fs.c:455-514 | reading the range just written gives the bytes written, and the rest of the file is as before |
| FileContent.SpliceTwice | kernel/file.c:157-176 | writing two pieces one after the other is writing them together |
| FileContent.WriteChunk | kernel/file.c:157-176 | one transaction of filewrite logs at most MAXOPBLOCKS distinct blocks and splices the chunk in at the offset; panics iff blocks run out, -1 iff out of bounds, and both conditions are stated on the state before |
| FileContent.FileWrite | kernel/file.c:134-181 | panics iff the bytes that fit the file need more blocks than are free; otherwise exactly the whole chunks and remainder that fit arrive at the offset, n is returned iff that is all, and each transaction, one per chunk and one for a refused chunk, logs at most MAXOPBLOCKS blocks |
| FileContent.TruncKeepsFiles | kernel/fs.c:409-437 | truncating a file leaves all other files their contents and without holes |
| FileStore.FreeIsSpare | kernel/fs.c:64-86 | in a sound file system the free blocks number the data blocks less what the files' sizes call for |
| FileStore.Serve | kernel/fs.c:195-514 | for every sequence of ialloc, readi, writei, filewrite, itrunc, iupdate and iput calls, each reply is that of a flat store of byte sequences with a block quota, panics included, and the file system stays sound |
| FileStore.Mkfs | mkfs/mkfs.c:246-259 | an empty file system is sound and stands for the empty flat store with all data blocks to spare |
| FileStore.NeverOverfull | kernel/fs.c:64-86 | over every sequence of calls the flat store never uses more blocks than the disk has |
| FreeList.Settle | user/umalloc.c:24-44 | linking a freed block in at its place and joining it with neighbours it touches yields one address-ordered circle without mergeable neighbours, covering exactly the old free units and the block's |
| FreeList.TakeWhole | user/umalloc.c:76-77 | unlinking a block of the exact size keeps the circle ordered and coalesced and takes exactly its units |
| FreeList.TakeTail | user/umalloc.c:78-82 | cutting the tail off a larger block keeps the circle ordered and coalesced and takes exactly those units |
| FreeList.TiledAfterFree | user/umalloc.c:24-44 | after free the supplied memory is still partitioned into free and allocated blocks, without the freed one |
| FreeList.TiledAfterTake | user/umalloc.c:63-90 | after an allocation it is still partitioned, with the new block, which was not in use |
| FreeList.TiledAfterSupply | user/umalloc.c:46-61 | memory from sbrk disjoint from all before extends the partition by exactly its units |
| FreeList.RunInBlock | user/umalloc.c:33-42 | consecutive free units always lie in one block, because touching blocks are merged |
| FreeList.LastUnitTaken | user/umalloc.c:74-88 | when core was needed, whichever block the search then finds, its tail of the size asked for includes the last unit of the core |
| Umalloc.Arena.FindPlace | user/umalloc.c:30-32 | free's search round the circle terminates at the block after which the freed one belongs |
| Umalloc.Arena.Free | user/umalloc.c:24-44 | the allocator's invariant is kept, the block is no longer allocated and lies inside a free block |
| Umalloc.Arena.Search | user/umalloc.c:74-88 | one circuit from freep finds the first block round the list that is large enough, iff there is one |
| Umalloc.Arena.Morecore | user/umalloc.c:46-61 | returns 0 iff sbrk fails; the program is killed at the header write iff its pages, after what sbrk made of its int argument, end at or below the old break; otherwise a free block of the size asked for exists and the arena grew by exactly that |
| Umalloc.Arena.Malloc | user/umalloc.c:63-90 | three outcomes: killed iff nothing fits and morecore's header write faults; 0 iff nothing fits and sbrk fails; otherwise one new allocated block of the size asked for, disjoint from all others; sbrk is asked only when nothing fits, and once; the block is memory the program has, and the arena stays so, iff a free block fitted or at most 2^31 - 32 bytes were asked for |
| Umalloc.HonestIff | user/umalloc.c:46-61 | the size reaches sbrk's int argument undistorted iff at most 2^31 - 32 bytes are asked for; beyond that sbrk is asked for less than all but the last unit |
| Umalloc.KillingIff | user/umalloc.c:54-58 | a request that needs core kills the program if and only if it is for 2^31 - 31 to 2^32 - 16 bytes and the break is at a page boundary, as exec leaves it, or sbrk takes the break's page away |
| Umalloc.LargeRequest | user/umalloc.c:46-90 | for every larger size and every break, a first malloc kills the program or returns a block that is not all the program's, as KillingIff says |
| PageTree.PxIsIndex | kernel/riscv.h:341-346 | an address is the sum of its three 9-bit fields, each in its place, and its offset; the fields are the indices of its page |
| PageTree.IndexInjective | kernel/riscv.h:341-346 | three indices name one page |
| PageTree.GrownTree | kernel/vm.c:71-89 | hanging an empty table under an unused entry leaves a well-formed three-level tree |
| PageTree.GrownLookup | kernel/vm.c:71-89 | and changes the translation of no page of any table |
| PageTree.LeafWriteLookup | kernel/vm.c:148-168 | writing a last-level entry changes the translation of that one page of that one table |
| PageTree.ChildIff | kernel/vm.c:77-80 | an entry above the last level is in use iff a table hangs from it |
| PageTree.TableNeedStep | kernel/vm.c:71-89 | the tables a range of pages lacks are those its beginning lacks and those of the next page's path not among them |
| PageOwnership.PoppedInv | kernel/kalloc.c:68-82 | kalloc's page was neither a table nor a held frame, and pages stay partitioned into free, tables and frames |
| PageOwnership.PushedInv | kernel/kalloc.c:46-63 | kfree of a held frame keeps the partition and all translations |
| PageOwnership.EnteredInv | kernel/vm.c:148-168 | a new mapping keeps the partition, and that each user frame is mapped at exactly one place |
| PageOwnership.ErasedInv | kernel/vm.c:173-195 | a removed mapping keeps both and moves one page only |
| VirtualMemory.Vm.constructor | kernel/kalloc.c:26-40 | freerange leaves every page of the range on the free list once |
| VirtualMemory.Vm.Kalloc | kernel/kalloc.c:68-82 | fails iff the free list is empty; otherwise the first page, which nothing else was using |
| VirtualMemory.Vm.Walk | kernel/vm.c:71-89 | without alloc finds the last-level table iff the tree has it, changing nothing; with alloc succeeds iff there are free pages for the tables missing on the page's path, and takes exactly those; no translation changes and new tables hang under this root only |
| VirtualMemory.Vm.Mappages | kernel/vm.c:148-168 | exactly the pages of the range are added, or a prefix; it panics iff the next page is mapped or past MAXVA, runs out iff the tables up to the next page outnumber the pages that were free; all other translations of all tables are unchanged |
| VirtualMemory.Vm.Uvmunmap | kernel/vm.c:173-195 | gets through iff aligned and every page is mapped to a leaf; exactly the range is removed; with do_free exactly its frames are freed, without it none |
| UserMemory.RoundUp | kernel/riscv.h:326 | the first page that starts at or above n |
| UserMemory.Uvmcreate | kernel/vm.c:199-208 | a new table that maps nothing; fails iff memory is out; all other tables, frames and contents are unchanged |
| UserMemory.Uvmdealloc | kernel/vm.c:258-270 | removes and frees exactly the pages between the rounded sizes, or nothing when the new size is not smaller; in bytes: the addresses below newsz and the rest of their last page are as they were, those above, up to the old size rounded up, can no longer be accessed, and no other address of any table has changed |
| UserMemory.Undone | kernel/vm.c:236-249 | removing and freeing exactly what was added restores every translation, every frame and its contents |
| UserMemory.GrowPage | kernel/vm.c:237-249 | a turn of the loop runs out of memory iff no page is free or too few for the missing tables, panics iff a page was free and the address is taken, and otherwise adds one page and takes exactly the page and the tables |
| UserMemory.Uvmalloc | kernel/vm.c:228-252 | three outcomes, decided by the state before: zeroed, writable user pages on frames of their own, so that every address from oldsz rounded up to newsz is newly accessible and holds 0, and every other byte of every address space is as it was; 0 with every translation and frame restored, iff pages and tables needed up to the first page it must not map exceed the free pages; a panic otherwise |
| AddressSpace.Uvmcopy | kernel/vm.c:308-336 | decided by the state before: up to the first page below sz that the parent lacks it goes as adding pages to the child must; 0 if there is none: every address below sz is mapped in the child with the parent's flags and byte on a different frame, accessible iff it was for the parent, and every other byte of every address space is as it was; a panic if there is one or a page of the child's is taken; -1 if memory runs out before: every translation and frame is as it was |
| AddressSpace.ForkCopies | kernel/vm.c:308-336 | what the loop over pages leaves is, address by address below sz, a copy of the parent's memory |
| UserCopy.Walkaddr | kernel/vm.c:94-112 | succeeds iff the page is below MAXVA and its entry has PTE_V and PTE_U, and gives its frame |
| UserCopy.WroteChunk | kernel/vm.c:354-374 | a memmove into a user frame changes those bytes of that address space and no byte of any address space else |
| UserCopy.Copyout | kernel/vm.c:354-374 | 0 iff every byte is accessible, and then exactly src is there; otherwise a prefix ending at the first inaccessible page; no other byte of any address space changes |
| UserCopy.Copyin | kernel/vm.c:379-399 | 0 iff every byte is accessible, and then exactly those bytes; otherwise the prefix up to the first inaccessible page |
| UserCopy.Copyinstr | kernel/vm.c:405-442 | 0 iff a NUL occurs within max accessible bytes, and then the bytes up to the first NUL; -1 otherwise, with no NUL among the bytes copied |
| UserCopy.RunConfined | kernel/vm.c:354-374 | any number of copyouts through one table change nothing that any other table reaches |
| UserCopy.ForkIsolates | kernel/vm.c:308-399 | after uvmcopy, whatever is written through one of the two tables, the other reads, at every address below sz that the parent could access, what the parent held at the fork |
| FreeTables.BranchIsSubtree | kernel/vm.c:274-290 | the tables under an entry are exactly the table it leads to and those below it |
| FreeTables.Freewalk | kernel/vm.c:274-290 | gets through iff no mapping is left below t, and then every table of the subtree is on the free list, once, and no other table has changed |
| FreeTables.UnmappedIsBare | kernel/vm.c:274-290 | no address is mapped iff no last-level table of the tree has a valid entry |
| FreeTables.Uvmfree | kernel/vm.c:294-300 | gets through iff exactly [0, sz) is mapped, and then every frame and every table of the address space is free, once, and all other tables, frames and translations are as before |
| ProcMemory.ProcPagetable | kernel/proc.c:157-186 | succeeds iff three pages are free, taking three: a new table mapping just trampoline and trap frame; otherwise every table, frame, translation and free page as before |
| ProcMemory.ProcFreepagetable | kernel/proc.c:190-196 | gets through iff [0, sz), trampoline and trap frame are all that is mapped, and then every frame below sz and every table is returned, and the two kernel pages are not |
| ProcMemory.Growproc | kernel/proc.c:238-254 | grows by zeroed pages, fails with everything restored, or panics, exactly as uvmalloc's outcome on the state before; shrinks by exactly the pages above the new size, panicking iff one is not mapped; both stated on addresses too, as for uvmalloc and uvmdealloc; a request below 0 or past 2^32 succeeds and changes nothing |
| SleepWakeup.StepNoLost | kernel/proc.c:554-600 | after every step, a process sleeping on (or committed to sleeping on) a channel whose condition holds has a wakeup of that channel still on its way to it |
| SleepWakeup.OneInside | kernel/spinlock.c:21-43 | two processes are never both inside the critical section of one channel's spinlock |
| SleepWakeup.StepInv | kernel/proc.c:554-600 | every step of sleep, wakeup, the scheduler, yield and kill keeps the no-lost-wakeup invariant and the lock discipline; what the steps amount to over a call is WaitEndsByLeaving |
| SleepWakeup.RunInv | kernel/proc.c:554-600 | the invariant holds after every interleaving |
| SleepWakeup.NobodyStranded | kernel/proc.c:554-600 | in every reachable state, if the condition holds and no wakeup of the channel is in progress, nobody is asleep on it or past the point of no return |
| SleepWakeup.WakeupReachesAll | kernel/proc.c:588-600 | no process can have been asleep on the channel in every state from the store that made the condition true to the end of the wakeup |
| SleepWakeup.WaitEndsByLeaving | kernel/proc.c:554-586 | in every run, a process that started to wait for a condition is outside again only after it has left with the lock held and the condition seen true: until then every wakeup takes it back to the test |
| SleepWakeup.WokenOnlyBy | kernel/proc.c:588-636 | a step makes a sleeper runnable iff it is the kill of that process or the turn for it of a wakeup on the channel it sleeps on |
| SleepWakeup.TakesAtOnce | kernel/sleeplock.c:21-31 | undisturbed, a wait for a condition that holds is a run that sets the word and changes nothing else |
| SleepWakeup.FallsAsleep | kernel/proc.c:554-576 | undisturbed, a wait for one that does not is a run that ends asleep on the channel with all locks free |
| SleepWakeup.WakesAndTakes | kernel/proc.c:576-586 | undisturbed, a sleeper made runnable while the condition holds is a run that sets the word and leaves |
| SleepWakeup.ChangesAndWakes | kernel/proc.c:588-600 | undisturbed, a change of the word and its wakeup are a run after which exactly the sleepers on the channel have become runnable |
| SleepWakeup.YieldsAndGoesOn | kernel/proc.c:521-529 | undisturbed, a yield and the scheduler's choice of the process bring back the state before |
| SleepLocks.SleeplocksWork | kernel/sleeplock.c:21-52 | in every run a sleeplock has at most one holder, lk->pid names it exactly while it holds the lock, and a waiter asleep on a free lock has a releasesleep still coming to wake it |
| SleepLocks.AcquiredIsHeld | kernel/sleeplock.c:21-41 | in every run, by the calls alone: who called acquiresleep is outside again only after leaving with the lock, holds every lock it came back with until it calls releasesleep for it, and holds no other but the one it is releasing |
| SleepLocks.NoOrphanLock | kernel/sleeplock.c:21-41 | in every run a sleeplock that is locked is held by some process |
| Spinlock.Cpu.PushOff | kernel/spinlock.c:88-97 | interrupts are off and the state found is remembered on a stack, whatever the nesting |
| Spinlock.Cpu.PopOff | kernel/spinlock.c:99-110 | panics iff nothing is pushed; otherwise interrupts are again as the matching push_off found them |
| Spinlock.Cpu.Acquire | kernel/spinlock.c:21-43 | for every sequence of values the lock's word takes: panics iff this CPU already holds the lock, gets it at the first swap that finds it free, and spins on with interrupts off while there is none |
| Spinlock.Cpu.Release | kernel/spinlock.c:46-72 | panics iff this CPU does not hold the lock or nothing is pushed, the latter never while each lock held has its push_off; otherwise the interrupt state before the matching acquire is back |
| SpinRuns.StepInv | kernel/spinlock.c:20-83 | every memory access of acquire, release and holding on any CPU keeps: locked iff some CPU has the lock, at most one has it, and lk->cpu names a CPU iff it has the lock and is not between taking it and setting lk->cpu or between clearing lk->cpu and letting go |
| SpinRuns.SpinlockWorks | kernel/spinlock.c:20-83 | in every run on any number of CPUs at most one has the lock, and holding(), which reads two words without the lock, answers exactly whether its own CPU has it, so acquire and release panic exactly on misuse |
| SpinRuns.CallsTakeEffect | kernel/spinlock.c:20-72 | in every run a CPU outside acquire and release has the lock iff its last call was acquire |
| SpinRuns.UndisturbedCalls | kernel/spinlock.c:20-72 | undisturbed, an acquire of a free lock and a release of one's own return, the lock has changed hands and nothing else has changed |
| ProcMachine.StepSched | kernel/proc.c:456-529 | every step of the schedulers, sched, yield, sleep, fork, exit, wait, wakeup and kill, with timer preemption wherever no spinlock is held, in fork's and exit's code too, keeps: each process lock is held by the CPU whose code holds it, at most one CPU per process, RUNNING iff on a CPU |
| ProcRuns.StepInv | kernel/proc.c:258-447 | every step also keeps the family and pid/exit-record invariants |
| ProcRuns.BootInv | kernel/proc.c:211-234 | the state userinit leaves satisfies the invariant |
| ProcRuns.RunInv | kernel/proc.c:258-636 | the invariant holds after every run from there, on any number of CPUs and slots |
| ProcRuns.RunningIffOnCpu | kernel/proc.c:456-518 | in every run, while p->lock is free, p is RUNNING iff some CPU's c->proc is p, and then just one CPU's is |
| ProcRuns.NoOrphans | kernel/proc.c:305-393 | in every run, every process other than init has a parent that is neither ZOMBIE nor UNUSED |
| ProcRuns.WaitMissesNoExit | kernel/proc.c:332-447 | in every run, a process other than init that sleeps in wait has no ZOMBIE child, although exit reads its parent pointer early and reparenting may intervene |
| ProcRuns.EachZombieCollectedOnce | kernel/proc.c:397-447 | over every run: no pid exits twice, no two waits return the same pid, each wait that succeeds returns the pid and status of an exit, and every exit not yet returned is that of a present zombie |
| ProcRuns.WaitCollectsOwnChild | kernel/proc.c:397-447 | the slot a successful wait frees is a zombie child of the caller whose recorded exit nobody has collected; then the slot is free and the exit collected |
| ProcCalls.ForkCall | kernel/proc.c:258-301 | an undisturbed fork is a run that makes the first free slot, whatever was left in it, a runnable child of the caller with the next pid, and changes nothing else |
| ProcCalls.ForkFails | kernel/proc.c:98-105 | an undisturbed fork with no free slot is a run back to the state before |
| ProcCalls.ForkOutOfMemory | kernel/proc.c:107-124 | an undisturbed fork that runs out of memory is a run that spends a pid and frees the slot, which keeps the pid iff the trap frame was what it had no page for |
| ProcCalls.KilledBeforeBirth | kernel/proc.c:106-130 | a kill that finds an unused slot, by pid 0 or one left there, followed by an undisturbed fork into it, is a run whose child starts out killed |
| ProcCalls.ExitCall | kernel/proc.c:332-393 | an undisturbed exit is a run that leaves a zombie with its status, every child with init as its parent, init and the parent awake if they slept in wait, all locks free, the CPU idle, the exit on record, and nothing else changed |
| ProcCalls.WaitCall | kernel/proc.c:397-447 | an undisturbed wait of a process with children, none a zombie, that was not killed is a run that ends asleep on the caller's own slot with all locks free |
| ProcCalls.WaitReturnsNone | kernel/proc.c:437-441 | an undisturbed wait of a process without children, or of one that was killed and has no zombie child, is a run back to the state before |
| ProcCalls.WaitCollects | kernel/proc.c:416-431 | an undisturbed wait of a process with zombie children is a run that frees the slot of the first, records its pid and status as returned, and changes nothing else |
| ProcCalls.YieldCall | kernel/proc.c:521-529 | an undisturbed yield is a run that leaves the process runnable, to go on where it was, and the CPU idle |
| ProcCalls.SleepCall | kernel/proc.c:554-586 | an undisturbed sleep is a run that leaves the process asleep on the channel and the CPU idle |
| ProcCalls.Starts | kernel/proc.c:456-495 | a scheduler's choice of a runnable process is a run after which it goes on where it was |
| ProcCalls.KillCall | kernel/proc.c:617-636 | kill marks the slot, makes it runnable if it slept, and changes nothing else |
| ProcWaits.WaitKnowsChildren | kernel/proc.c:397-447 | in every run, whoever sleeps in wait has a child and has not been killed, and wait of a process other than init, not killed, says there are no children only when there are none |
| ProcProgress.StuckOnlyOnLocks | kernel/proc.c:92-447 | in every run, a process on a CPU can take a step of its own code iff the process lock that code is about to acquire, if any, is free |
| ProcProgress.CodeDecides | kernel/proc.c:92-586 | at every place the tests leave one way to go on, but for what the program, the free memory and the copy to user space decide |
| ProcProgress.KillIsRemembered | kernel/proc.c:617-636 | over every run a process that has been marked by kill stays marked for as long as it has its pid |
| ProcCalls.InitSleepsOverAZombie | kernel/proc.c:354-361 | a run from boot with four processes in which init sleeps in wait and is then handed a zombie by an exiting process |
| ProcCalls.OnlyInitMissesExits | kernel/proc.c:332-447 | some run lets a process sleep in wait over a zombie child if and only if that process is init |
| ShellGrammar.GetToken | user/sh.c:265-308 | the token lies at or after the cursor, within the line, and is not empty unless the line has ended |
| ShellTokens.SpelledIsRead | user/sh.c:265-308 | a text of words and symbols, with any spaces around them and one at least where they would run together, is read as exactly those tokens |
| ShellTokens.ReadIsSpelled | user/sh.c:265-308 | every line is such a text of the tokens that gettoken finds in it |
| ShellParser.NextToken | user/sh.c:265-308 | the loops over spaces and word characters compute the token function on every line and position |
| ShellParser.Peek | user/sh.c:310-320 | stops at the first character that is no space, and tells whether it is one of toks |
| ShellParser.Redirs | user/sh.c:374-397 | the loop collects exactly the redirections of the grammar function, or finds the missing file |
| ShellParser.ArgLoop | user/sh.c:415-446 | the loop of parseexec agrees with the recursive grammar on words, redirections and every panic; which words and files those are is ArgsRead |
| ShellParser.BlockPart | user/sh.c:399-413 | agrees with the grammar function; the recursion ends on every line |
| ShellParser.PipePart | user/sh.c:361-372 | agrees with the grammar function; the recursion ends on every line |
| ShellParser.LinePart | user/sh.c:344-359 | the loop over & and the recursion over ; agree with the grammar function, on every line |
| ShellParser.Parse | user/sh.c:327-342 | accepts a line iff it spells a sentence (words and redirections in any order, pipes, &, ;, parentheses, at most nine words a command), and returns what that sentence says, the words and files read off the line |
| ShellSentences.ArgsRead | user/sh.c:434-442 | on words and redirections in any order, followed by | ) & ; or the end, the loop of parseexec collects the words in their order and the redirections in theirs |
| ShellSentences.PlainRead | user/sh.c:415-446 | a plain command means its words, with its redirections around it in the order in which they stand |
| ShellSentences.SentenceRead | user/sh.c:344-446 | where the tokens of a sentence stand before ) or the end, parseline reads exactly them: a | b | c pipes a into the rest, & takes a whole pipeline, ; the weakest, redirections after ) the block |
| ShellSentences.SentenceWritten | user/sh.c:344-446 | and whatever parseline reads without a panic is a sentence, the one it makes of it |
| ShellSentences.ParseReads | user/sh.c:327-446 | for every line: it is accepted iff it is a spelling of some sentence, and for every sentence it is a spelling of, the command means that sentence's tree, with the open flags of each redirection |
| ShellSentences.Unambiguous | user/sh.c:327-446 | all sentences that a line can be a spelling of have the same tree |
| ShellPrinter.ParseInvertsPrint | user/sh.c:327-446 | parsing the canonical fully parenthesised text of any command with at most nine words each gives back that command |
| ShellPrinter.PrintedFormIsEquivalent | user/sh.c:327-446 | every line that parses can be printed canonically, and the printed line parses to the same command |
| ShellStrings.ParsedIsWordy | user/sh.c:265-446 | whatever the line, every argument and file name of a command that parses is a whole non-empty word, and no command has more than nine arguments |
| ShellStrings.NulTerminate | user/sh.c:449-493 | a NUL is written where each string of the command ends, and nowhere else |
| ShellStrings.ReadsBack | user/sh.c:449-493 | those NULs fall in no word, so the C string at each token's start is the token |
| ShellStrings.Parsecmd | user/sh.c:327-342 | accepts and understands a line as Parse does; an erroneous line leaves the buffer alone; otherwise every argument and file name reads back from the buffer as the word it was parsed as |
| VirtioRing.AtMostTwoInFlight | kernel/virtio_disk.c:154-166 | at most two requests have descriptors at any time |
| VirtioRing.FewPending | kernel/virtio_disk.c:168-270 | at most two requests wait in the avail ring and at most two completions in the used ring |
| VirtioRing.TestsExact | kernel/virtio_disk.c:256 | the mod-NUM comparison says empty iff all completions have been seen, and the device's 16-bit comparison iff all requests have been taken, across wrap-around |
| VirtioRing.PostOk | kernel/virtio_disk.c:168-236 | posting a request on three free descriptors keeps descriptors partitioned into free ones and disjoint three-element chains, and both rings faithful |
| VirtioRing.NextPosted | kernel/virtio_disk.c:234-236 | the device finds at its place in the avail ring the oldest request it has not taken |
| VirtioRing.NextDone | kernel/virtio_disk.c:256-263 | the handler finds the oldest completion it has not seen, of a request whose buffer is still busy and is recorded in info |
| VirtioRing.SeeOk | kernel/virtio_disk.c:256-266 | one turn of the handler keeps the invariant, clearing the buffer of that request and no other in flight |
| VirtioRing.ReleaseOk | kernel/virtio_disk.c:245-246 | giving a finished request's chain back keeps the partition |
| VirtioRuns.StepOk | kernel/virtio_disk.c:202-270 | every step of the driver, the handler and the device, taken when its own test on wrapped counters says so, keeps the rings in order |
| VirtioRuns.NothingLost | kernel/virtio_disk.c:202-270 | over every run, with device steps between the turns of the handler's loop: at most two requests in flight, and the requests ever posted are exactly those waiting, taken, completed, seen or given back, so none is lost, completed or seen twice |
| VirtioRuns.HandlerServesOwner | kernel/virtio_disk.c:256-266 | in every state of every run a turn of the handler ends the wait of the oldest unseen completion's request, whose status is 0, and of no other |
| VirtioRuns.RequestsAreServed | kernel/virtio_disk.c:168-238 | in every state of every run, a device that goes by the descriptors alone and serves any request in flight moves that request's data between its buffer and its sectors, in the direction asked for, with status 0, and moves nothing else |
| Virtio.RoomIff | kernel/virtio_disk.c:154-166 | three descriptors are free iff fewer than two requests are in flight |
| Virtio.Disk.AllocDesc | kernel/virtio_disk.c:116-126 | the lowest free descriptor, marked, or -1 iff there is none |
| Virtio.Disk.FreeDesc | kernel/virtio_disk.c:129-139 | panics iff out of range or already free; otherwise frees that one |
| Virtio.Disk.Alloc3 | kernel/virtio_disk.c:154-166 | three different free descriptors iff there are three, else all of free[] as before |
| Virtio.Disk.Submit | kernel/virtio_disk.c:168-238 | sleeps iff two requests are in flight; otherwise one new request with its own chain, its buffer busy, at the end of the avail ring |
| Virtio.Disk.FreeChain | kernel/virtio_disk.c:142-152 | following the links frees the three descriptors of the request and no other, without a panic |
| Virtio.Disk.Finish | kernel/virtio_disk.c:240-249 | once the buffer is not busy the request and only that request is gone, its record cleared, and exactly its descriptors have become free |
| Virtio.Disk.Intr | kernel/virtio_disk.c:251-270 | exactly the pending completions are worked through and exactly their requests' buffers stop being busy; panics iff one of them has a bad status, and then at the first such |
| Virtio.Disk.DeviceFetch | kernel/virtio_disk.c:234-236 | the device misses no posted request, invents none, and takes them in order |
| Virtio.Disk.DeviceRead | kernel/virtio_disk.c:206-224 | what the device reads by following the descriptors is the request: direction, sector, buffer, and where to put the status; it may write the buffer iff it is to read the disk |
| Virtio.Disk.DeviceComplete | kernel/virtio_disk.c:220-224 | completing any request taken, in any order, keeps the invariant and sets that request's status only |
| Pipe.QueuesMore | kernel/pipe.c:76-127 | one more critical section extends the run of the unbounded queue |
| Pipe.FirstInFirstOut | kernel/pipe.c:76-127 | for every sequence of writes and reads, what has come out followed by what is inside is what has gone in, in order |
| Pipe.PipeBuffer.Put | kernel/pipe.c:95 | the byte is at the end of the queue that the ring holds, for every value of the wrapping counters |
| Pipe.PipeBuffer.Get | kernel/pipe.c:120 | takes the first byte of that queue |
| Pipe.PipeBuffer.PipeWrite | kernel/pipe.c:76-100 | puts in as much of the source as fits; when it is full with bytes left it sleeps, or is refused iff the reader is gone or the writer killed; the ring still refines the queue |
| Pipe.PipeBuffer.PipeRead | kernel/pipe.c:102-127 | delivers the oldest bytes in order; sleeps iff empty with the writer open; a read of n > 0 delivers none only when the writer is closed and all bytes ever written have come out; a failing copyout loses one byte |
| Pipe.PipeBuffer.PipeClose | kernel/pipe.c:58-74 | freed iff both ends are closed, contents untouched |
| Regex.BeginsMany | user/grep.c:97-104 | a text begins with c* followed by items iff after some number of characters that fit c the rest begins with the items |
| Regex.ParseInvertsWrite | user/grep.c:83-94 | written with ^ in front, * behind repeated characters and $ at the end, a pattern is read back as itself iff no plain character is followed by a *, none is a final $, and it does not begin with ^ by itself |
| Regex.WriteInvertsParse | user/grep.c:70-94 | every string is the writing of a pattern, the one it is read as |
| Regex.SingleItem | user/grep.c:83-104 | ^c$ matches exactly the line c, or any one character for a dot, and ^c*$ exactly the lines of nothing but such characters |
| Regex.MatchHere | user/grep.c:83-94 | for the items that the characters of re are the writing of: true iff some beginning of the text, or all of it under $, can be cut into pieces that fit them |
| Regex.MatchStar | user/grep.c:97-104 | the loop is true iff some number of repetitions is followed by a match |
| Regex.Match | user/grep.c:70-80 | for the pattern that the characters of re are the writing of: true iff some stretch of the text is a word of it, tied to start and end as ^ and $ say |
| Grep.StrChr | user/grep.c:21 | the first newline before any NUL, or none |
| Grep.ScanLines | user/grep.c:20-28 | prints exactly the matching complete lines of the buffer and leaves a remainder without a complete line |
| Grep.Run | user/grep.c:10-34 | for every file and every way read may split it, prints exactly the matching lines up to the first NUL or the first line over 1023 bytes, newline included |
| Grep.PrintsMatchingLines | user/grep.c:10-34 | for a file whose lines, split at newlines only, have no NUL and fit the buffer, that is every matching newline-terminated line, in order |
| Grep.LosesLines | user/grep.c:10-34 | for every other file, lines that the empty pattern matches are missing from the output |
| Grep.PrintsMatchingLinesIff | user/grep.c:10-34 | grep prints exactly the matching lines of a file, for every pattern, if and only if no line has a NUL or is over 1023 bytes, newline included |

## Left out

- BlockMachine.ReadsSeeLastWrite: starts from a boot that had nothing to install; `ReadsAfterRebootIff` is about the others.
- BlockLayer.BlockStore.Bread: a caller that has to wait for the lock stops at the wait; what follows is the Lock step of `BlockMachine`, which covers contention.
- BlockLayer.BlockStore.Commit: runs without other processes in between; interleaving is covered by `BlockMachine`, of which every commit is shown to be a run.
- LostUpdates.ReadsAfterRebootIff: not for disks with NBUF / 2 to NBUF - 1 home blocks all of which were installed; there only lookups of log blocks can take a buffer away.
- LostUpdates.CrashAfterRebootIff: the same disks are left out.
- LostUpdates.LoseUpdate: once a buffer has been taken from a process, the runs include its log_write and its release of the buffer, and not every other thing the code might do with it; the theorems about safe runs need no more, since no buffer is taken in those.
- FileSystem.InodeLayer.Format: the file system without files; what else mkfs puts into its image is not modelled.
- FileStore.Serve: calls one after the other; what interleaves is blocks, in `BlockMachine`.
- FileContent.Writei: the source is readable; after a failed copyin the code still returns n, which is not modelled.
- FileContent.Readi: the destination is writable; a failed copyout ends the loop early, which is not modelled.
- FileSystem.InodeLayer.Iupdate: on-disk inodes are records; their 64-byte layout within a block is not modelled.
- AddressSpace.Uvmcopy: the pages that the parent has below sz are leaves on frames of its own, as they are in every user page table.
- Umalloc.Arena.Malloc: addresses and the sizes in block headers are unbounded integers; the break is a parameter, above all memory the program has and outside what earlier large requests were meant to get.
- ProcRuns.WaitMissesNoExit: not for init; `OnlyInitMissesExits` shows that this is exact.
- ProcMachine.StepSched: kill and wakeup are over-approximated by waking any sleeping slot at any time; pids are unbounded integers, so the wrap of the pid counter is not modelled.
- SleepLocks.SleeplocksWork: safety only; that a waiter is eventually scheduled is not claimed, nor is freedom from deadlock.
- ShellSentences.ParseReads: which of the panics a line that is no sentence ends in is not stated; memory for the tree is always available; that parseexec adds words to a node already wrapped in redirections is modelled by keeping the two lists apart until the end.
- Virtio.Disk.Submit: the caller has no other request for the same buffer in flight, which the buffer's sleeplock guarantees; registers and memory barriers are not modelled.
- Pipe.PipeBuffer.PipeWrite: one critical section; a write that sleeps goes on from the byte at which it stopped.
- The inode cache (iget, ilock), directories and path names: not modelled.
- File descriptor tables, pipes as open files, exec, system call dispatch, traps and the console: not modelled.
- Boot code, assembly, device registers and interrupt routing: not modelled; swtch hands over control together with p->lock.
- Memory ordering and TLB flushes: sequential consistency and flushed translations are taken for granted.
- Running the shell's commands: only parsing is modelled.
