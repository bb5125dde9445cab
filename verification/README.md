# xv6 with shared memory: a verified model

This project models the parts of an x86 xv6 kernel, extended with memory shared between parent
and child, that carry its hardest promises, and proves those promises for all inputs and all runs.

* **Log and buffer cache.** `LogDisk` gives the disk as a sequence of block writes and proves commit
  and recovery atomic under crashes at any point, also inside recovery. `LogMachine` puts any
  number of processes calling begin_op, log_write and end_op on top, interleaved with the block writes of
  commit, with crashes and with recovery; the size test of log_write, made without the lock, and the locked
  append are separate steps. `LogHistory` tells from the steps of a run alone what it has to leave behind, and
  proves that it does. `LogBuffers` counts the buffers the log keeps busy, and `LogCapacity` says how
  large the log region and the buffer cache must be. `Bio` is the buffer cache, with its linked ring
  updated in place, and `Log` is the code of log.c running on that cache; it is proved to issue exactly
  the block writes that the two protocol models reason about.
* **File system.** `Blocks` holds bits and words inside a block, `Ownership` the free-block map and who owns
  which block, `Growth` and `Truncation` how a file gains and loses blocks, `FileContents` and `Writing`
  the bytes of a file and the log budget, `InodeTable` the 64-byte disk inodes and which images can be
  mounted. `FileSystem` is the code of fs.c, `Files` that of file.c. `Durability` puts log and file system
  together: what the calls keep, every recovered disk has; `Transactions` runs one call as one operation.
* **Memory.** `Vm` is the account of physical frames and two-level page tables, `MachineMemory` kalloc.c and
  the page-table code of vm.c, `AddressSpace` the operations on whole address spaces, `SharedMemory` the
  shared-memory system calls, `SharedWindow` which bytes of a region are really shared, and `WindowLife` how
  long they stay backed by memory.
* **Processes.** `SleepWakeup`, `ProcMachine` and `PipeMachine` are step systems with any number of
  processes and steps; `PipeCalls` observes what the calls on a pipe write and return; `Proc` and
  `Pipe` are the table-scanning and byte-copying code they are built on.
* **User programs.** `Heap` is the allocator of umalloc.c, `Sbrk` when the memory it is handed is there, `Grep` the
  matcher of grep.c.

`Numbers` holds what several of them count with.

Code that updates things in place is a class whose methods are proved against functions on
values; protocols are step systems (`Enabled`, `Do`, `Legal`, `Exec`) with an invariant that every step keeps.
A kernel panic is an outcome of its own, or a precondition where no caller can reach it. Locks are taken to
exclude each other, and the scheduler may run any enabled step next. Device transfers (`iderw`) are
atomic; what a device driver, sbrk or a caller supplies is a parameter.

Statements one would expect that are false of the code; each has an input or a run that shows it, and a lemma
giving the exact condition.

* Operations are atomic whatever the size of the log region: `LogCapacity.AlwaysWholeIff`. Two processes can pass
  log_write's size test on the same count before either appends (`LogCapacity.RaceRun`, `LogCapacity.LogFitsIff`);
  then the log is one block too long, and commit overwrites a home block (`LogCapacity.SpillRun`). Operations are
  atomic if and only if the region has LOGSIZE + 1 blocks or more, or just one, where every write panics, or at
  least as many blocks as there are buffers. mkfs makes LOGSIZE blocks and the kernel has LOGSIZE buffers: with
  that layout the race ends in "no buffers" before the first log slot is written, and operations are atomic.
* A commit finds its buffers: `LogCapacity.BuffersSufficeIff`, with `LogCapacity.StarvedRun`. It holds if and only if
  there are LOGSIZE + 1 buffers or more, or two more than the region has blocks, or the region has one block. With
  the kernel's LOGSIZE buffers the race leads there in mkfs's region, and three operations of ten blocks in a larger one.
* The size test of log_write does not fire inside the reserved budget: `LogCapacity.SizeCheckSafeIff` (for writes that
  may still append, if and only if the region has LOGSIZE + 1 blocks or more, or two more than there are buffers). A
  write of a block that is already logged can meet the panic in any region, because the test comes before
  absorption: `LogCapacity.AbsorbedWritePanics`, with `LogCapacity.TestPanicsIff` saying when.
* A reader sleeps only over an empty pipe: `PipeMachine.RunJustifiedIff`, `PipeMachine.SleepingReaderLeftBehind`.
* A killed process does not sleep on a pipe: `PipeMachine.RunAwakeIff`, `PipeMachine.KilledReaderSleeps`.
* A shared region is shared entirely: `SharedWindow.WhollySharedIff`, `SharedWindow.StraddlingRegion`.
* A child's windows stay backed by memory in use: `WindowLife.WindowsOutlive`, `WindowLife.WindowsOutliveShrink`, with
  `WindowLife.DanglingWindow`.
* Shrinking a process that reports failure has changed nothing: `AddressSpace.GrowProc` (shrinking to size 0 frees
  the pages and reports failure, and no other shrinking does), with `AddressSpace.ShrinkToNothing`.
* The memory that sbrk hands to malloc is there: `Sbrk.CoreIsThereIff`, with `Sbrk.HugeRequest`.

Where comment and code disagree, the model follows the code: log.c reserves LOGSIZE blocks but refuses at
`log.size - 1`; file.c speaks of two blocks of slop, while the count that closes is four data, four
bitmap, one indirect and one inode block (`Writing.ChunkFits`).

## Model

| member | source | states |
|---|---|---|
| `LogDisk.RecoveryStep` | kernel/log.c:69-82 | each block write of recovery leaves the meaning of every home block, header applied, unchanged |
| `LogDisk.RecoveredIsLogical` | kernel/log.c:115-122 | a completed recovery gives every home block its logical contents and an empty header |
| `LogDisk.CommitStep` | kernel/log.c:192-202 | each block write of commit leads from one stage to the next: all old before the header write, all new after it |
| `LogDisk.CommitPrefix` | kernel/log.c:192-202 | the disk after any prefix of commit's writes is in the stage that prefix calls for |
| `LogDisk.CrashAtomicity` | kernel/log.c:69-122 | crash after any write of commit, then any number of crashes inside recovery: the first completed recovery leaves all home blocks old or all new, new exactly when the first header write reached disk |
| `LogMachine.StepKeeps` | kernel/log.c:125-233 | every begin_op, size test, append, end_op, commit write, crash and recovery step keeps the log invariant, and so does a step that ends in a panic |
| `LogMachine.OperationsNeverSplit` | kernel/log.c:125-233 | in every run over a log region of LOGSIZE + 1 blocks or more, or of at least as many blocks as there are buffers, every recovered disk is the effect of a prefix of history that contains only whole, finished operations, and of all of history once the log is empty or nobody is in an operation and no commit runs; LogHistory says what that history is |
| `LogHistory.HistoryIsTold` | kernel/log.c:125-233 | in every run, whatever the size of the log region, the history, its durable part and the ended operations are those told by the steps alone: at each append the block and data of the log_write the process is in, under the number of its begin_op; durable once a commit has written one block for each block logged and then the header; cut back to the durable part by a crash |
| `LogHistory.RecoversTheRun` | kernel/log.c:69-233 | after every run, a crash followed by any crashing recoveries gives each home block the last durable write told by the steps; these belong to ended operations, none of them split, and after a commit, or while nobody is in an operation, nothing is missing |
| `LogHistory.ReadsTheRun` | kernel/log.c:177-233 | while the log serves or commits, each home block reads as the last write told by the steps |
| `LogHistory.AppendIsRead` | kernel/log.c:212-233 | after a log_write the block is in the log and reads as the data written, also when it was absorbed |
| `LogMachine.ReservationHolds` | kernel/log.c:125-174 | for every size of the log region and the cache, in every run the logged blocks plus the unused budget of all outstanding operations stay within LOGSIZE, logged block numbers are distinct, committing implies no outstanding operation, and no panic but the size check and "no buffers" can happen |
| `LogBuffers.BusyBound` | kernel/log.c:125-141 | logged blocks and blocks held inside log_write never take more buffers than the reservation, LOGSIZE |
| `LogBuffers.StepCached` | kernel/log.c:125-233 | every step keeps: busy buffers within the cache, at most three operations, and at most nlog + 1 blocks logged or held |
| `LogBuffers.ReadFindsBuffer` | kernel/bio.c:60-92 | with LOGSIZE buffers the read of a block that an operation is about to log always finds one |
| `LogCapacity.TestPanicsIff` | kernel/log.c:218-219 | a write an operation may make, and whose block finds a buffer, meets the size panic exactly when LOGSIZE or nlog - 1 blocks are logged; with nlog > LOGSIZE only if all budgets are used up and the block is already logged |
| `LogCapacity.LargeLogIsSafe` | kernel/log.c:213-233 | with nlog >= LOGSIZE + 1, or two blocks of room, no operation with budget left meets the size panic |
| `LogCapacity.SizeCheckSafeIff` | kernel/log.c:218-219 | for operations with budget left the size panic is out of reach in all runs if and only if nlog >= LOGSIZE + 1 or nlog >= nbuf + 2 |
| `LogCapacity.AbsorbedWritePanics` | kernel/log.c:218-229 | a run, for every nlog >= LOGSIZE + 1 and nbuf >= LOGSIZE, in which writing an already logged block panics |
| `LogCapacity.RaceRun` | kernel/log.c:218-231 | a run, for every nlog from 2 to LOGSIZE with as many buffers, in which budgeted writes that all pass the test log nlog blocks |
| `LogCapacity.LogFitsIff` | kernel/log.c:213-233 | in all runs logged blocks and header fit into the region if and only if nlog >= LOGSIZE + 1 or nlog == 1 or nlog >= nbuf + 1 |
| `LogCapacity.SpillRun` | kernel/log.c:177-202 | with nlog < nbuf the run goes on through end_op into commit, which writes every log slot, the last one behind the region |
| `LogCapacity.AlwaysWholeIff` | kernel/log.c:125-233 | operations are whole on every recovered disk in all runs if and only if nlog >= LOGSIZE + 1 or nlog == 1 or nlog >= nbuf |
| `LogCapacity.StarvedRun` | kernel/log.c:177-190 | a run whose commit finds every buffer pinned, for every region and cache outside the condition |
| `LogCapacity.BuffersSufficeIff` | kernel/log.c:177-202 | in all runs reads for the log and commits find their buffers if and only if nlog == 1 or nbuf >= LOGSIZE + 1 or nbuf >= nlog + 2 |
| `Durability.RecoveredStaysGood` | kernel/log.c:69-202 | any property of the home blocks that every transaction keeps holds of every recovered disk |
| `Durability.CallsKeepBatch` | kernel/log.c:192-202 | a transaction whose writes are those of file-system calls made one after the other keeps the image good |
| `Durability.FileSystemSurvives` | kernel/log.c:69-202 | boot from a good image, run any transactions made of file-system calls, crash anywhere and recover: free-block map, ownership, file sizes and inode table of the recovered disk agree |
| `Transactions.CallRun` | kernel/log.c:125-174 | any call within the budget, File.Transaction for one, can be run as one operation, in any order of its writes and with blocks written more than once; what is then committed is that call, with the last data of each block |
| `Bio.RingUnlink` | kernel/bio.c:131-132 | taking a node out of a doubly linked ring leaves a ring of the others in order |
| `Bio.RingInsertFront` | kernel/bio.c:133-136 | linking a node behind the head gives a ring with it in front |
| `Bio.MovedOrder` | kernel/bio.c:129-137 | moving a buffer to the front keeps exactly the same buffers |
| `Bio.CoherentRecycle` | kernel/bio.c:80-89 | giving a clean, unreferenced buffer a key nobody has keeps the cache coherent |
| `Bio.Bcache.constructor` | kernel/bio.c:38-55 | binit: every buffer is on the ring and the cache is coherent with the disk |
| `Bio.Bcache.LinkAll` | kernel/bio.c:38-55 | the linking loop makes a ring of all buffers, last one first |
| `Bio.Bcache.Find` | kernel/bio.c:67-75 | finds a buffer with the key if and only if there is one |
| `Bio.Bcache.FindVictim` | kernel/bio.c:77-90 | finds the least recently used buffer that is clean and unreferenced, if and only if there is one |
| `Bio.Bcache.Bget` | kernel/bio.c:60-92 | hit: one more reference; miss: the least recently used evictable buffer takes the key; "no buffers" exactly when neither exists |
| `Bio.Bcache.Bread` | kernel/bio.c:95-105 | the locked buffer holds the last logged or written contents of the block |
| `Bio.Bcache.Fill` | kernel/memide.c:38-60 | reading a block in makes the buffer valid without breaking coherence |
| `Bio.Bcache.MarkDirty` | kernel/log.c:231 | a dirty buffer becomes the truth about its block and is pinned |
| `Bio.Bcache.Bwrite` | kernel/bio.c:108-115 | exactly one block write is issued and disk, buffer and truth agree on the block |
| `Bio.Bcache.Brelse` | kernel/bio.c:119-140 | the two critical sections together: lock given up, one reference less; the last release moves the buffer to the front of the ring and keeps the others in order |
| `Bio.Bcache.Unlock` | kernel/bio.c:125 | the sleep lock is given up, before and without bcache.lock |
| `Bio.Bcache.Unref` | kernel/bio.c:127-140 | under bcache.lock: one reference less, and to the front of the ring if it was the last |
| `Bio.Bcache.MoveToFront` | kernel/bio.c:129-137 | the six pointer assignments turn the ring into the one with the buffer in front |
| `Log.RoomExists` | kernel/bio.c:60-92 | fewer pinned and referenced buffers than NBUF leave one to evict |
| `Log.RoomBeside` | kernel/log.c:177-190 | while commit copies, a block that is not cached always finds a buffer, even with NBUF - 1 blocks pinned |
| `Log.NoRoomWhenAllPinned` | kernel/bio.c:77-92 | with NBUF distinct blocks pinned, reading a log slot meets "no buffers": the bound that Commit asks for is exact |
| `Log.Log.LogWrite` | kernel/log.c:213-233 | panics exactly on a full log or outside a transaction, before absorption; otherwise records the block once and makes its buffer the truth |
| `Log.Log.WriteLog` | kernel/log.c:177-190 | issues exactly the log-area writes of the logged blocks' current contents |
| `Log.Log.HeaderWords` | kernel/log.c:101-113 | the header written is the one that reads back as the block list |
| `Log.Log.WriteHead` | kernel/log.c:101-113 | issues one write, of the header for the current block list |
| `Log.Log.LogAll` | kernel/log.c:195-196 | the first half of commit: all log slots, then the header that switches to the new contents |
| `Log.Log.HeaderBlocks` | kernel/log.c:85-96 | the loop over the header's words reads the block list the header encodes |
| `Log.Log.InstallTrans` | kernel/log.c:69-82 | issues exactly the home writes of the logged contents and leaves no buffer pinned |
| `Log.Log.InstallAll` | kernel/log.c:197-199 | the second half of commit: all home writes, then the empty header |
| `Log.Log.Commit` | kernel/log.c:192-202 | the block writes issued are the sequence that crash atomicity is proved about, with the cached contents at the call; never "no buffers" |
| `Log.Log.ReadHead` | kernel/log.c:85-96 | the block list read is the one the header on disk encodes |
| `Log.Log.Recover` | kernel/log.c:115-122 | issues exactly the recovery writes; the disk is the recovered disk |
| `Blocks.WithBitAt` | kernel/fs.c:66-68 | setting a bit of the map sets that bit and no other |
| `Blocks.WithoutBitAt` | kernel/fs.c:89-92 | clearing a bit of the map clears that bit and no other |
| `Blocks.PutWordAt` | kernel/fs.c:388-391 | a block number stored in an indirect block reads back, and the other numbers are unchanged |
| `Blocks.ZeroesAt` | kernel/fs.c:42-51 | a zeroed block, read as an indirect block, names no block |
| `Blocks.WordsPut` | kernel/log.c:101-113 | words stored into a block read back, and the words behind them are unchanged |
| `Ownership.InUseIff` | kernel/fs.c:56-95 | a bit of the map is set if and only if the block is metadata or some inode reaches it |
| `Ownership.OwnedOnce` | kernel/fs.c:370-398 | no block is reached twice: not from two files, two places of a file, or as data and indirect block |
| `Ownership.ClaimMap` | kernel/fs.c:67-72 | marking and zeroing a free block keeps the map equal to the owners |
| `Ownership.ReleaseMap` | kernel/fs.c:81-95 | clearing an owned block's bit keeps the map equal to the owners |
| `Ownership.StoreKeeps` | kernel/fs.c:376-392 | recording a claimed block where there was none keeps every owner's claim right |
| `Growth.ClaimDirect` | kernel/fs.c:376-380 | a free block recorded in the inode: invariant kept, exactly that address appears, no other file disturbed |
| `Growth.ClaimIndirect` | kernel/fs.c:385-386 | a fresh indirect block changes no address of any file |
| `Growth.ClaimWord` | kernel/fs.c:387-392 | a free block recorded in the indirect block: invariant kept, exactly that address appears, no other file disturbed |
| `FileSystem.FileSystem.constructor` | kernel/fs.c:172-186 | any image whose free-block map, owners, file sizes and inode table agree is mounted with the invariant |
| `FileSystem.FileSystem.Balloc` | kernel/fs.c:56-78 | the first free block, never 0 or an owned one, marked and zeroed; panics exactly when no block is free |
| `FileSystem.FileSystem.FindBit` | kernel/fs.c:64-75 | the inner loop finds the first clear bit of a map block |
| `FileSystem.FileSystem.Bfree` | kernel/fs.c:81-95 | the bit was set ("freeing free block" is unreachable) and exactly that block becomes free |
| `FileSystem.FileSystem.Bmap` | kernel/fs.c:370-398 | returns the block of the file; if it existed nothing changes, otherwise exactly that address appears and at most one bitmap block per allocation, the block and the indirect block are logged |
| `FileSystem.FileSystem.MapIndirect` | kernel/fs.c:384-386 | the file has an indirect block afterwards and all its addresses are the same |
| `FileSystem.FileSystem.MapDirect` | kernel/fs.c:376-380 | bmap's direct case |
| `FileSystem.FileSystem.MapWord` | kernel/fs.c:387-394 | bmap's case through the indirect block |
| `Truncation.ReleaseBlock` | kernel/fs.c:412-425 | freeing the block at one position leaves the invariant intact for the positions still to come and for all other files |
| `Truncation.Emptied` | kernel/fs.c:427-432 | once nothing is owned, an inode without addresses satisfies the whole invariant again |
| `FileSystem.FileSystem.DropDirect` | kernel/fs.c:412-417 | the first loop frees the direct blocks and clears their addresses |
| `FileSystem.FileSystem.DropIndirect` | kernel/fs.c:419-429 | the second loop frees what the indirect block names, then the indirect block |
| `FileSystem.FileSystem.Itrunc` | kernel/fs.c:405-433 | exactly the blocks of the inode become free, the file is empty, every other file keeps its inode and bytes, and only map blocks and the inode block are logged |
| `FileSystem.TruncateBudget` | kernel/fs.c:405-433 | what itrunc may log stays within MAXOPBLOCKS if and only if the disk has fewer than nine map blocks' worth of blocks |
| `FileSystem.ValidIsGood` | kernel/fs.c:172-186 | between calls the disk is an image that can be mounted again |
| `FileSystem.FileSystem.FreeInode` | kernel/fs.c:338-344 | iput of the last reference: the inode is free and owns nothing |
| `FileSystem.FileSystem.Ialloc` | kernel/fs.c:193-213 | the first free inode, which owned no block, becomes an empty file; panics exactly when there is none |
| `FileSystem.FileSystem.Iupdate` | kernel/fs.c:219-236 | afterwards the 64-byte records of the inode table read back as the in-memory inodes, with all six fields; no file changes, and exactly the inode block is logged |
| `FileContents.FreeIsEmpty` | kernel/fs.c:203-205 | a free inode has no addresses, so clearing it loses no block |
| `InodeTable.PutInodeAt` | kernel/fs.c:224-233 | an inode stored into its 64 bytes reads back, and the other seven inodes of the block are unchanged |
| `InodeTable.UpdateFiles` | kernel/fs.c:219-236 | writing one stale inode through makes the table read back as the in-memory inodes, and changes no file |
| `InodeTable.EmptyImageGood` | tools/mkfs.c:171-185 | an image with only metadata marked and all inodes empty can be mounted |
| `FileContents.GrownDense` | kernel/fs.c:370-398 | bmap at or before the end of a file without holes leaves a file without holes |
| `FileContents.GrownView` | kernel/fs.c:370-398 | bmap does not change what the file reads |
| `FileContents.PatchedView` | kernel/fs.c:495-498 | copying a chunk into the block at an offset splices it into the file at that offset |
| `FileContents.BlockSlice` | kernel/fs.c:467-469 | the bytes copied out of a block are a slice of the file |
| `FileContents.OthersStay` | kernel/fs.c:370-507 | if no block of another file changes, no other file's bytes or block structure change |
| `FileSystem.FileSystem.Readi` | kernel/fs.c:449-473 | returns the slice clipped at the size, or -1 past the end or on wrap-around; allocates and logs nothing |
| `FileSystem.FileSystem.FindBlock` | kernel/fs.c:370-398 | bmap of a block that exists allocates, logs and changes nothing |
| `FileSystem.FileSystem.ReadAll` | kernel/fs.c:466-471 | readi's loop collects the slice across block and indirect boundaries |
| `FileSystem.FileSystem.Writei` | kernel/fs.c:477-507 | -1 exactly for offsets past the end, wrap-around or sizes over MAXFILE blocks; otherwise the file is spliced, has no holes, keeps all inode fields but size and addresses, is written through to its disk inode, no other file changes, and the blocks logged are bounded by `Cost` |
| `FileSystem.FileSystem.WriteAll` | kernel/fs.c:494-500 | writei's loop: every round extends the splice and the account of logged blocks |
| `FileSystem.FileSystem.EndWrite` | kernel/fs.c:502-505 | the conditional size update is enough: afterwards memory and disk inode agree, also when it is skipped, and no other field of the inode has changed |
| `Writing.StepProgress` | kernel/fs.c:494-500 | one round: bmap and memmove turn the spliced prefix into the longer one |
| `Writing.GainedStep` | kernel/fs.c:370-398 | blocks allocated so far are the growth in blocks, plus one when the indirect boundary is crossed |
| `Writing.ChunkFits` | kernel/file.c:126-132 | a chunk at an offset inside the file logs at most MAXOPBLOCKS blocks, wherever the allocator finds blocks |
| `Writing.ChunkFitsIff` | kernel/file.c:132 | the chunk size is the largest one for which the bound on logged blocks stays within MAXOPBLOCKS at every offset |
| `Files.File.Fileread` | kernel/file.c:96-113 | returns the clipped slice at the offset and advances it; the disk and the log are not touched |
| `Files.File.Transaction` | kernel/file.c:139-149 | one chunk between begin_op and end_op that does not end in the out-of-blocks panic is a call in the sense of Durability: the image stays good and every changed block is among the at most MAXOPBLOCKS logged; it is written whole or refused, and "short filewrite" is unreachable |
| `Files.File.Filewrite` | kernel/file.c:116-155 | on a file: the exact number of bytes written, their splice at the old offset, the result n or -1, and the budget of every transaction; on a device: disk and log untouched, and the result, the offset and the "short filewrite" panic exactly by the device's first answer that is not a whole chunk |
| `Files.StoppedAt` | kernel/file.c:134-152 | a call that fails has written exactly the whole chunks that fit below the maximum file size |
| `Vm.PageDigits` | kernel/mmu.h:82-109 | directory and table index are the digits of the page number |
| `Vm.FramesPrivate` | kernel/vm.c:207-323 | two user pages below SHAREDBASE never share a frame; no user or table frame is free; no frame is both |
| `MachineMemory.Machine.constructor` | kernel/kalloc.c:31-36 | before kinit all managed frames are held and the account is in order |
| `MachineMemory.Machine.Freerange` | kernel/kalloc.c:46-53 | exactly the whole pages between the addresses become free |
| `MachineMemory.Machine.Kalloc` | kernel/kalloc.c:82-95 | takes the first free frame, fails exactly on an empty list |
| `MachineMemory.Machine.Kfree` | kernel/kalloc.c:59-77 | a held frame goes to the front of the free list filled with junk; no mapping changes |
| `MachineMemory.Machine.Walk` | kernel/vm.c:30-48 | finds or makes the page table; no mapping of any directory changes |
| `MachineMemory.Machine.MapPage` | kernel/vm.c:60-71 | exactly one entry of the flat map changes; panics exactly on a present page; fails only without memory |
| `MachineMemory.Machine.MapPages` | kernel/vm.c:52-72 | exactly the pages of the range are entered and nothing else, up to the top of the 32-bit space; frames entered below SHAREDBASE belong to their page afterwards; it takes one frame for each page table that was missing, and stops only at a page whose table is missing when no frame is left |
| `MachineMemory.Machine.UnmapPage` | kernel/vm.c:253-259 | one page disappears and its own frame, no other, becomes free |
| `MachineMemory.Machine.DeallocUvm` | kernel/vm.c:240-263 | the directory-skipping loop unmaps exactly the pages between the two sizes and frees exactly their frames |
| `MachineMemory.Machine.AllocPage` | kernel/vm.c:219-232 | one new zeroed page, or the frames are as they were |
| `MachineMemory.Machine.AllocUvm` | kernel/vm.c:207-235 | 0 from SHAREDBASE on; below it the new pages are mapped to fresh frames, and it fails if and only if there are fewer free frames than new pages and missing page tables together, and then the view of every directory is what it was |
| `AddressSpace.FreeVm` | kernel/vm.c:266-280 | exactly the directory, its tables and its user frames become free; no frame mapped at or above SHAREDBASE, and no other address space changes |
| `AddressSpace.FreeTables` | kernel/vm.c:273-278 | the loop frees exactly the page tables of the directory |
| `AddressSpace.KernelMapValid` | kernel/vm.c:95-105 | the four kernel regions are page aligned, disjoint and above SHAREDBASE, the last ending at the top of memory |
| `AddressSpace.KernelMapsDirectly` | kernel/vm.c:95-105 | with the kernel regions entered, every page from KERNBASE up to PHYSTOP above it maps its address minus KERNBASE, device pages map their own address, nothing else is mapped, and of all these only the kernel text cannot be written |
| `AddressSpace.KernelTables` | kernel/vm.c:95-105 | the kernel regions take 64 page tables, which with the directory makes the 65 frames setupkvm needs |
| `AddressSpace.SetupKvm` | kernel/vm.c:108-126 | a new directory with exactly the kernel regions; it fails if and only if there are fewer free frames than the directory and its page tables need, and then the free set is restored |
| `AddressSpace.CopyPage` | kernel/vm.c:304-316 | one page of the child is a copy of the parent's in a fresh frame with the same flags |
| `AddressSpace.CopyUvm` | kernel/vm.c:294-323 | the child is a page-by-page copy in private frames with the kernel half above; it fails if and only if there are fewer free frames than directory, page tables and pages need, and then the free set is restored |
| `AddressSpace.GrowProc` | kernel/proc.c:158-175 | growing adds exactly the new zeroed pages in frames of their own, or fails, if and only if the size would reach SHAREDBASE or memory does not suffice, and leaves every mapping as it was; shrinking unmaps exactly the pages cut off and frees their frames, and reports failure if and only if the new size is 0 |
| `AddressSpace.ShrinkToNothing` | kernel/proc.c:168-171 | a process of one page that gives up one page: failure is reported, the page is gone and its frame free |
| `SharedMemory.SharedTable.ShareData` | kernel/sysfile.c:449-475 | -1 exactly for an argument that cannot be read or a pointer outside the process; otherwise the entry goes to the first free slot, or the code says the name is taken or the table full |
| `SharedMemory.SharedTable.GetData` | kernel/sysfile.c:481-501 | -1 exactly for bad arguments; otherwise finds the first entry of the name, if and only if there is one |
| `SharedMemory.SameKeyIff` | kernel/string.c:58-66 | two names count as the same if and only if strncmp finds no difference in their first SHAREDNAME characters |
| `SharedMemory.PointerOkIff` | kernel/syscall.c:58-70 | argptr accepts a pointer if and only if all four bytes behind it are inside the process |
| `SharedMemory.SharedTable.CopyFrom` | kernel/proc.c:213-226 | the child gets the entries before the parent's first empty slot |
| `SharedMemory.AliasPage` | kernel/vm.c:419-430 | one child page is mapped to the frame of the parent's page; stops exactly if the parent has no such page, and fails only if the page table is missing and no frame is left |
| `SharedMemory.AliasRegion` | kernel/vm.c:412-434 | the pages of a window alias consecutive pages of the parent, all of them unless the next page is missing in the parent or its page table is missing and no frame is left |
| `SharedMemory.AccessSharedMemory` | kernel/vm.c:396-441 | returns 0 if and only if the parent has mapped every page of the regions and there are frames for the missing page tables of the windows; then every region is aliased into its own window, windows consecutive from SHAREDBASE, and its table entry moved to the same offset there. Otherwise it returns -1: at a page missing in the parent, with the regions before done; or because memory has run out. Nothing below SHAREDBASE or in another address space changes, unless mappages fails, where only the -1 and its reason are stated |
| `SharedMemory.ByteAliased` | kernel/vm.c:412-436 | every byte of a window has the physical address of the parent's byte |
| `SharedMemory.SharedEndToEnd` | kernel/sysfile.c:449-501 | fork, access_shared_memory, get_data, for any slot of the parent's table at the fork: byte k of what the child is given is the parent's byte k, for every k inside the rounded window |
| `SharedMemory.RunStays` | kernel/sysfile.c:449-475 | whatever a process shares afterwards, a shared region stays in its slot and stays the one its name finds |
| `SharedMemory.EveryShareReachesChild` | kernel/sysfile.c:449-501 | the end-to-end statement for every successful call in any sequence of share_data calls before the fork |
| `SharedWindow.SpilledByte` | kernel/vm.c:412-417 | a byte past the window is shared exactly when the next region starts in that very page |
| `SharedWindow.WhollySharedIff` | kernel/vm.c:412-417 | the whole region is shared if and only if its last byte lies in the window or the next region continues it |
| `SharedWindow.StraddlingRegion` | kernel/vm.c:412-436 | the parent shares eight mapped bytes at 4092 and the access succeeds: the child shares the first four and faults on the others |
| `SharedWindow.AccessedAfter` | kernel/vm.c:396-441 | a successful access leaves the situation these lemmas speak of |
| `WindowLife.WindowsLive` | kernel/vm.c:412-436 | after a successful access every page of every window maps a frame in use |
| `WindowLife.WindowsOutlive` | kernel/vm.c:266-280 | after freevm of another address space every window page still maps a frame in use if and only if it was not the parent's |
| `WindowLife.WindowsOutliveShrink` | kernel/vm.c:240-263 | after deallocuvm the same if and only if no shared page of the parent was cut off |
| `WindowLife.DanglingWindow` | kernel/proc.c:318 | a concrete memory in which, once the parent is freed, the child maps a frame of the free list |
| `SleepWakeup.StepKeeps` | kernel/proc.c:442-495 | every acquire, release, sleep, wakeup scan and kill step keeps the protocol invariant |
| `SleepWakeup.NoLostWakeup` | kernel/proc.c:442-495 | once a wakeup has completed, in every continuation nobody sleeps on the channel who tested the condition before the waker changed it |
| `SleepWakeup.SleepReturnsHeld` | kernel/proc.c:442-475 | in every run a process that returns from sleep holds the lock guarding the channel it called sleep with, and is no longer on a channel |
| `Proc.ProcTable.Wakeup1` | kernel/proc.c:478-486 | exactly the sleepers on the channel become runnable |
| `Proc.ProcTable.Exit` | kernel/proc.c:240-294 | the scan is the table with the children handed to init, the right sleepers woken and the process a zombie |
| `Proc.ProcTable.Wait` | kernel/proc.c:298-338 | reaps the first zombie child, sleeps if there are only living ones, fails without children or when killed |
| `Proc.ProcTable.FindUnused` | kernel/proc.c:82-87 | the first unused slot, if there is one |
| `Proc.ProcTable.Kill` | kernel/proc.c:500-518 | the first process with the pid is marked and woken; found if and only if there is one |
| `ProcMachine.ExitFamily` | kernel/proc.c:276-291 | exit leaves no process with a dead parent |
| `ProcMachine.ExitWaiters` | kernel/proc.c:276-291 | exit leaves nobody asleep in wait over a zombie child |
| `ProcMachine.ExitHandsOver` | kernel/proc.c:276-294 | exit makes init the parent of exactly the children of the exiting process, in whatever state they are, and leaves init not asleep in wait if one of them is a zombie |
| `ProcMachine.ZombieIsReaped` | kernel/proc.c:300-337 | a process with an exited child, init for one, can reap, and its wait does nothing else |
| `ProcMachine.StepKeeps` | kernel/proc.c:74-338 | every fork, exit, wait, kill, sleep and scheduling step keeps the process-table invariant |
| `ProcMachine.ExitAndWait` | kernel/proc.c:180-338 | in every run each process but the first has a parent until it is reaped, parents are live, nobody sleeps in wait over a zombie child, and no process is reaped twice |
| `Pipe.StreamIntact` | kernel/pipe.c:76-119 | bytes read followed by bytes buffered are the bytes written although both counters wrap; the full and empty tests are exact |
| `Pipe.FillGood` | kernel/pipe.c:76-96 | the copy loop enqueues as many bytes as fit, in order |
| `Pipe.DrainGood` | kernel/pipe.c:98-119 | the copy loop dequeues the oldest bytes, as many as wanted and there |
| `Pipe.Pipe.WriteStretch` | kernel/pipe.c:82-92 | the loop on the array until the buffer is full is the fill of the ring value |
| `Pipe.Pipe.ReadStretch` | kernel/pipe.c:111-115 | the loop on the array is the drain of the ring value |
| `Pipe.Pipe.Close` | kernel/pipe.c:58-74 | on the pipe's own fields, the close step of the machine, whose wakeups are in PipeMachine.DoShut; every byte stream the pipe stood for it still stands for, and the page is given back exactly in the states that PipeMachine.ReleasedOnce is about |
| `PipeMachine.StepKeeps` | kernel/pipe.c:58-119 | every step of readers, writers, closers, descriptors and kills keeps the pipe invariant |
| `PipeMachine.PipeIsFifo` | kernel/pipe.c:58-119 | in every interleaving the pipe is a bounded queue of all bytes, and a sleeping writer faces a full pipe with an open read end; PipeCalls ties the bytes to the calls |
| `PipeCalls.CallsAreWritten` | kernel/pipe.c:76-119 | in every run, seen from outside: a process inside pipewrite has put exactly the bytes before its position into the pipe, once and in order; a call that returned n has put in all n bytes, one that returned -1 a beginning of them; and what reads have returned plus what is inside is what was written |
| `PipeCalls.WriteContinues` | kernel/pipe.c:76-96 | after every run, the next stretch of a write call takes the bytes behind those already in the pipe, as many as there is room for; it returns n when all are in, -1 exactly if bytes are left and the reader is gone or the caller killed, and otherwise wakes readers and sleeps |
| `PipeCalls.ReadReturns` | kernel/pipe.c:98-119 | after every run, the next stretch of a read call for n bytes returns the oldest bytes, n or all there are, and wakes writers; over an empty pipe that can still be written it returns -1 if killed and sleeps otherwise |
| `PipeMachine.ClosedAlone` | kernel/file.c:45-82 | in every run the reference counts equal the descriptors, the panics of filedup and fileclose are out of reach, an end is open exactly while there is a descriptor of it or a process on the way to closing it, and it is closed without descriptors and with nobody inside |
| `PipeMachine.ReleasedOnce` | kernel/pipe.c:58-74 | in every run, once both ends are closed no later step touches the pipe, takes a descriptor or closes an end again |
| `PipeMachine.ReadersJustifiedIff` | kernel/pipe.c:82-93 | a step leaves every sleeping reader with an empty open pipe, unless it is a killed writer that fills the pipe, and then it does not |
| `PipeMachine.RunJustifiedIff` | kernel/pipe.c:76-119 | from the start, readers are asleep for good reason after every step of a run if and only if no step is a killed writer that fills the pipe past a sleeping reader |
| `PipeMachine.SleepingReaderLeftBehind` | kernel/pipe.c:84-87 | a run of six steps that leaves a reader asleep over a full pipe |
| `PipeMachine.RunAwakeIff` | kernel/pipe.c:84-110 | no killed process is asleep on the pipe after any step of a run if and only if no kill falls between the test for it and the sleep |
| `PipeMachine.KilledReaderSleeps` | kernel/pipe.c:104-109 | a run of three steps that leaves a killed reader asleep |
| `Heap.UnitsForFits` | user/umalloc.c:69 | the computed units hold the requested bytes if and only if the sum does not wrap, and then with less than one header to spare |
| `Heap.UpperCase` | user/umalloc.c:33-37 | joining the upper neighbour keeps order, disjointness and total units |
| `Heap.LowerCase` | user/umalloc.c:38-42 | joining or linking behind the lower neighbour keeps order, disjointness, no adjacent free blocks and total units |
| `Heap.Heap.Search` | user/umalloc.c:30-32 | the circular search ends, at the block the freed one belongs behind |
| `Heap.Heap.Free` | user/umalloc.c:24-44 | the block leaves the live set, the list stays circular, ordered and coalesced, no unit is lost, other live blocks are unchanged |
| `Heap.Heap.MoreCore` | user/umalloc.c:46-61 | at least 4096 fresh units join the list and some free block then fits |
| `Heap.Heap.Lap` | user/umalloc.c:74-88 | one lap of the search finds a block that fits if and only if there is one, and it is the first one behind freep |
| `Heap.Heap.Take` | user/umalloc.c:75-84 | an exact fit is unlinked, a larger block gives up its tail; the new block is disjoint from all others |
| `Heap.Heap.Malloc` | user/umalloc.c:63-90 | a new live block of exactly the computed units, or 0 when nothing fits and sbrk refuses, or the report that sbrk's answer has no memory behind it; the heap grows only if nothing fitted; both searches end |
| `Sbrk.CoreIsThereIff` | kernel/sysproc.c:46-57 | the units morecore enters lie below the new end of the process if and only if their byte count is positive as a signed integer; otherwise the process has not grown |
| `Sbrk.HugeRequest` | user/umalloc.c:54-58 | a request for 0x8000_0000 bytes: sbrk succeeds and the process has not grown |
| `Grep.ParseShows` | user/grep.c:85-97 | reading a pattern as items loses nothing |
| `Grep.ParseShowIff` | user/grep.c:85-97 | printing items and reading them again gives them back if and only if `$` as an end comes last, the last item is not a literal `$`, and no item that begins with a star follows a single character |
| `Grep.HereStar` | user/grep.c:100-108 | a starred item matches some number of accepted characters followed by the rest |
| `Grep.MatchHere` | user/grep.c:85-97 | decides whether the pattern matches at the start of the text |
| `Grep.MatchStar` | user/grep.c:100-108 | decides the starred case |
| `Grep.Match` | user/grep.c:72-82 | true if and only if the pattern, as literal, any, star and end items, matches some substring starting at an allowed position |

## Left out

- Device, boot and assembly code, trap frames, swtch and cr3 loads: no property of model size; the scheduler is a free choice of step.
- Spinlock memory ordering: acquire and release are atomic steps that exclude each other.
- ELF loading and stack building in exec, clearpteu, copyout, the line loop of grep, the shell and the demo programs: easier members, or nothing to prove against.
- Directories, path lookup, link counts and the reference counting of the inode cache: a locked inode is modelled as loaded and valid.
- The dead kfree in exit, and which stale entries the shared table of a reused process slot can hold.
- LogBuffers.BusyBound: counts the buffers of logged blocks and of blocks held inside log_write; buffers that readers hold at the same time can lead to "no buffers" earlier, which the other statements allow for.
- Durability.FileSystemSurvives: takes the file-system calls of one transaction to be made one after the other; how the buffer and inode locks order the calls of several processes is not modelled.
- LogMachine.StepKeeps: models a crash between block writes; a torn write of a single block is not modelled.
- FileSystem.FileSystem.Writei: nothing is claimed about the blocks after the "out of blocks" panic except that none is free, because the kernel stops there.
- Writing.ChunkFitsIff: speaks of the bound on logged blocks; no bitmap layout is given on which a longer chunk logs that many.
- FileSystem.TruncateBudget: counts the blocks itrunc may log; no file is given whose truncation logs them all.
- InodeTable.EmptyImageGood: covers the image before mkfs adds the root directory and the user programs.
- Files.File.Filewrite: models one call with no other process writing to the same file between its chunks.
- Bio.Bcache.Bread: states the call when no other process holds the buffer's lock; where one does, the code sleeps between what Bget and a later Acquire and Fill state.
- MachineMemory.Machine.DeallocUvm: stated for sizes up to SHAREDBASE, as growproc and freevm call it; the rollback of access_shared_memory, which passes a window above it, frees frames it does not own.
- SharedMemory.AccessSharedMemory: nothing is stated of the machine after mappages has failed, because the rollback frees aliased frames that belong to the parent.
- Heap.Heap.Malloc: assumes that memory sbrk hands out does not lie below what it handed out before; what malloc does with an address that has no memory behind it is not modelled.
- ProcMachine.ExitAndWait: process ids are unbounded integers, so the wrap-around of nextpid is not modelled.
- Proc.ProcTable.Wait: freeing the kernel stack and the page directory of the reaped child is not part of the process table; FreeVm describes the latter.
