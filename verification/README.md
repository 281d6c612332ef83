# Verified models of the kernel's hard parts

Dafny models of an xv6 kernel with shared pages and semaphores, and of three of its user-level
pieces (the allocator, the shell's parser and grep's matcher), with proofs of what they promise.
`dafny verify dfyconfig.toml` checks everything.

The models follow the code branch by branch: what the code updates in place is a class whose methods
are proved against functions on values, and the properties are lemmas about those functions and
invariants that every method or step keeps. Protocols between processes, CPUs, interrupts and crashes
are state machines, and their theorems hold over every run.

| file | models |
|---|---|
| `Basics.dfy` | what several modules share: options, distinct lists, C strings, lock holders |
| `Log.dfy`, `Storage.dfy` | the redo log, first as code writing block by block, then as a state machine with group commit, caching, eviction and crashes |
| `BufferCache.dfy`, `IdeQueue.dfy` | the LRU buffer cache; the interrupt-driven disk queue and the memory disk it refines |
| `Bitmap.dfy`, `FileBlocks.dfy`, `FileSystem.dfy` | block bitmap, direct and indirect blocks, byte-range reads and writes, truncation |
| `Paths.dfy`, `Links.dfy` | path names, directories and link counts |
| `SleepWakeup.dfy`, `SleepLock.dfy`, `Semaphore.dfy`, `Pipe.dfy` | the sleep/wakeup protocol and its clients |
| `ProcTable.dfy` | fork, exit, wait, kill and the schedulers over the process table |
| `PageTable.dfy`, `UserMemory.dfy`, `SharedPages.dfy` | frame allocator, two-level page tables, user memory, shared pages |
| `Malloc.dfy`, `Shell.dfy`, `Grep.dfy` | malloc and free, the shell's parser, the pattern matcher |

Where the code does less than it seems to promise, the model keeps the code and the exact condition is
proved:

- `log_write` tests the size of the log without its lock. Two operations can pass the test together and
  write past a log area of LOGSIZE blocks or fewer, such as the one mkfs makes, and a crash then does not
  bring back the last commit; with more blocks, or one process, it always does (`Storage.CrashSafeIff`).
- `log_write` panics on a full log before it looks whether the block is in the log already. With two
  processes that is within reach of operations inside their budgets for a log area of any size
  (`Storage.PanicFreeIff`); for blocks not yet logged it is out of reach exactly when the area has more
  than LOGSIZE blocks, or than MAXOPBLOCKS with one process (`Storage.NewPanicFreeIff`).
- A writer killed on a full pipe returns without waking readers (a run from an empty pipe in
  `Pipe.KilledWriterLoses`, and the exact case in `Pipe.Ring.WriteRun`).
- A semaphore works exactly for initial values of at least 1, which `sem_init` does not check
  (`Semaphore.ExactIffPositive`).
- malloc's rounding overflows for requests close to 2^32 (`Malloc.RequestFits`), and sbrk is asked for
  what morecore means exactly below 2 GB (`Malloc.SbrkArgIs`).
- A buffer changed but neither logged nor written when it is released may lose the change
  (`BufferCache.Bcache.Brelse`).
- A failed `copyuvm` loses one frame exactly when memory runs out between a page and its page table
  (`UserMemory.PgDir.CopyUvm`).
- A file or directory made in, or a file linked into, a directory that has been removed breaks the link
  counts, and only there (`Links.LawNeedsLinked`, `Links.MkdirNeedsLinked`).

## Model

| member | source | states |
|---|---|---|
| `Log.WriteSplits` | log.c:22-30 | a block write changes exactly one of header, log slots and home blocks |
| `Log.PutHead` | log.c:101-113 | the header block read back lists exactly the logged numbers |
| `Log.EmptyHeaderRecoversHome` | log.c:115-122 | with an empty header recovery leaves the home blocks as they are |
| `Log.LogWriteInvisible` | log.c:177-190 | a crash after any write of a log slot before the commit point recovers to the old blocks |
| `Log.InstallInvisible` | log.c:69-82 | a crash after any single install recovers to the same blocks, so recovery can be cut and repeated |
| `Log.InstalledIsRecovered` | log.c:69-82 | once every logged block is installed, the home blocks are what recovery promised |
| `Log.CommitPoint` | log.c:192-202 | the one header write turns what recovery gives from the old blocks into all the cached ones |
| `Log.AbsorbKeeps` | log.c:222-231 | absorbing a block keeps the logged numbers distinct, in range and exactly one more block |
| `Log.FsLog.constructor` | log.c:53-66 | a machine just booted sees the image it booted on |
| `Log.FsLog.Bread` | bio.c:96-106 | reading gives the cached block or the disk's and changes nothing that is seen |
| `Log.FsLog.Bwrite` | bio.c:109-116 | one block write reaches the disk and unpins the buffer |
| `Log.FsLog.WriteLog` | log.c:177-190 | every logged block is copied to its slot, and every intermediate disk image recovers to the old blocks |
| `Log.FsLog.WriteHead` | log.c:101-113 | one block write makes the in-memory header the disk's |
| `Log.FsLog.InstallTrans` | log.c:69-82 | the home blocks become what recovery promises, and every intermediate image recovers to the same blocks |
| `Log.FsLog.Commit` | log.c:192-202 | commit is atomic: images before the header write recover to the old blocks, all from it on to the new ones |
| `Log.FsLog.ReadHead` | log.c:85-96 | the in-memory header becomes the disk's |
| `Log.FsLog.RecoverFromLog` | log.c:115-122 | recovery ends with exactly the recovered blocks at home and an empty log, and may be cut after any of its writes |
| `Log.FsLog.LogWrite` | log.c:213-233 | panics exactly on a full log or outside an operation; otherwise the block is logged once, pinned and seen |
| `Log.FsLog.BeginOp` | log.c:125-141 | an operation is let in exactly when nobody commits and its budget still fits |
| `Log.FsLog.EndOp` | log.c:145-174 | the last operation commits everything seen; an earlier one changes no block |
| `Storage.BudgetStep` | log.c:125-233 | every step of every process keeps logged blocks plus unused budgets within LOGSIZE and commits alone, for any log size |
| `Storage.GroupStep` | log.c:125-233 | every step keeps logged numbers distinct home blocks, budgets kept and every passed test of a running operation valid, for any log size |
| `Storage.RoomStep` | log.c:218-231 | with one process, or more than LOGSIZE blocks, there is still room when the append follows the unlocked test |
| `Storage.CopyStep` | log.c:177-190 | a step of write_log changes neither what is seen nor what a crash leaves |
| `Storage.HeaderStep` | log.c:192-202 | the header write makes what is seen what a crash leaves |
| `Storage.InstallStep` | log.c:69-82 | an install step, in commit or in recovery, changes neither |
| `Storage.EraseStep` | log.c:199-200 | erasing the header after installing changes neither |
| `Storage.CacheStep` | bio.c:61-93 | loading a block and evicting a clean one change neither |
| `Storage.AppendStep` | log.c:223-232 | the append under the lock, with room left, changes only what is seen, at its block |
| `Storage.OtherStep` | log.c:125-221 | beginning, testing for room, ending, crashing and reading the header keep the invariant and do what the specification says |
| `Storage.StepPreserves` | log.c:69-233 | where the unlocked test is enough, every step keeps the invariant and is a step of the two-level specification |
| `Storage.RunRefines` | log.c:69-233 | every such run, with test and append of log_write apart and crashes also inside recovery, refines that specification |
| `Storage.CrashKeepsLastCommit` | log.c:115-122 | in every reachable state of such a run a crash brings back exactly the blocks of the last header write |
| `Storage.CrashSafeIff` | log.c:213-233 | with at least LOGSIZE home blocks, crashes always bring back the last commit if and only if there is at most one process, no room at all, or a log area of more than LOGSIZE blocks |
| `Storage.DurableStep` | log.c:192-202 | only the header write changes what a crash leaves |
| `Storage.GroupCommitSafe` | log.c:125-233 | over all interleavings and log sizes logged numbers are distinct, budgets fit in LOGSIZE, commit runs with no operation outstanding, and a panic means a full log |
| `Storage.LastEndCommits` | log.c:145-174 | over every run, any number of processes and any log size: with no operation inside and nobody committing the log is empty, so the last operation to end has committed |
| `Storage.EndedSurvives` | log.c:145-202 | where the unlocked test is enough, what was seen when all operations had ended comes back after a crash at any time before the next header write |
| `Storage.AtMostThree` | log.c:125-141 | in every run at most three operations are inside at once |
| `Storage.ThreeAtOnce` | log.c:125-141 | three operations can be inside at once |
| `Storage.NewPanicFreeIff` | log.c:218-219 | with at least LOGSIZE home blocks, operations within budget never panic on a block not yet logged if and only if there is no process, more than LOGSIZE blocks, or one process and more than MAXOPBLOCKS |
| `Storage.PanicFreeIff` | log.c:218-228 | with at least LOGSIZE home blocks, they never panic on any call, absorbed ones too, if and only if there is no process, or one and more than MAXOPBLOCKS + 1 blocks |
| `BufferCache.PushFront` | bio.c:49-55 | linking a buffer in at the front keeps the list a circle through exactly the listed buffers |
| `BufferCache.Unlinked` | bio.c:132-133 | unlinking a buffer keeps the list a circle without exactly that buffer |
| `BufferCache.SameKeyKeeps` | bio.c:96-141 | a change of one buffer that keeps its block keeps the cache and the disk one logical disk |
| `BufferCache.RecycleKeeps` | bio.c:81-90 | giving a clean unused buffer to another block loses no value of any block |
| `BufferCache.NotCached` | bio.c:96-106 | a block whose only buffer is not valid has its last value on disk |
| `BufferCache.ReleaseIff` | bio.c:120-131 | unlocking a buffer keeps the cache and the disk one logical disk exactly when a change of its holder is logged or on disk |
| `BufferCache.Bcache.constructor` | bio.c:38-56 | the list holds every buffer once and the logical disk is the disk |
| `BufferCache.Bcache.Lookup` | bio.c:69-76 | finds the buffer of the block, or there is none |
| `BufferCache.Bcache.Victim` | bio.c:81-91 | finds the least recently used buffer that is unused and clean |
| `BufferCache.Bcache.Bget` | bio.c:61-93 | one buffer per block; a dirty or used one is never recycled; panics exactly when the block is not cached and no buffer is free |
| `BufferCache.Bcache.Acquire` | sleeplock.c:22-32 | the waiter that gets the lock holds the buffer |
| `BufferCache.Bcache.Bread` | bio.c:96-106 | the holder sees the value last given to the block |
| `BufferCache.Bcache.Change` | log.c:204-212 | what the holder puts into its buffer is what later readers of the block see |
| `BufferCache.Bcache.MarkDirty` | log.c:231 | a logged buffer is pinned and changes nothing else |
| `BufferCache.Bcache.Bwrite` | bio.c:109-116 | the disk gets the buffer's contents, at that block only |
| `BufferCache.Bcache.Brelse` | bio.c:120-141 | the last user moves the buffer to the front, all others keep their order; the logical disk survives exactly when the holder logged or wrote what it changed |
| `IdeQueue.MemIde.Iderw` | memide.c:38-60 | the buffer ends valid, clean and equal to its disk block, and no other block changes |
| `IdeQueue.ReadsLatest` | memide.c:38-60 | a read gives the data of the last write before it to its block, or what the disk held at first |
| `IdeQueue.ServedNext` | ide.c:103-131 | what the interrupt handler finds for a finished request is what the synchronous disk gives in the same order |
| `IdeQueue.Appended` | ide.c:152-155 | linking a request in at the end keeps the list of the queue |
| `IdeQueue.WaitsOn` | ide.c:113-128 | when the head is done the rest of the queue waits in order with its first request under way |
| `IdeQueue.SyncedFinish` | ide.c:73-100 | what the device carries out for the head leaves every served buffer equal to its block |
| `IdeQueue.Interrupted` | ide.c:103-131 | an interrupt finds the head's own command done and keeps arrival order, one start per request, the synchronous disk's results and every served buffer equal to its block |
| `IdeQueue.Ide.LinkIn` | ide.c:152-155 | the walk to the end of the queue appends the buffer |
| `IdeQueue.Ide.Submit` | ide.c:137-168 | the request arrives last and is started exactly when the queue was empty |
| `IdeQueue.Ide.Finish` | ide.c:73-100 | the disk becomes what the synchronous disk makes of the head's request |
| `IdeQueue.Ide.Ideintr` | ide.c:103-131 | the head completes valid, clean and equal to its block, is recorded as served, the next request is started, and no other buffer changes |
| `IdeQueue.Ide.Touch` | bio.c:81-90 | a holder's change, or a new block for the buffer, keeps all of it as long as no other buffer has that block |
| `IdeQueue.Ide.Waited` | ide.c:162-164 | iderw returns exactly once its buffer has left the queue, valid, clean, equal to its block and to what the synchronous disk gave for that request |
| `Bitmap.SameBit` | fs.c:63-67 | bitmap block, byte and bit identify one block number |
| `Bitmap.OneBit` | fs.c:56-96 | marking or freeing a block changes exactly its bit |
| `Bitmap.FreeBitsAfter` | fs.c:56-96 | marking a free block leaves one clear bit less, freeing a marked one leaves one more |
| `Bitmap.MarkedBits` | mkfs.c:238-251 | the bitmap mkfs writes has set exactly the bits of the first blocks |
| `FileBlocks.WordOfPut` | fs.c:390-394 | storing one address in an indirect block changes that address only |
| `FileBlocks.WriteKeeps` | fs.c:499-505 | overwriting a data block changes no address and no other block of any file |
| `FileBlocks.AttachKeeps` | fs.c:373-401 | giving a free block to one place keeps ownership exclusive, adds a zero block there and changes no contents |
| `FileBlocks.FreeNext` | fs.c:415-432 | freeing the next block of a file finds its bit set, and clears exactly it |
| `FileBlocks.TruncateKeeps` | fs.c:408-436 | with exactly a file's bits cleared it owns nothing and every other file is as before |
| `FileSystem.OwnershipExclusive` | fs.c:56-96 | a bit is set for exactly the metadata and the blocks of files, and each of those is at one place of one file |
| `FileSystem.FormattedOk` | mkfs.c:87-113 | a formatted disk is valid: exactly the metadata is marked and no file has a block |
| `FileSystem.AttachTwiceMaps` | fs.c:386-397 | allocating the indirect block and then the data block maps the block and changes no contents |
| `FileSystem.ProgressStep` | fs.c:499-505 | one turn of writei's loop extends the written part and keeps every other byte of every file |
| `FileSystem.GrowthStep` | fs.c:373-401 | what bmap allocates for the next block of a write is what the growth of the file takes, indirect block included |
| `FileSystem.ProgressDone` | fs.c:507-511 | after the loop the contents are the old ones with the source written in, and other files are untouched |
| `FileSystem.TruncateDone` | fs.c:408-436 | after truncation the file is empty and exactly its bits are clear |
| `FileSystem.NoWrap` | fs.c:465-466 | the unsigned overflow test holds exactly when offset plus length passes 2^32 |
| `FileSystem.Disk.constructor` | mkfs.c:87-113 | a formatted disk is valid, every file is empty and exactly the metadata is marked |
| `FileSystem.Disk.Balloc` | fs.c:56-78 | the first free block is marked and zeroed, with one clear bit less; panics exactly on a full disk |
| `FileSystem.Disk.Bzero` | fs.c:42-51 | every address in the block reads 0, so a new indirect block has no blocks; no other block changes |
| `FileSystem.Disk.Bfree` | fs.c:81-96 | clears that bit only, with one clear bit more; panics exactly when it is clear |
| `FileSystem.Disk.Bmap` | fs.c:373-401 | the block's address, allocating it and the indirect block when missing, without changing any contents; panics exactly out of range or with fewer clear bits than blocks missing, and takes exactly those |
| `FileSystem.Disk.Readi` | fs.c:453-477 | exactly the bytes of the range that exist, errors exactly for a bad range, nothing changes |
| `FileSystem.Disk.Writei` | fs.c:482-512 | the contents become prefix, source, suffix; other files unchanged; a rejected call changes nothing; panics exactly when the range is accepted and the blocks the file still lacks for it outnumber the clear bits, so never in a range whose blocks are there; takes exactly those blocks |
| `FileSystem.Disk.WriteThenRead` | fs.c:453-512 | reading the range just written gives the bytes written; refused exactly for a bad range, panics exactly as the write does |
| `FileSystem.Disk.FreeIndirect` | fs.c:420-432 | frees exactly the blocks the indirect block lists and the indirect block |
| `FileSystem.Disk.Itrunc` | fs.c:408-436 | the file ends empty, exactly its bits are cleared and counted, and the free-block panic cannot happen |
| `Paths.PastSlashes` | fs.c:602-603 | stops at the first character that is not a slash |
| `Paths.PastName` | fs.c:607-608 | stops at the end of the element |
| `Paths.Skipelem` | fs.c:596-619 | takes exactly the first element, cut to DIRSIZ, and leaves the others |
| `Paths.SpellReads` | fs.c:584-619 | every spelling of a list of names, with any number of slashes, reads back as that list |
| `Paths.CutAllIs` | fs.c:610-615 | names of up to DIRSIZ characters are kept, longer ones are cut to DIRSIZ |
| `Links.NamedIsLive` | fs.c:525-549 | an entry of a linked directory names an inode in use that has a link |
| `Links.FileKeeps` | sysfile.c:118-165 | adding or removing a file's entry together with its count keeps the law and the tree |
| `Links.LawNeedsLinked` | sysfile.c:118-284 | an entry for a new file or a further link keeps the law exactly when its directory is linked |
| `Links.MkdirNeedsLinked` | sysfile.c:264-279 | mkdir keeps the law exactly when the parent is linked |
| `Links.MakeDirKeeps` | sysfile.c:264-279 | a new directory, its dots and its parent's count keep the law and the tree |
| `Links.EmptyIsLeaf` | sysfile.c:168-181 | an empty directory is linked under the directory naming it and is no linked directory's parent |
| `Links.NamedOnce` | sysfile.c:211-228 | an empty directory has exactly one link |
| `Links.ParentStays` | sysfile.c:221-224 | the parent of a removed directory keeps a link |
| `Links.DropDirKeeps` | sysfile.c:184-239 | removing an empty directory keeps the law and the tree and leaves it with no link |
| `Links.ReclaimKeeps` | fs.c:332-357 | freeing an inode without links keeps the law and the tree |
| `Links.FindPut` | fs.c:552-579 | a new entry is found under its name and no other lookup changes |
| `Links.FindCleared` | sysfile.c:218-220 | a removed entry is not found and no other lookup changes |
| `Links.ParentThenName` | fs.c:625-671 | nameiparent followed by a lookup is namei |
| `Links.WalkAlive` | fs.c:625-656 | a path from a linked inode leads only to inodes in use that have links, and cannot panic |
| `Links.AddedIsFound` | fs.c:552-579 | once an entry has been added, its path leads to the inode it names |
| `Links.RemovedIsGone` | sysfile.c:217-220 | once an entry has been removed, its path leads nowhere |
| `Links.CreatedIsFound` | sysfile.c:241-284 | the path given to create leads to the inode it returns |
| `Links.LinkedIsFound` | sysfile.c:118-165 | after sys_link the old and the new path lead to the same file |
| `Links.UnlinkedIsGone` | sysfile.c:184-239 | after sys_unlink the path leads nowhere |
| `Links.AbsoluteCreate` | fs.c:630-633 | create on an absolute path does the same from every current directory |
| `Links.AbsoluteLink` | fs.c:630-633 | sys_link on two absolute paths does the same from every current directory |
| `Links.AbsoluteUnlink` | fs.c:630-633 | sys_unlink on an absolute path does the same from every current directory |
| `Links.Inodes.constructor` | mkfs.c:117-128 | a formatted root directory satisfies the law |
| `Links.Inodes.Dirlookup` | fs.c:525-549 | the first entry in use with that name, or none |
| `Links.Inodes.Dirlink` | fs.c:552-579 | refuses a name that is there; otherwise fills the first free entry or appends |
| `Links.Inodes.Isdirempty` | sysfile.c:168-181 | true exactly when nothing but the two dots is in use |
| `Links.Inodes.Ialloc` | fs.c:195-214 | the first free inode, or none |
| `Links.Inodes.Namex` | fs.c:625-656 | a path that begins with a slash is walked from the root whatever the current directory is, any other from the current directory, and the empty path is that directory; the elements are followed to the end or to the parent of the last; panics exactly when the walk meets an inode not in use |
| `Links.Inodes.NewDir` | sysfile.c:264-279 | builds exactly the new directory with its dots and raises the parent's count |
| `Links.Inodes.Create` | sysfile.c:241-284 | from any current directory, removed ones too: returns the existing file, refuses, or makes exactly the new inode and entry; keeps the law exactly in a linked directory; panics exactly when the walk does or without a free inode |
| `Links.Inodes.Link` | sysfile.c:118-165 | succeeds exactly for a non-directory and a new name, and a failed call restores the count; keeps the law exactly in a linked directory |
| `Links.Inodes.Unlink` | sysfile.c:184-239 | keeps the law from any current directory; succeeds exactly for a name other than the dots that is a file or an empty directory; the panic on a zero count cannot happen |
| `Links.Inodes.Iput` | fs.c:332-357 | frees the inode exactly when it has no link and this was the last reference |
| `SleepWakeup.InvStep` | proc.c:433-490 | every step of sleep, wakeup, the locks and the schedulers keeps the protocol's invariant |
| `SleepWakeup.RunInv` | proc.c:433-490 | the invariant holds in every reachable state, for any number of processes and CPUs |
| `SleepWakeup.NoLostWakeup` | proc.c:433-490 | a process asleep without reason is one the holder of the client's lock has still to wake |
| `SleepWakeup.ClientInv` | spinlock.c:24-68 | what every critical section keeps holds in every reachable state |
| `SleepLock.Lock.Acquiresleep` | sleeplock.c:22-32 | sleeps exactly when locked; otherwise the caller takes the lock, as a step of the client |
| `SleepLock.Lock.Releasesleep` | sleeplock.c:34-42 | the lock is free, as a step of the client |
| `SleepLock.MutualExclusion` | sleeplock.c:22-42 | over every interleaving at most one process holds the lock, and pid names it |
| `SleepLock.SleepersHaveHolder` | sleeplock.c:22-42 | nobody sleeps on the lock while it is free |
| `Semaphore.SemT.constructor` | semaphores.c:10-18 | with nobody holding it, value and flags are right exactly when the initial value is at least 1 |
| `Semaphore.SemT.SemUp` | semaphores.c:20-32 | one more unit, unlocked, inactive when all are back |
| `Semaphore.SemT.SemDownFirst` | semaphores.c:37-46 | waits exactly when locked, else takes a unit and locks on the last |
| `Semaphore.SemT.SemDownAgain` | semaphores.c:50-59 | the same after a return of sleep |
| `Semaphore.SemT.IsActive` | semaphores.c:63-67 | on a semaphore with right flags, 1 exactly when somebody holds it |
| `Semaphore.SemaphoreExact` | semaphores.c:10-61 | over every interleaving locked means value 0, active means value below maximum, holders are maximum minus value and never more than it |
| `Semaphore.NobodySleepsUnlocked` | semaphores.c:34-61 | nobody sleeps on the semaphore while a unit can be taken |
| `Semaphore.ExactIffPositive` | semaphores.c:10-18 | the semaphore is exact under every sequence of operations if and only if its initial value is at least 1 |
| `Pipe.Wrapped` | pipe.c:85-114 | the wrapped counters tell empty and full apart as the unbounded ones do |
| `Pipe.RingIndex` | pipe.c:93-116 | the ring index survives the wrap of the 32-bit counters |
| `Pipe.Ring.PutByte` | pipe.c:93 | stores the byte after all stored before |
| `Pipe.Ring.GetByte` | pipe.c:116 | delivers the oldest byte not yet delivered |
| `Pipe.Ring.WriteRun` | pipe.c:78-98 | stores bytes in order until done or full, as a step of the client; sleeps exactly on a full pipe with a reader when not killed, fails exactly on a full pipe without one or when killed, and owes no wakeup but in the killed case stated exactly |
| `Pipe.Ring.ReadRun` | pipe.c:100-121 | delivers the oldest bytes, as many as there are up to n, as a step of the client; on an empty open pipe it fails exactly when killed and sleeps exactly when not, and it owes no wakeup |
| `Pipe.Ring.Close` | pipe.c:59-75 | closes that end, wakes the other, frees exactly when both are closed |
| `Pipe.StepFifo` | pipe.c:59-121 | storing into free room, delivering the next bytes and closing an end keep delivered bytes a prefix of stored ones that fits the ring |
| `Pipe.FifoAlways` | pipe.c:59-121 | over every interleaving of readers and writers, bytes delivered are a prefix of bytes stored and fit the ring |
| `Pipe.SleepersHaveReason` | pipe.c:78-121 | with the lock free a sleeping reader faces an empty pipe and a sleeping writer a full one |
| `Pipe.KilledWriterLoses` | pipe.c:86-89 | a run from the empty pipe in which a reader sleeps and a writer killed after filling the pipe returns, leaving the reader asleep in front of a full pipe with the lock free |
| `ProcTable.InvStep` | proc.c:192-408 | every step of fork, exit, wait, kill, yield and the schedulers keeps the table's invariant |
| `ProcTable.RunInv` | proc.c:192-408 | the invariant holds in every reachable state |
| `ProcTable.RunningMatchesCpus` | proc.c:338-398 | with the table lock free, RUNNING processes and CPUs with a process correspond one to one |
| `ProcTable.FamiliesSound` | proc.c:241-328 | every live process but init has a live parent, and nobody sleeps in wait over a ZOMBIE child |
| `ProcTable.WaitFailsRightly` | proc.c:288-328 | wait gives up for lack of children only when there are none |
| `ProcTable.KilledNeverWaits` | proc.c:494-512 | in every reachable state no killed process sleeps in wait |
| `ProcTable.KillLasts` | proc.c:494-512 | kill wakes its target, which stays marked and out of wait's sleep until its slot is given back |
| `PageTable.PutView` | vm.c:62-82 | writing one entry changes one page of the flat map |
| `PageTable.TableView` | vm.c:47-54 | a new table changes nothing in the flat map |
| `PageTable.OneMapping` | vm.c:257-281 | no frame is mapped at two pages, so none is freed twice |
| `PageTable.Kmem.Freerange` | kalloc.c:46-53 | frees exactly the frames of the range, the last one first in line |
| `PageTable.Kmem.Kalloc` | kalloc.c:82-95 | takes the first free frame, or answers null exactly when there is none |
| `PageTable.Kmem.Kfree` | kalloc.c:59-77 | the frame is junk and first in line; every frame stays free or used, never both |
| `UserMemory.JumpedAbsent` | vm.c:269-270 | the pages the jump skips are all unmapped |
| `UserMemory.FreedElements` | vm.c:267-279 | a page-by-page scan frees exactly the frames mapped in the range |
| `UserMemory.NextTableNeeded` | vm.c:37-57 | a page needs a new table exactly when it is the first of its table entered and had none |
| `UserMemory.GrowStep` | vm.c:234-249 | entering one more page keeps all that holds of the pages entered so far |
| `UserMemory.GrowUndone` | vm.c:236-248 | undoing a partial growth restores the map and gives back every data frame |
| `UserMemory.GrowThenShrink` | vm.c:223-281 | growing and shrinking back gives the same flat map |
| `UserMemory.EnteredFresh` | vm.c:317-345 | pages entered lie in frames nobody used before |
| `UserMemory.CopyUndone` | vm.c:342-344 | what a failed copy leaves in use: nothing, or the one frame taken last |
| `UserMemory.PgDir.Walk` | vm.c:37-57 | finds or makes the table without changing the flat map; fails exactly without table and memory |
| `UserMemory.PgDir.MapPage` | vm.c:62-82 | for one page: maps exactly it; panics exactly on a mapped one; fails exactly for lack of a table |
| `UserMemory.PgDir.MapPages` | vm.c:62-82 | maps the pages to consecutive frames; succeeds exactly when all are unmapped and the tables missing can be had, panics exactly when it meets a mapped page before it lacks a table, and says which pages are mapped when it stops |
| `UserMemory.PgDir.Enter` | vm.c:235-249 | takes, fills and maps a frame, or says exactly what was missing |
| `UserMemory.PgDir.DeallocUvm` | vm.c:257-281 | clears exactly the range and frees exactly what a page-by-page scan frees, in that order |
| `UserMemory.PgDir.AllocUvm` | vm.c:223-251 | succeeds exactly when the frames needed are there, with zeroed writable user pages in fresh frames; otherwise every data frame is given back; panics exactly when it meets a mapped page with a frame in hand |
| `UserMemory.PgDir.FreeVm` | vm.c:285-300 | exactly the directory's pages, tables and own frame become free |
| `UserMemory.PgDir.CopyUvm` | vm.c:317-345 | without a directory from setupkvm it answers null and changes nothing; panics exactly when it meets a page that is not there before memory runs out; else it succeeds exactly when the frames needed are there, with equal contents and flags in fresh frames, and a failed copy loses a frame exactly when a table was missing |
| `SharedPages.KeyKept` | shm.c:176-177 | a key copied into a cleared array reads back as that key |
| `SharedPages.AttachStep` | shm.c:139-146 | one more holder in a free slot keeps every counter equal to the number of holders |
| `SharedPages.ReleaseStep` | shm.c:212-233 | one holder fewer keeps every counter equal, and the last one clears the entry |
| `SharedPages.RoomForOne` | shm.c:297-307 | a process without a given page always has a free slot, so find_pos does not answer -1 |
| `SharedPages.VaLayout` | shm.c:138 | slot addresses are page aligned, right below KERNBASE, in the directory entry of the window and each at its own table entry |
| `SharedPages.TableTaken` | shm.c:139-140 | a frame taken for the page table of a process's window keeps the invariant |
| `SharedPages.TableReturned` | vm.c:285-300 | giving that table back when the process is reaped keeps the invariant |
| `SharedPages.SameKeySameFrame` | shm.c:96-189 | two processes map the same frame exactly when they use the same key |
| `SharedPages.OneAddressOnePage` | shm.c:96-189 | within a process two addresses are equal exactly when their keys are |
| `SharedPages.MappedIsCounted` | shm.c:96-344 | no window maps a free frame, and what it maps is counted with 1 to 16 holders |
| `SharedPages.KeptWhileHeld` | shm.c:203-246 | a shared frame is in use exactly as long as some process maps it |
| `SharedPages.ReapFreesNoShared` | proc.c:301-320 | freevm called by wait finds no shared frame |
| `SharedPages.Shm.constructor` | shm.c:81-94 | an empty table and no holders satisfy the invariant |
| `SharedPages.Shm.AllocProc` | proc.c:117-124 | a new process holds nothing and has no trace of an earlier one |
| `SharedPages.Shm.FindPos` | shm.c:297-307 | the first free slot, or -1 when there is none |
| `SharedPages.Shm.Search` | shm.c:105-117 | the entry of the key, or the first free entry |
| `SharedPages.Shm.GetTable` | vm.c:37-57 | the window has a table afterwards; fails exactly when there was none and no frame is free |
| `SharedPages.Shm.Take` | shm.c:141-146 | fills a slot that was not mapped and raises the counter, once the window has its table |
| `SharedPages.Shm.Join` | shm.c:135-150 | the caller maps the page of that key and its counter is one higher; panics exactly when the window has no table and no frame is free |
| `SharedPages.Shm.Create` | shm.c:165-186 | a zeroed page under the new key with one holder; panics exactly with fewer free frames than the page and a missing window table take |
| `SharedPages.Shm.Shmget` | shm.c:96-189 | the address returned is a page of the window that maps the page of the key; exact cases for held, known, capped, full and out of memory, with the frames taken |
| `SharedPages.Shm.SysShmget` | sysproc.c:96-104 | refuses an empty key and one longer than 16 characters, changing nothing; any other key has shmget's exact cases |
| `SharedPages.Shm.Fork` | shm.c:312-344 | the child maps the same pages at the same addresses, each with one holder more, with a window table of its own; panics exactly when that table is needed and no frame is free, stops exactly at a page with 16 holders |
| `SharedPages.Shm.CopySlot` | shm.c:317-341 | one more slot of the child maps the parent's page, counted; stops exactly at 16 holders |
| `SharedPages.Shm.Drop` | shm.c:212-233 | the last holder frees page and entry, any other counts down |
| `SharedPages.Shm.LeaveSlot` | shm.c:209-243 | lets go of exactly one slot and its entry |
| `SharedPages.Shm.LeaveAll` | shm.c:203-246 | every slot is let go, and a frame is freed exactly when its counter was 1 |
| `SharedPages.Shm.Exit` | proc.c:241-284 | the zombie holds nothing, the invariant holds, and frames without another holder are free |
| `SharedPages.Shm.Reap` | proc.c:301-320 | the slot can be used again, its window table is free, no other frame is touched and the invariant holds |
| `Malloc.ReleasedOk` | umalloc.c:24-44 | freeing keeps the list ordered, disjoint and without touching neighbours, with the same units and other blocks |
| `Malloc.TakeWholeOk` | umalloc.c:76-77 | taking a whole free block keeps the heap proper and adds exactly that block to the held ones |
| `Malloc.TakeTailOk` | umalloc.c:78-82 | taking a tail keeps the heap proper and adds exactly that tail |
| `Malloc.GrantedOk` | umalloc.c:46-61 | units from sbrk become one held block and change no other |
| `Malloc.GrantFits` | umalloc.c:86-88 | after morecore the rover reaches a block that is big enough |
| `Malloc.AtPlace` | umalloc.c:30-32 | the loop's test with its wrap holds exactly at the last free block below |
| `Malloc.RequestFits` | umalloc.c:69 | the units asked for hold the bytes exactly when the rounding does not overflow, and one unit fewer never does |
| `Malloc.SbrkArgIs` | umalloc.c:54 | the signed 32-bit argument of sbrk is the number of bytes meant exactly below 2 GB |
| `Malloc.Allocator.Locate` | umalloc.c:24-32 | the search goes round the circle to the last free block below |
| `Malloc.Allocator.Free` | umalloc.c:24-44 | exactly that block is no longer held, and every other keeps address and size |
| `Malloc.Allocator.Morecore` | umalloc.c:46-61 | asks for the units wanted or 4096, whichever is more, and adds exactly them, or fails changing nothing; a grant is of the bytes sbrk was asked for |
| `Malloc.Allocator.Carve` | umalloc.c:75-84 | takes exactly the units asked for from one free block |
| `Malloc.Allocator.Malloc` | umalloc.c:63-90 | returns a new block of the units asked for, disjoint from all others; asks sbrk only when nothing fits, and the search ends |
| `Shell.RoundTrip` | sh.c:327-446 | every command has a line that parses to it |
| `Shell.TextReads` | sh.c:265-308 | tokens written with any white space, and none where none is needed, are read back as those tokens |
| `Shell.SpellsText` | sh.c:265-308 | a line that is read as some tokens is one of their spellings |
| `Shell.ItemsRead` | sh.c:374-446 | words and redirections in any order, before, between and after, are all kept, each kind in its order; `>` and `>>` open for output |
| `Shell.LineReads` | sh.c:327-446 | every line of the language (words, redirections, bars, ampersands, semicolons, parentheses, any white space) is parsed to the command it means |
| `Shell.AcceptedIsLine` | sh.c:327-446 | nothing else is accepted: every line that parses is a line of the language and means what was parsed |
| `Shell.EndsOutsideWords` | sh.c:448-493 | nulterminate writes inside no word |
| `Shell.CutReads` | sh.c:448-493 | after nulterminate the words are C strings spelling the words of the line |
| `Shell.Parser.GetTok` | sh.c:265-308 | the next token and its bounds |
| `Shell.Parser.PeekTok` | sh.c:310-320 | whether the next character is one of those, moving past white space only |
| `Shell.Parser.ParseRedirsAt` | sh.c:374-397 | the redirections that follow, or the panic |
| `Shell.Parser.ParseLineAt` | sh.c:344-359 | the pipes, backgrounds and lists of the grammar; ends on every input |
| `Shell.Parser.ParsePipeAt` | sh.c:361-372 | commands joined by bars, to the right |
| `Shell.Parser.ParseBlockAt` | sh.c:399-413 | a parenthesised command and its redirections |
| `Shell.Parser.ParseExecAt` | sh.c:415-446 | words and redirections in any order, or a block |
| `Shell.NulTerminate` | sh.c:448-493 | writes a NUL at exactly the ends of the words |
| `Shell.ParseBuffer` | sh.c:327-342 | returns a command exactly for the lines of the language, with the words readable in the buffer as the line means them; panics on every other |
| `Grep.MatchOne` | grep.c:93-94 | a single pattern character consumes one fitting character |
| `Grep.MatchStarred` | grep.c:99-106 | a starred character consumes any number of fitting characters |
| `Grep.ParseWritten` | grep.c:85-96 | every pattern is the written form of what it is read as |
| `Grep.WrittenParses` | grep.c:85-96 | every list of atoms that can be written is read back |
| `Grep.EndMark` | grep.c:91-92 | a dollar sign is the end mark exactly in last position |
| `Grep.MatchHere` | grep.c:85-96 | true exactly when the pattern matches at that place |
| `Grep.MatchStar` | grep.c:99-106 | true exactly when some number of fitting characters is followed by a match |
| `Grep.Match` | grep.c:72-82 | true exactly on the texts of the pattern's language, anchored or not |

## Left out

- Boot, traps, devices, port reads and writes, device errors and assembly: hardware; a context switch is one step and the disk finishes what it was told.
- exec.c's loading of a program image, the checks of system call arguments against the process's size, the open-file table with its offsets and reference counts, console editing, and the user programs other than the shell's parser, the allocator and grep's matcher. strncmp, memmove and strncpy are taken by their contracts.
- Scheduler fairness and liveness, memory ordering: the state machines state safety under sequential consistency.
- pushcli and popcli: interrupts off is part of a lock step in the models of sleep, wakeup and the process table.
- Inode cache slots (iget, idup, ilock): paths and files are modelled on inode numbers, and the reference count is a parameter of `Links.Inodes.Iput`.
- Crashes inside the file-system model: FileSystem.dfy and Links.dfy work above the log, which makes their operations atomic.
- The per-operation block budget of filewrite: it is a hypothesis of Storage.dfy, and one chunk of filewrite can exceed it.
- mkfs's own writing of the first files into the image: `FileSystem.Disk.constructor` is the formatted image before them.
- Device inodes in readi and writei.
- Link counts as 16-bit numbers, a directory file reaching its greatest size, and two devices in sys_link.
- IdeQueue.Ide.Ideintr: not stated for an interrupt before the device has finished its command.
- IdeQueue.Ide.Touch: takes it that no other buffer has the new block; bget gives that, as `BufferCache.Bcache.Bget` states.
- UserMemory.PgDir.MapPage: one page; `UserMemory.PgDir.MapPages` is the whole call.
- UserMemory.PgDir.CopyUvm: what setupkvm itself does, the kernel half of a page directory included, is not modelled; its answer is a parameter.
- Address bits: pages and frames are numbers, entry flags are opaque, and page-table pages are values, not memory.
- SharedPages.Shm.Fork: counts free frames as they are after copyuvm; after a panic or a page with 16 holders stops it, nothing is stated.
- SharedPages.Shm.Shmget: for a key sys_shmget lets through; after its exit on a full table and its panics nothing is stated.
- The window of shared pages is taken to lie above the process's memory, in a page table of its own; sbrk into it would reach mappages' panic.
- shmrem by key and exec with shared pages: they leave a slot's bitmap or key behind, or drop mappings without counting.
- exit's comparison of 16 bytes of the key "-1" is taken to succeed, and manage_fork, which takes no lock, to run alone.
- Semaphores at different addresses in different processes: all users share one address, as fork gives it.
- Malloc.Allocator.Malloc: sbrk's answer is a parameter, aligned and above all earlier core; a request for which sbrk's argument would not be the bytes meant is stated only for the case that sbrk fails.
- Malloc.Allocator.Morecore: the same.
- The shell's runcmd and line reader, and grep's buffer loop.
