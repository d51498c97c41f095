# Verified model of xv6-riscv

A Dafny model of the parts of the xv6-riscv kernel, and of its user-level
allocator, shell and grep, in which correctness is hardest to see, with proofs
of what they promise. Nothing here runs the original; `dafny verify dfyconfig.toml` checks
the whole project.

- **Storage.** `Blocks` (bytes, words and bits of a block), `LogDisk`,
  `LogProtocol`, `LogBudget` and `LogCode` (the redo log: disk images,
  interleaved operations with crashes, log space, and the code), `BufferCache`
  (the LRU ring and its agreement with a flat disk), `FsState`, `InodeBlocks`
  and `FsCode` (block allocation, files as byte sequences, inodes on disk,
  `filewrite`), `FilewriteCrash` (crashes during `filewrite`, through file
  system, log and recovery), `InodeTable` and `InodeHistory` (the inode cache
  under races), `Virtio`, `VirtioCode` and `VirtioBlocks` (the disk driver, its
  device, and the disk of blocks they make).
- **Processes.** `SleepWakeup` (sleep and wakeup for any conditions),
  `SleepLock` (the sleep-lock, as a client of it), `ExitWait` and `ExitStatus`
  (fork, exit, wait, reparenting), interleaved at lock granularity.
- **Memory.** `PageTable`, `Sv39`, `VmCode`, `VmBytes` (page tables as maps, what
  the hardware reads in them, and copying through them); `Umalloc`, `UmallocCode` (the user-level allocator).
- **Pipes and parsing.** `Pipe`; `Shell`, `ShellCode`, `ShellText`,
  `ShellPrint`, `ShellGrammar` (the shell parser and its grammar); `Grep` (the pattern matcher).
- **Helpers.** `Numbers` (counting sets and sequences of numbers).

Protocols are step systems over values: a state, the steps the code can take
between lock operations or disk writes, an invariant that every step keeps, and
theorems about every state of every run. Code that updates things in place is a
class whose methods are proved against functions of the old state; those
functions are the ones the protocol uses. I/O, user memory that may fault, and
`sbrk` appear as parameters.

Results that are not what one might expect from the comments in the code:

- `piperead` takes a byte out of the pipe before copying it to the user, so a
  failing copy loses that byte (`Pipe.Buffer.Read`).
- A copy from user memory that fails part-way leaves its bytes in the buffer of
  a file block without logging it, exactly when `FsCode.TornBlock` says; an
  input is in `FsCode.Files.FaultingOverwrite`. An operation that ends like that
  can be split by a crash (`LogProtocol.UnloggedWriteSplits`), so crash
  atomicity is stated for all runs with those blocks excepted
  (`LogProtocol.CrashAtomicity`, `LogProtocol.LeftExactly`) and without
  exception for runs in which every operation logs what it modifies
  (`LogProtocol.OperationsAreAtomic`). What `write` reports is nevertheless
  exactly what its commit makes durable (`FsCode.CommitsReported`).
- `ilock` can panic: a lookup through a directory entry that names a freed inode,
  as `..` of a removed directory can, reaches it (`InodeTable.StaleLookupPanics`;
  exactly when, `InodeTable.PanicsExactly` and `InodeTable.LookupPanicsExactly`).
- `copyout` returns -1 at the end of the address space, `copyin` panics there
  (`VmBytes.CopyIn`).
- `mappages` keeps what it has mapped when it fails (`VmCode.Memory.MapPages`);
  `uvmcopy` undoes all of its own (`VmCode.Memory.UvmCopy`).
- Block numbers from 2^31 on are sent to the disk under the sectors of others, as
  the product is 32 bits wide (`VirtioBlocks.SectorIsOffset`).
- `morecore` multiplies in 64 bits and passes an `int`: requests above
  `INT_MAX - 31` bytes ask `sbrk` for another amount (`UmallocCode.SbrkArgExact`).

## Model

| member | source | states |
|---|---|---|
| `LogDisk.ReadWrittenHead` | xv6-riscv/kernel/log.c:86-114 | read_head decodes from the header block exactly the block list write_head encoded there, whatever the block held before |
| `LogDisk.CopyingIsInvisible` | xv6-riscv/kernel/log.c:178-191 | after any number of write_log copies with an empty header, recovery would still produce the old home blocks |
| `LogDisk.HeadCommits` | xv6-riscv/kernel/log.c:102-114 | once the copies are in the log, the single header write makes recovery produce the home blocks with exactly the listed ones replaced by their cached contents |
| `LogDisk.InstallingIsInvisible` | xv6-riscv/kernel/log.c:68-83 | installing any prefix of a committed log changes nothing that recovery would produce |
| `LogDisk.RecoverTwice` | xv6-riscv/kernel/log.c:116-123 | recovering an already recovered disk changes no home block |
| `LogDisk.RecoveryTraceSafe` | xv6-riscv/kernel/log.c:116-123 | a crash after any of the writes of recover_from_log leaves a disk that recovers to the same home blocks |
| `LogDisk.CommitTraceAtomic` | xv6-riscv/kernel/log.c:193-203 | whatever the cache holds, a crash after any of the writes of commit recovers to all of the old state if it falls before the first write_head, and from that write on to the state with exactly the listed blocks replaced |
| `LogDisk.LoggedCommits` | xv6-riscv/kernel/log.c:193-203 | copying the logged blocks and writing the header yields a disk that recovers to the old homes with the listed blocks taken from the cache |
| `LogProtocol.NoPanic` | xv6-riscv/kernel/log.c:220-223 | under the reservation invariant neither panic of log_write is reachable, although the size test comes before absorption |
| `LogProtocol.OnlyHeadCommits` | xv6-riscv/kernel/log.c:126-203 | no step of any operation, commit or recovery other than the header write, crashes included, changes what would survive a crash |
| `LogProtocol.HeadWriteCommits` | xv6-riscv/kernel/log.c:198-198 | the header write commits exactly the listed blocks: of these the cached contents survive a crash, of all others what the device has |
| `LogProtocol.RecoveredReads` | xv6-riscv/kernel/log.c:116-123 | when recovery has installed the log, reads return the replay of what was committed, but for blocks an operation left unlogged |
| `LogProtocol.StepKeeps` | xv6-riscv/kernel/log.c:126-235 | every begin_op, log_write, end_op, commit, crash and recovery step keeps the whole invariant and does not panic |
| `LogProtocol.CrashAtomicity` | xv6-riscv/kernel/log.c:68-123 | in every run with any number of crashes, also inside recovery, what survives is the replay of exactly the committed writes, which split no operation, at every block except those an operation modified and left unlogged when it ended |
| `LogProtocol.LeftExactly` | xv6-riscv/kernel/log.c:146-175 | in every run, the excepted blocks are exactly those that some end_op found modified and not logged |
| `LogProtocol.OperationsAreAtomic` | xv6-riscv/kernel/log.c:68-123 | in every run whose operations log what they modify, what survives at any moment is the replay of the committed writes at every home block, each operation whole or not at all |
| `LogProtocol.UnloggedWriteSplits` | xv6-riscv/kernel/log.c:146-203 | for every disk, two home blocks and new data there is a run in which an operation modifies both, logs one and ends, and recovery then gives the effect of no whole number of operations: atomicity fails without the callers' part |
| `LogProtocol.CommittedStays` | xv6-riscv/kernel/log.c:193-203 | what was durable at one moment of a run is a prefix of what is durable at every later moment |
| `LogProtocol.QuiescentIsDurable` | xv6-riscv/kernel/log.c:144-175 | whenever no operation is outstanding, reads, what would survive and the replay of the whole history agree at every block that was not left unlogged, and with no such block everything done so far is durable |
| `LogProtocol.CommitIsolation` | xv6-riscv/kernel/log.c:126-175 | in every run: while committing, no operation is outstanding; no begin, write, log_write or end happens then; and the entries plus the unused reservations never exceed LOGSIZE |
| `LogProtocol.ReadYourWrites` | xv6-riscv/kernel/log.c:205-235 | in every run, a block reads as what the last modification put in it, through any number of commits, until it is modified again or there is a crash |
| `LogProtocol.WritesSurvive` | xv6-riscv/kernel/log.c:144-175 | in every run, once no operation is outstanding, what was last put in a block is what a crash leaves there, unless an operation left the block unlogged |
| `LogProtocol.CommitEnds` | xv6-riscv/kernel/log.c:193-203 | from every reachable state the steps of the commit or recovery that is in progress, a number of them known in advance, lead back to normal running, and begin_op then admits an operation if none is outstanding |
| `LogBudget.ChargedForDistinct` | xv6-riscv/kernel/log.c:225-233 | in every run the log entries an operation is charged for are at most the distinct blocks it has passed to log_write, all of them listed |
| `LogBudget.WithinBudget` | xv6-riscv/kernel/log.c:214-235 | in every run an operation that has logged fewer than MAXOPBLOCKS distinct blocks can log another one, new or absorbed, without a panic |
| `LogCode.Log.constructor` | xv6-riscv/kernel/log.c:54-65 | a fresh log object over a disk: empty list, nothing outstanding, pinned or written |
| `LogCode.Log.WriteLog` | xv6-riscv/kernel/log.c:178-191 | the copying loop writes each listed block to its log slot, through the disk images CopyImages lists |
| `LogCode.Log.WriteHead` | xv6-riscv/kernel/log.c:102-114 | encodes the block list into the header block in place and writes it |
| `LogCode.Log.ReadHead` | xv6-riscv/kernel/log.c:86-97 | loads the block list that the header block encodes |
| `LogCode.Log.InstallTrans` | xv6-riscv/kernel/log.c:68-83 | the install loop sends each log slot to its home block and, unless recovering, undoes exactly the pins log_write took |
| `LogCode.Log.RecoverFromLog` | xv6-riscv/kernel/log.c:116-123 | leaves disk and cache equal to the recovered disk, passing exactly through the images of RecoveryTrace, each of which RecoveryTraceSafe proves safe |
| `LogCode.Log.Commit` | xv6-riscv/kernel/log.c:193-203 | for any cache contents, ends with an empty list, the listed blocks on disk as cached and no other home block changed, passing exactly through the images of CommitTrace, which CommitTraceAtomic proves atomic |
| `LogCode.Log.LogWrite` | xv6-riscv/kernel/log.c:214-235 | panics exactly when the log is full or no operation is open; otherwise absorbs or appends the block, pinning it once, so that pins and list stay equal as multisets |
| `LogCode.Log.TryBeginOp` | xv6-riscv/kernel/log.c:126-142 | one pass of the admission loop admits an operation exactly when no commit runs and the log has room for every reservation |
| `LogCode.Log.EndOp` | xv6-riscv/kernel/log.c:146-175 | panics exactly during a commit; the last operation out commits every listed block and no other, through the images of CommitTrace; earlier ones, and a panic, write nothing |
| `BufferCache.UnlinkLinked` | xv6-riscv/kernel/bio.c:128-129 | unlinking an interior buffer leaves prev and next inverse around one cycle without it |
| `BufferCache.PushFrontLinked` | xv6-riscv/kernel/bio.c:130-133 | inserting at the front leaves prev and next inverse around one cycle with the buffer first |
| `BufferCache.Promote` | xv6-riscv/kernel/bio.c:126-134 | the six pointer writes of brelse move the buffer to the front of the one cycle and touch no buffer contents |
| `BufferCache.Bcache.constructor` | xv6-riscv/kernel/bio.c:36-53 | binit links all NBUF buffers into one cycle with the head, all unreferenced |
| `BufferCache.Bcache.FindCached` | xv6-riscv/kernel/bio.c:66-73 | the forward scan finds the buffer caching the block if any buffer does |
| `BufferCache.Bcache.FindUnused` | xv6-riscv/kernel/bio.c:77-87 | the backward scan finds the least recently used unreferenced buffer, or all are referenced |
| `BufferCache.Bcache.Bget` | xv6-riscv/kernel/bio.c:58-89 | fails exactly when the block is not cached and every buffer is referenced; otherwise the buffer that has the block gets one more reference and nothing else, or the least recently used unreferenced buffer is made to stand for the block with one reference; no other buffer changes, at most one buffer has a block, and reads are unchanged |
| `BufferCache.Bcache.Bread` | xv6-riscv/kernel/bio.c:92-103 | returns what a flat map from block numbers to blocks holds for the block; fails as bget does; adds one reference of the caller to that buffer and changes no other |
| `BufferCache.Bcache.Bwrite` | xv6-riscv/kernel/bio.c:106-112 | makes the disk block equal to the cached one and changes no other block |
| `BufferCache.Bcache.Modify` | xv6-riscv/kernel/log.c:205-213 | changing a referenced buffer changes what reads of its block, and of no other, return |
| `BufferCache.Bcache.Brelse` | xv6-riscv/kernel/bio.c:116-137 | drops one reference of the caller, moves a buffer that has none left to the front, and keeps the cycle and the contents; the cache still agrees with the disk if the buffer was written or stays referenced |
| `BufferCache.Bcache.Bpin` | xv6-riscv/kernel/bio.c:139-144 | adds one reference and changes nothing else |
| `BufferCache.Bcache.Bunpin` | xv6-riscv/kernel/bio.c:146-151 | drops one reference of the holder, changes nothing else, and keeps the cache in agreement with the disk if the block was written |
| `BufferCache.CountsReferences` | xv6-riscv/kernel/bio.c:58-151 | in every run of gets, pins, releases and unpins the count of a buffer is the number of references taken of it and not given back |
| `BufferCache.HeldKeepsBlock` | xv6-riscv/kernel/bio.c:58-151 | in every run, from a get of a block to the release by its holder, the buffer stands for that block |
| `BufferCache.LeastRecentlyUsed` | xv6-riscv/kernel/bio.c:76-87 | in every run, a get that recycles a buffer takes, of all unreferenced ones, the one whose last release is longest ago |
| `FsState.SingleOwner` | xv6-riscv/kernel/fs.c:384-423 | no block is in two slots of the inodes |
| `FsState.InodesAndBitsInOrder` | xv6-riscv/kernel/fs.h:45-51 | inode blocks hold the inodes one after the other in 64 bytes each, and the free map the bits of the blocks one after the other |
| `FsState.AllocSlot` | xv6-riscv/kernel/fs.c:390-409 | putting a newly allocated block in an empty inode slot keeps bounds, ownership and the bitmap, and changes no other slot |
| `FsState.AllocEntry` | xv6-riscv/kernel/fs.c:410-420 | the same for an entry of the indirect block |
| `FsState.GrownContent` | xv6-riscv/kernel/fs.c:384-423 | allocation of blocks changes the contents of no file |
| `FsState.FlipOneBit` | xv6-riscv/kernel/fs.c:93-107 | flipping one bit of a bitmap block changes the in-use state of exactly that block |
| `FsState.WrotePatch` | xv6-riscv/kernel/fs.c:519-533 | storing the next chunk in its block extends the written range and disturbs nothing before or after it |
| `FsState.WroteDone` | xv6-riscv/kernel/fs.c:535-543 | when writei sets the size, the file is the old byte sequence with the written bytes spliced in, no hole below the size, and every other file is unchanged |
| `FsState.SpliceTwice` | xv6-riscv/kernel/file.c:157-174 | two adjacent writes have the effect of one |
| `FsState.AllReleased` | xv6-riscv/kernel/fs.c:427-455 | freeing all slots clears exactly the bits of the blocks the inode owned |
| `FsState.TruncatedValid` | xv6-riscv/kernel/fs.c:427-455 | a truncated inode is an empty file and all other files keep their contents |
| `FsCode.Files.Balloc` | xv6-riscv/kernel/fs.c:67-90 | returns 0 exactly when every block is in use, otherwise the lowest free block, zeroed, marked and owned by nobody |
| `FsCode.Files.Bfree` | xv6-riscv/kernel/fs.c:93-107 | panics exactly on a free block; otherwise clears that bit alone and touches no block outside the free map |
| `FsCode.Files.Bmap` | xv6-riscv/kernel/fs.c:384-423 | returns the block of the slot, allocating only if the slot is empty, and 0 only with the disk full; what it logs and allocates is bounded; it never touches a mapped slot |
| `FsCode.Files.Iupdate` | xv6-riscv/kernel/fs.c:227-244 | stores size and addresses word by word into the inode's slot of its block and logs the block |
| `InodeBlocks.StoredDinode` | xv6-riscv/kernel/fs.c:227-244 | storing an inode in its slot is read back as that inode and leaves the other fifteen inodes of the block alone |
| `InodeBlocks.IupdatedDinodes` | xv6-riscv/kernel/fs.c:227-244 | iupdate changes, of all inodes on disk, exactly the one, and no block but that inode's |
| `InodeBlocks.SameFiles` | xv6-riscv/kernel/fs.h:8-10 | blocks in front of the free map do not matter to what the files contain and which blocks are in use |
| `FsCode.Files.Writei` | xv6-riscv/kernel/fs.c:507-543 | fails exactly on a bad range; otherwise the file is the old byte sequence with a prefix of the source spliced in, a short count only for a failed copy or a full disk; other files unchanged; the inode on disk is the one in memory; every changed block is logged except the torn one, which exists exactly if the copy stopped inside a block that was there, and not logged, before the call; a transaction of its own makes durable exactly the reported bytes; at most LogCost(off, n) blocks are logged |
| `FsCode.Files.FaultingOverwrite` | xv6-riscv/kernel/fs.c:519-533 | an input on which writei tears a block: 10 readable of 100 bytes at the start of a file; 0 bytes are reported, the 10 are visible, the block is not logged, and the commit leaves the file on disk as it was |
| `FsCode.CommitsReported` | xv6-riscv/kernel/fs.c:507-543 | undoing the torn block, as a commit does, gives a valid file system with exactly the reported bytes written, also when more were copied into cached blocks |
| `FsCode.NotLoggedYet` | xv6-riscv/kernel/fs.c:517-533 | the block of the file block a write is about to reach has been logged only if it was before the call: the data, free-map and indirect blocks logged on the way are all others |
| `FsCode.RoundReach` | xv6-riscv/kernel/fs.c:517-533 | a write stopped by a fault has returned exactly the bytes of the chunks that are readable whole |
| `FsCode.Files.Readi` | xv6-riscv/kernel/fs.c:473-503 | returns the bytes of the file in the range, changing, allocating and logging nothing |
| `FsCode.Files.Itrunc` | xv6-riscv/kernel/fs.c:427-455 | empties the file, in memory and on disk, frees exactly the blocks it owned without ever reaching the free-block panic, leaves other files alone, and logs every block it changes, all of them free-map blocks or the inode's |
| `FsCode.UnalignedIsMapped` | xv6-riscv/kernel/fs.c:507-524 | a write starting inside a block starts in a mapped one, so that block needs no allocation |
| `FsCode.FilewriteFits` | xv6-riscv/kernel/file.c:149-155 | the chunk size of filewrite keeps the cost of each of its writes within MAXOPBLOCKS, at every offset and length |
| `FsCode.StopsShort` | xv6-riscv/kernel/file.c:168-172 | a transaction of filewrite that returns less than asked, with blocks to be had, does so for a reason a caller could check beforehand: the offset beyond the file, the end beyond the largest file, or source bytes that cannot be read |
| `FsCode.NothingStops` | xv6-riscv/kernel/file.c:157-175 | with the offset in the file, the end within the largest file and all source bytes readable there is no such reason |
| `FsCode.SpentTotal` | xv6-riscv/kernel/fs.c:507-543 | data, bitmap, indirect and inode blocks logged by a write add up to at most its touched blocks plus allocations plus three |
| `FsCode.Files.WriteTransaction` | xv6-riscv/kernel/file.c:162-167 | one transaction of filewrite logs at most MAXOPBLOCKS blocks, fewer than that before the inode block that it logs last; it fails exactly on a bad range, and is short only for unreadable bytes or a full disk; the cache shows its chunk after the previous ones, and what its commit leaves on disk is a valid file system with exactly the reported bytes |
| `FsCode.Files.FileWrite` | xv6-riscv/kernel/file.c:148-176 | goes on, one transaction of the largest chunk after another, until all is written or a transaction stops for one of the reasons of Stops or a full disk; so it writes all and returns n whenever no such reason exists; every transaction logs at most MAXOPBLOCKS blocks, fewer than that before its last, which is what WithinBudget asks of a caller of log_write, and leaves on disk a valid file system with exactly the bytes counted so far; the whole write has the visible effect of one splice; the result and the new offset tell how much was written |
| `FilewriteCrash.CommitRecovers` | xv6-riscv/kernel/log.c:193-203 | while a transaction of filewrite commits, every image of the device recovers to the disk before it or the disk after it |
| `FilewriteCrash.AfterIsLast` | xv6-riscv/kernel/log.c:193-203 | the device left by a commit is the last of the images the commit goes through |
| `FilewriteCrash.DeviceFollows` | xv6-riscv/kernel/file.c:157-174 | after any number of its transactions the device has an empty log and exactly the home blocks those transactions leave |
| `FilewriteCrash.CrashDuringFilewrite` | xv6-riscv/kernel/file.c:148-176 | a crash at any point of a filewrite whose transactions commit one by one, also between any two disk writes of a commit: what is read back after recovery is a valid file system in which exactly the bytes counted by a whole number of transactions are written, and no other file is changed |
| `InodeTable.OneIsAlone` | xv6-riscv/kernel/fs.c:343-349 | a reference count of 1 means no other holder exists |
| `InodeTable.SoleUnlocked` | xv6-riscv/kernel/fs.c:346-348 | an inode whose only holder does not lock it is unlocked |
| `InodeTable.StepKeeps` | xv6-riscv/kernel/fs.c:200-364 | every section of ialloc, iget, idup, ilock, iunlock, iupdate and iput keeps the invariant, and also its second half if a lookup names a linked inode |
| `InodeTable.NoDuplicates` | xv6-riscv/kernel/fs.c:248-279 | in every run, whatever inodes are looked up, two table entries in use hold different inodes |
| `InodeTable.LockedAgrees` | xv6-riscv/kernel/fs.c:294-319 | in every run, whatever is looked up and also when ialloc and iget pick up an inode number while iput is between its two itable.lock sections, whoever has an inode locked is alone, and sees the allocated inode that is on disk |
| `InodeTable.FreeingNeverWaits` | xv6-riscv/kernel/fs.c:338-364 | in every run the acquiresleep of a freeing iput never blocks |
| `InodeTable.PanicsExactly` | xv6-riscv/kernel/fs.c:294-319 | in every run, ilock that has the sleep-lock panics exactly when the inode is free on disk at that moment |
| `InodeTable.CarefulNeverPanics` | xv6-riscv/kernel/fs.c:294-319 | in every run whose lookups name linked inodes no ilock panics |
| `InodeTable.LookupPanicsExactly` | xv6-riscv/kernel/fs.c:554-574 | in every reachable state, looking up an inode that is not in the table and locking it at once panics exactly when it is free on disk |
| `InodeTable.StaleLookupPanics` | xv6-riscv/kernel/fs.c:316-317 | a run that ends in the panic of ilock: after an unlinked inode is freed, a directory entry that still names it is followed |
| `InodeTable.Itable.Iget` | xv6-riscv/kernel/fs.c:248-279 | the scan of iget returns the entry that has the inode, else the first unused one, else fails; it performs the step of the protocol |
| `InodeHistory.HasWhatItAsked` | xv6-riscv/kernel/fs.c:248-290 | in every run, the entry an actor holds is the entry of the inode number it passed to iget or got from ialloc or idup, whatever becomes of the table meanwhile |
| `InodeHistory.ReferenceKept` | xv6-riscv/kernel/fs.c:248-290 | in every run, what iget, ialloc and idup return stays in the table, for the inode asked for, until its holder calls iput |
| `InodeHistory.LockSeesLast` | xv6-riscv/kernel/fs.c:294-319 | in every run, whoever has an inode locked sees it as the last ialloc, holder of its lock or free, by the arguments of those calls, left it |
| `InodeHistory.FirstLockSeesType` | xv6-riscv/kernel/fs.c:201-224 | in every run, the first ilock of an inode after ialloc finds the type ialloc was asked for and no links, also if a copy of the inode from before it was freed is still in the table |
| `SleepWakeup.StepKeeps` | xv6-riscv/kernel/proc.c:552-597 | for any number of channels and conditions under one lock, every section of sleep and wakeup, every change of the conditions and kill keep the invariant |
| `SleepWakeup.NoLostWakeup` | xv6-riscv/kernel/proc.c:552-597 | in every run of callers that do not give up the lock while a wakeup is owed: while the lock is free, whoever is asleep or past giving up the lock on the way there waits for a condition that still blocks |
| `SleepWakeup.WokenOnItsChannel` | xv6-riscv/kernel/proc.c:582-620 | in every run, a process that is woken called sleep on some channel and was woken by a kill or by a wakeup, called before, of that channel |
| `SleepLock.StepKeeps` | xv6-riscv/kernel/proc.c:552-597 | every section of acquiresleep and releasesleep, with sleep and wakeup inside them, keeps mutual exclusion |
| `SleepLock.Simulates` | xv6-riscv/kernel/sleeplock.c:21-41 | every step of the sleep-lock is a sequence of steps of SleepWakeup that keeps the rule about owed wakeups |
| `SleepLock.Refines` | xv6-riscv/kernel/sleeplock.c:21-41 | every run of the sleep-lock is a run of SleepWakeup |
| `SleepLock.NoLostWakeup` | xv6-riscv/kernel/sleeplock.c:21-41 | in every run, while the sleep-lock is free and its inner lock is not held, nobody is asleep or going to sleep on it; derived from SleepWakeup by Refines |
| `SleepLock.AtMostOneOwner` | xv6-riscv/kernel/sleeplock.c:21-41 | in every run at most one process has the sleep-lock, and the lock records it |
| `ExitWait.StepCore` | xv6-riscv/kernel/proc.c:280-440 | every section of fork, exit, reparent, wakeup, wait, kill and freeproc keeps the invariant |
| `ExitWait.NoMissedExit` | xv6-riscv/kernel/proc.c:395-440 | in every run, while wait_lock is free no process sleeps in wait with a zombie child |
| `ExitWait.ParentLives` | xv6-riscv/kernel/proc.c:330-386 | in every run, every process other than init, zombies included, has a parent that has not exited |
| `ExitWait.ParentOrInit` | xv6-riscv/kernel/proc.c:330-386 | between any two moments of a run, a process has the parent it had, still the same process and alive, or has become init's |
| `ExitWait.OrphansAreInits` | xv6-riscv/kernel/proc.c:330-386 | in every run, every child that a process had before it exited, and that still exists, is init's |
| `ExitWait.ExitAccounting` | xv6-riscv/kernel/proc.c:346-440 | each exit status recorded is returned by wait at most as recorded, and until then is kept by a zombie with that pid |
| `ExitWait.ReapFresh` | xv6-riscv/kernel/proc.c:411-426 | a process slot is freed only by its parent's wait, only when off its stack, and for a pid that no wait has returned before, with the status recorded for it |
| `ExitStatus.StatusGiven` | xv6-riscv/kernel/proc.c:347-386 | in every run, the status a process is exiting with is the argument of an exit it called, still with the same pid |
| `ExitStatus.ReapedAsGiven` | xv6-riscv/kernel/proc.c:347-426 | in every run, what wait returns for a pid is the argument of an exit called by the process that had that pid |
| `ExitStatus.OneExit` | xv6-riscv/kernel/proc.c:347-386 | in every run no pid calls exit twice, so that exit is the only one |
| `ExitStatus.ChildOfForker` | xv6-riscv/kernel/proc.c:280-326 | in every run a process has as parent the process that forked it, under its pid of then, or init if that process has exited |
| `ExitStatus.WaitEnds` | xv6-riscv/kernel/proc.c:395-440 | in every run, a wait of a process that is not killed ends by taking one zombie child with its pid and status, or with no child left to wait for; it goes to sleep only with children none of which is a zombie |
| `ExitStatus.CallsEnd` | xv6-riscv/kernel/proc.c:280-440 | in every run, a call of fork, wait or exit runs no more sections than a number known from where it is before it ends or sleeps, whatever others do |
| `ExitStatus.KilledReturns` | xv6-riscv/kernel/proc.c:600-620 | in every run, a process asleep in wait that is killed does not sleep again before wait returns |
| `Umalloc.BlocksApart` | xv6-riscv/user/umalloc.c:24-90 | free and live blocks never overlap |
| `Umalloc.FreeValid` | xv6-riscv/user/umalloc.c:33-43 | putting a block at the place found, and joining as free does, keeps the list sorted, circular, tiled and fully coalesced, and adds exactly the block's units |
| `Umalloc.FullyCoalesced` | xv6-riscv/user/umalloc.c:33-42 | no two free blocks are adjacent |
| `Umalloc.OneCycle` | xv6-riscv/user/umalloc.c:24-44 | following the links from base meets every free block once, in address order, and returns to base |
| `Umalloc.CallerOwnsBody` | xv6-riscv/user/umalloc.c:63-85 | whatever the caller stores past the header of a live block disturbs nothing |
| `UmallocCode.SbrkArgExact` | xv6-riscv/user/umalloc.c:47-58 | the byte count reaches the int parameter of sbrk unchanged exactly for requests up to INT_MAX - 31 bytes |
| `UmallocCode.SbrkArgTooBig` | xv6-riscv/user/umalloc.c:47-58 | a request of 4294967295 bytes asks sbrk for 16 |
| `UmallocCode.UnitsEnough` | xv6-riscv/user/umalloc.c:69-69 | the units allocated hold the bytes asked for, with less than a unit to spare |
| `UmallocCode.AheadShrinks` | xv6-riscv/user/umalloc.c:30-32 | each turn of the search of free comes nearer to the place |
| `UmallocCode.Allocator.constructor` | xv6-riscv/user/umalloc.c:21-22 | before the first malloc there is no block of any kind |
| `UmallocCode.Allocator.FindPlace` | xv6-riscv/user/umalloc.c:30-32 | the search ends, at the last free block below the one being freed |
| `UmallocCode.Allocator.Free` | xv6-riscv/user/umalloc.c:24-44 | frees exactly the block: its units become free, no other unit changes hands, the invariant holds again; the next search starts at the free block before it |
| `UmallocCode.Allocator.Morecore` | xv6-riscv/user/umalloc.c:46-61 | adds exactly the units sbrk gave to the free ones, leaving a block large enough, or changes nothing |
| `UmallocCode.Allocator.Malloc` | xv6-riscv/user/umalloc.c:63-90 | unless nothing fits and more than INT_MAX - 31 bytes are asked of an sbrk that succeeds: returns 0 exactly when nothing fits and sbrk fails; otherwise a new block of the units asked for, taken from the free units, after one sbrk exactly when nothing fitted; a block that fitted is cut from the end of the first free block large enough, in list order from where the last search ended, and the next search starts before that one; free and live units always make up what sbrk gave; the search ends |
| `Virtio.WindowPush` | xv6-riscv/kernel/virtio_disk.c:272-277 | adding to a ring under wrapping 16-bit indices appends to the waiting entries and overwrites none |
| `Virtio.WindowPop` | xv6-riscv/kernel/virtio_disk.c:312-323 | taking from a ring under wrapping 16-bit indices takes the oldest waiting entry |
| `Virtio.WindowEmpty` | xv6-riscv/kernel/virtio_disk.c:312-312 | comparing the 16-bit indices for equality tells exactly whether entries wait |
| `Virtio.SlotsInOrder` | xv6-riscv/kernel/virtio_disk.c:271-277 | the indices, taken modulo the ring size, go through the ring in order, also across their 16-bit wrap |
| `Virtio.TwoOfThree` | xv6-riscv/kernel/virtio_disk.c:199-213 | no three requests are in flight |
| `Virtio.DeviceSeesRequest` | xv6-riscv/kernel/virtio_disk.c:238-269 | the device, following the descriptors with their lengths and flags, performs exactly the request that was submitted: that buffer, those sectors, that direction, that status byte |
| `Virtio.StepKeeps` | xv6-riscv/kernel/virtio_disk.c:156-327 | every submission, completion, interrupt and return, and every action of the device, keeps the invariant: free descriptors and chains in flight partition the descriptors |
| `Virtio.RoomInRings` | xv6-riscv/kernel/virtio_disk.c:272-277 | in every run at most two requests are in flight and no unfetched entry is overwritten |
| `Virtio.FetchedInOrder` | xv6-riscv/kernel/virtio_disk.c:271-277 | in every run, through every wrap of the indices, the device reads the requests from the available ring in the order they were submitted, each once |
| `Virtio.InterruptIsOwn` | xv6-riscv/kernel/virtio_disk.c:312-323 | in every run, each used entry the handler looks at is a request in flight whose buffer is waiting for it, and the handler panics on it exactly when the device reported an error for it |
| `Virtio.CompletedBefore` | xv6-riscv/kernel/virtio_disk.c:284-289 | in every run, a request seen as done was completed by the device earlier, for that buffer and sector, and its descriptors have not been given back since |
| `Virtio.SubmittedBefore` | xv6-riscv/kernel/virtio_disk.c:215-281 | in every run, a request in flight was submitted earlier with that buffer, sector and direction, and its descriptors have not been given back since |
| `Virtio.ReturnsAfterCompletion` | xv6-riscv/kernel/virtio_disk.c:216-292 | virtio_disk_rw returns only after its own request: submitted, then completed without error, with no return for the same descriptors in between; a read returns what the consecutive sectors held at completion, and a write put in those sectors then what the buffer held at submission |
| `VirtioCode.Driver.AllocDesc` | xv6-riscv/kernel/virtio_disk.c:156-166 | takes the lowest free descriptor, or there is none |
| `VirtioCode.Driver.Alloc3Desc` | xv6-riscv/kernel/virtio_disk.c:201-213 | takes three free descriptors, or gives back what it took because fewer than three are free |
| `VirtioCode.Driver.FreeDesc` | xv6-riscv/kernel/virtio_disk.c:169-182 | panics exactly on a bad or free descriptor, otherwise frees it; callers are proved never to reach its panics |
| `VirtioCode.Driver.FreeChain` | xv6-riscv/kernel/virtio_disk.c:185-197 | frees exactly the three descriptors of the chain, following their links |
| `VirtioCode.Driver.Submit` | xv6-riscv/kernel/virtio_disk.c:215-281 | performs the submission of the protocol with the sector number computed as the driver does, or finds fewer than three descriptors free and changes nothing |
| `VirtioCode.Driver.Finish` | xv6-riscv/kernel/virtio_disk.c:288-289 | performs the return of the protocol |
| `VirtioCode.Driver.Intr` | xv6-riscv/kernel/virtio_disk.c:294-327 | handles every waiting used entry, in order, through 16-bit wrap, up to the first one the device reported an error for, where it panics |
| `VirtioBlocks.SectorIsOffset` | xv6-riscv/kernel/virtio_disk.c:218-218 | the sector of a block is at the byte offset block number times BSIZE exactly for block numbers below 2^31; above, the 32-bit product has wrapped |
| `VirtioBlocks.SectorsApart` | xv6-riscv/kernel/virtio_disk.c:218-218 | requests for two block numbers touch no common sector, except exactly for equal numbers and numbers 2^31 apart |
| `VirtioBlocks.DiskHoldsLastWrite` | xv6-riscv/kernel/virtio_disk.c:216-292 | in every run of requests for blocks below 2^31, a block on disk is what the last completed write of that block put there, whatever is written to others |
| `VirtioBlocks.BlockReadWrite` | xv6-riscv/kernel/virtio_disk.c:216-292 | in every such run, a read of a block returns what the last write of that block completed before it wrote, and a write makes the buffer, as it was at the call, that last write |
| `Pipe.FullEmpty` | xv6-riscv/kernel/pipe.c:88-88 | the tests on the wrapped 32-bit counters tell exactly whether the ring is full or empty |
| `Pipe.PushHolds` | xv6-riscv/kernel/pipe.c:95-95 | inserting appends to the buffered bytes |
| `Pipe.PopHolds` | xv6-riscv/kernel/pipe.c:122-122 | removing takes the oldest buffered byte |
| `Pipe.Fifo` | xv6-riscv/kernel/pipe.c:76-130 | over any interleaving of insertions and removals the bytes removed, then those buffered, are the bytes inserted, with at most PIPESIZE buffered, through counter overflow |
| `Pipe.Buffer.constructor` | xv6-riscv/kernel/pipe.c:31-34 | a new pipe is empty and open at both ends |
| `Pipe.Buffer.Write` | xv6-riscv/kernel/pipe.c:76-103 | inserts consecutive bytes of the source in order until done, asleep on a full pipe, failed, or returning -1 exactly when the reader is gone or the writer killed |
| `Pipe.Buffer.Read` | xv6-riscv/kernel/pipe.c:105-130 | delivers the oldest bytes in order, as many as asked for, buffered and copyable; sleeps or returns -1 only on an empty pipe with a writer; a byte whose copyout fails is taken out and lost |
| `PageTable.IndexInjective` | xv6-riscv/kernel/vm.c:304-336 | different pages have different index triples |
| `Sv39.PxBits` | xv6-riscv/kernel/riscv.h:391-394 | the index at a level, shifted and masked out of the address, has bits 30 to 38, 21 to 29 and 12 to 20 of the address at levels 2, 1 and 0 |
| `Sv39.IndexDigits` | xv6-riscv/kernel/vm.c:296-303 | the three indices of a page are the digits of its number in base 512 |
| `Sv39.PxIsIndex` | xv6-riscv/kernel/riscv.h:394-394 | they are what the address selects level by level |
| `Sv39.ReachedIs` | xv6-riscv/kernel/vm.c:315-335 | the descent by the bits of the address reaches the leaf table of the page, or an invalid entry exactly when there is none |
| `Sv39.TranslateIsLookup` | xv6-riscv/kernel/vm.c:304-336 | for every address, what the hardware's translation by bits of the address finds is what the map of the tree says of its page |
| `Sv39.EntryRoundTrip` | xv6-riscv/kernel/riscv.h:372-389 | entries stand one for one for the words in memory, with the frame number above bit 10 and the flags below |
| `PageTable.DescentFinds` | xv6-riscv/kernel/vm.c:315-335 | following valid entries from the root reaches the tables of the tree, and an invalid entry means the place is empty |
| `PageTable.NewDir` | xv6-riscv/kernel/vm.c:319-332 | linking a zeroed level-1 table keeps the tree and the map it denotes |
| `PageTable.NewLeaf` | xv6-riscv/kernel/vm.c:319-332 | linking a zeroed level-0 table keeps the tree and the map it denotes |
| `PageTable.SetPte` | xv6-riscv/kernel/vm.c:420-420 | storing a leaf entry changes the map at that page and nowhere else |
| `PageTable.Elsewhere` | xv6-riscv/kernel/vm.c:304-336 | changes outside the frames of an address space leave its map alone |
| `VmCode.Memory.Walk` | xv6-riscv/kernel/vm.c:304-336 | reaches the table that the descent by the bits of every address of the page reaches, and fails exactly where that descent does; making tables on the way takes frames only from the free list and changes no mapping; without alloc it changes nothing and fails exactly when there is no table; with it, only with memory exhausted |
| `VmCode.Memory.MapPages` | xv6-riscv/kernel/vm.c:390-439 | maps exactly a prefix of the range to consecutive frames with the permission; panics exactly when it reaches a page that was mapped already, the end of the address space, or an empty range; otherwise stops short only with memory exhausted |
| `VmCode.Memory.Unmap` | xv6-riscv/kernel/vm.c:443-483 | removes exactly a prefix of the range from the map and, if asked, frees exactly its frames; panics exactly at the first page that is not mapped, and not otherwise |
| `VmCode.Memory.CopyOne` | xv6-riscv/kernel/vm.c:645-660 | copies one frame into a free one and maps it, or changes no mapping and no page |
| `VmCode.Memory.UvmCopy` | xv6-riscv/kernel/vm.c:607-668 | gives the child the parent's pages with equal contents and permissions, each in its own frame from the free list, leaving the parent alone; or fails with the child's map and all data pages as before |
| `VmCode.Memory.FreeWalk` | xv6-riscv/kernel/vm.c:569-590 | frees exactly the tables at and below the given one, and panics exactly if a page is still mapped through them |
| `VmCode.PointsBits` | xv6-riscv/kernel/vm.c:575-575 | freewalk descends through the words that have V and none of R, W and X set |
| `VmCode.LeftOver` | xv6-riscv/kernel/vm.c:593-598 | after the first n pages are unmapped, freewalk finds a leaf exactly if a page from n on was mapped |
| `VmCode.Memory.UvmFree` | xv6-riscv/kernel/vm.c:593-598 | every frame of the address space, data and tables, goes back to the free list and nothing else changes; panics exactly unless the mapped pages are those below the size |
| `VmBytes.CopyIn` | xv6-riscv/kernel/vm.c:715-735 | returns exactly the bytes that translating each address by itself gives, up to the first unreadable page; at the end of the address space it panics, and only there |
| `VmBytes.FlagBits` | xv6-riscv/kernel/riscv.h:372-376 | the flags copyin and copyout look at are bits 4 and 2 of the word |
| `VmBytes.ByteIsTranslated` | xv6-riscv/kernel/vm.c:715-735 | the byte an address stands for is the one at its low twelve bits in the frame that the hardware's translation finds, for a user page |
| `VmBytes.PokedChunk` | xv6-riscv/kernel/vm.c:700-705 | storing the bytes of one page one by one is one splice of its frame |
| `VmBytes.CopyOut` | xv6-riscv/kernel/vm.c:685-710 | has exactly the effect of storing byte by byte through the map, up to the first unwritable page |
| `VmBytes.ReadBack` | xv6-riscv/kernel/vm.c:685-735 | what copyout stored is read back byte by byte, if no two pages of the range share a frame |
| `Shell.GetToken` | xv6-riscv/user/sh.c:266-309 | a token lies between the cursor and the next one, a word token is a run of word characters that ends at a non-word character, and only the end of the line makes no progress |
| `ShellCode.Gettoken` | xv6-riscv/user/sh.c:266-309 | the scanning loops compute the token function |
| `ShellCode.PeekAt` | xv6-riscv/user/sh.c:311-321 | skips blanks and tells whether the next character is one of those asked for |
| `ShellCode.ParseRedirs` | xv6-riscv/user/sh.c:375-398 | the loop collects the redirections at the cursor around what was there, or fails for a missing file name |
| `ShellCode.ParseWords` | xv6-riscv/user/sh.c:425-447 | the loop collects words and redirections, failing for a tenth word or a stray symbol |
| `ShellCode.ParseExecAt` | xv6-riscv/user/sh.c:416-447 | computes the grammar's function for a simple command or block |
| `ShellCode.ParseBlockAt` | xv6-riscv/user/sh.c:400-414 | computes the grammar's function for a block |
| `ShellCode.ParsePipeAt` | xv6-riscv/user/sh.c:362-373 | computes the grammar's function for a pipeline |
| `ShellCode.ParseLineAt` | xv6-riscv/user/sh.c:345-360 | computes the grammar's function for a line, ending on every input |
| `ShellText.LineApart` | xv6-riscv/user/sh.c:345-447 | the words of a parsed line are runs of word characters with at least one character between any two |
| `ShellText.NulTerminate` | xv6-riscv/user/sh.c:450-494 | writes a NUL at the end of every word of the command and nowhere else |
| `ShellText.ParseCommand` | xv6-riscv/user/sh.c:328-343 | on every line: accepts exactly what the grammar does, and then every word of the result is a C string with exactly the characters typed, none overwritten |
| `ShellPrint.RoundTrip` | xv6-riscv/user/sh.c:328-447 | parsing the fully parenthesised print of any command with plain words and at most nine arguments gives that command back |
| `ShellGrammar.AcceptsSentence` | xv6-riscv/user/sh.c:328-447 | parsecmd accepts every line, however spaced, whose tokens are a sentence of the grammar, with any number of redirections, pipeline stages, list items and &, and builds what the sentence means: pipelines and lists nest to the right, & applies to the pipeline before it, a redirection goes around those before it |
| `ShellGrammar.AcceptsOnlySentences` | xv6-riscv/user/sh.c:328-447 | every line parsecmd accepts has the tokens of such a sentence, and what was built means what the sentence does |
| `ShellGrammar.WrapMeans` | xv6-riscv/user/sh.c:375-398 | redirections are applied in the order of the line, the last one outermost |
| `ShellGrammar.SpelledToks` | xv6-riscv/user/sh.c:266-309 | tokens written out with blanks between them are scanned as those tokens |
| `ShellGrammar.SentenceRoundTrip` | xv6-riscv/user/sh.c:328-447 | parsing any sentence of the grammar written out, without parentheses but its own, gives back what it means |
| `Grep.HereStar` | xv6-riscv/user/grep.c:98-106 | a starred item matches here exactly when after some number of its characters the rest matches |
| `Grep.MatchHere` | xv6-riscv/user/grep.c:84-96 | true exactly when some prefix of the text, or all of it if the end is asked for, is in the language of the pattern |
| `Grep.MatchStar` | xv6-riscv/user/grep.c:98-106 | the loop tries every number of repetitions the text allows |
| `Grep.Match` | xv6-riscv/user/grep.c:72-82 | true exactly when the pattern's language meets the text somewhere, or at its start after ^ |

## Left out

- The swap layer (LRU list, victim selection, swap device, page-fault path) and kalloc's eviction retry: kalloc is "take a frame from the free list or fail" and no entry is ever swapped out.
- A second device: one disk, and virtio_disk_rw ignores the device number.
- Virtio: a sector's contents are one value, and the device moves the sectors of a request at one moment, its completion.
- A request the device reports an error for: virtio_disk_intr panics, and nothing is said beyond that.
- Memory-ordering fences, the TLB, interrupts and scheduling order: steps are sequentially consistent at the granularity of lock-protected sections.
- Liveness: that a sleeping process eventually runs, that a fetched request eventually completes, and pipe wakeups under kill.
- The log layers and the file layer meet in FilewriteCrash for one writer, whose transactions commit one by one; group commit with other operations is LogProtocol, which takes what an operation modifies and logs as given. FsCode proves which blocks are logged and how many, LogBudget that so many never panic, and BufferCache that reads agree with the view both use.
- LogProtocol keeps the header block decoded; LogCode and LogDisk have its bytes and the round trip between the two.
- FsCode: an inode is its size and block addresses; type, device numbers and link count, which iupdate stores beside them, are in InodeTable. File-system calls run one at a time there, InodeTable has their interleaving.
- InodeTable: directories are not modelled; a lookup may name any inode number, and Careful says which runs have only lookups of inodes whose link count is positive on disk and, if cached, in memory. The device number is fixed.
- Link counts over the whole file system, directory operations and path lookup.
- BufferCache: the sleep-lock of a buffer is represented by its reference, of a holder named by a number; SleepLock proves the lock itself.
- SleepWakeup: callers keep the rule that the lock is not given up while a wakeup is owed; that is proved for the sleep-lock. pipewrite returns -1 without waking readers it has fed, so it does not keep the rule; ExitWait.NoMissedExit has the case of wait, whose condition is under two locks.
- ExitWait: fork's failure paths, file descriptors and memory are not modelled; wakeup of a channel only one process sleeps on is a check of that process.
- UmallocCode.Allocator.Malloc: nothing is said of a request for more than INT_MAX - 31 bytes that reaches sbrk and succeeds there, since sbrk was then asked for another amount (SbrkArgExact). Sizes do not wrap as long as the break stays below 2^32 units, since every block ends below the break. Memory is addressed in units, so the results of sbrk are taken as aligned.
- VmCode: sizes and addresses are in pages there, page-table entries are decoded records (Sv39 has the bits of both), and the alignment panics are excluded by that; uvmalloc, uvmdealloc and copyinstr would add compositions of the members proved. Every mapping is taken to grant read, write or execute access where freewalk tells leaves from tables by it.
- Pipe: pipealloc and pipeclose beyond the two open flags.
- Shell: which of the parser's panics is raised; running the parsed command; a line with embedded NUL characters.
- Grep: reading lines into the buffer of grep.
- Assembly, traps, console and UART, exec, system-call argument fetching and the user test programs.
