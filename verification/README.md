# Verification of the xv6 RISC-V kernel

A Dafny model of the hard parts of the kernel and its user library, with proofs
of what they are for.

* **Log and buffer cache.** `Log` is the protocol of kernel/log.c: operations
  begin, write and end in any interleaving, the committer and recovery advance
  block write by block write, and the machine may crash between any two steps,
  during recovery too. `LogSpace` is about reservations and the panic guard,
  `LogSnapshot` about what a crash rolls back to, `LogCode` is the code that
  takes the steps. `Bio` puts the buffer cache of
  kernel/bio.c between its users and the log; `Bcache` is its linked list.
* **Files.** `Fs` holds inodes, block maps and the free map of kernel/fs.c over
  the plain map of blocks that the log provides; `FsCode` is the code, with
  filewrite of kernel/file.c; `FsWorst` is a disk on which the bound on its
  transactions is reached. `FsImage` is the form of the file system on disk, in
  words and bytes, and `FsCrash` puts its transactions on the log: after a crash
  at any step recovery finds a well-formed file system. `FsSteps` and `FsOverlap`
  say why transactions that overlap are serialized: the steps of writes to
  different files and of their truncation commute.
* **Processes.** `Proc` is a machine over the steps of kernel/proc.c and
  kernel/sleeplock.c between acquiring and releasing a lock.
* **Memory.** `Vm` holds three-level page tables and the ownership of physical
  pages, `VmCode` the code of kernel/vm.c, kernel/kalloc.c and the memory part
  of kernel/proc.c.
* **The disk driver.** `Virtio` is kernel/virtio_disk.c with the device beside
  it.
* **Pipes, malloc, the shell parser, grep.** `Pipes`, `Umalloc`, `Sh`,
  `ShCode`, `Grep`; `Arith` has the arithmetic of wrapping counters, `Options`
  a value that may be absent.

State machines (`Log`, `Bio`, `Proc`) define `Enabled` and `Next` for every
event, `Legal` runs and the state after a run; their theorems speak of every
legal run. Classes carry a `Valid()` that every method keeps, so it holds after
every sequence of calls; a method that is one section under a lock makes every
interleaving of such sections a sequence of calls.

The proofs of page tables and files use one idea: a history variable gives every
page or block one owner, and the owner says at which position it is mapped. For
memory `Valid()` says both halves: a user page is mapped where its owner says,
and a leaf maps a user page of its own or, without PTE_U, a page of the kernel.
`Vm.Partition` draws the conclusion: no page is mapped twice for the user, and
none is mapped while it is free or a page table. freeproc breaks the second half
for a moment, by freeing the trapframe before it unmaps it; `Sound()` is what
holds then.

## Where the code differs from what it says

* begin_op counts on LOGSIZE slots, mkfs makes a log of LOGSIZE blocks with the
  header among them. The guard of log_write can therefore fire for operations
  within their reservation; `LogSpace.GuardExact` gives the exact condition.
* log_write says a block may be absorbed, but its guard panics on a full log
  even for a block that is already in it (`LogSpace.AbsorptionPanics`). On a
  large enough log and within the reservations it panics exactly if LOGSIZE
  blocks are logged, which is when no operation has a slot left
  (`LogSpace.PanicExact`).
* fileread calls readi outside a transaction. On a hole readi would allocate, and
  log_write panics with "log_write outside of trans" (kernel/log.c:222-223);
  `FsCode.FileSystem.Fileread` gives the exact condition. No write makes a hole
  (`FsCode.FileSystem.Writei`).
* malloc takes any uint, but sbrk takes an int, so that a large request reaches it
  as another number; `Umalloc.SbrkExact` gives the exact condition.
* An unused slot has pid 0, so kill(0) finds one and marks it. allocproc does
  not clear the mark, only freeproc does: the next process in the slot starts
  killed (`Proc.KillZeroStrikes`). `Proc.UnusedMarked` and `Proc.BornKilled`
  give the exact condition.

## Model

| member | source | states |
|---|---|---|
| Log.HeadRoundTrip | kernel/log.c:86-114 | the header block that write_head stores reads back as exactly the same list of blocks, and erasing it changes only the count |
| Log.RunInv | kernel/log.c:68-235 | for every interleaving of begin_op, log_write, end_op and the steps of the committer, with crashes anywhere: the disk, the in-memory header, the phase of the committer and the bookkeeping of operations stay consistent |
| Log.CrashAtomicity | kernel/log.c:102-203 | in every run, recovering from the present disk gives each home block the effect of the committed groups; every operation is in it whole or not at all, and no active or lost operation is in it |
| Log.DurableForever | kernel/log.c:126-203 | what is durable after a run is durable, in the same order, after every continuation of it, crashes included; the same for what is saved and what is lost |
| Log.IdleMeansDurable | kernel/log.c:144-203 | when the last end_op has returned, every operation not lost to a crash is durable and the home blocks hold its effect without recovery |
| Log.ReplayAt | kernel/log.c:68-83 | install_trans from slot t on gives each listed block its log slot and leaves every other block alone |
| Log.RecoverHolds | kernel/log.c:116-123 | recovery gives a home block the contents that the logged transaction gives it |
| Log.RecoverIdempotent | kernel/log.c:116-123 | recovering a recovered disk changes nothing |
| Log.RecoverInterrupted | kernel/log.c:68-83 | recovery cut short by a crash after any number of installs, then run again, gives the same disk as an undisturbed one |
| Log.RecoveryCompletes | kernel/log.c:116-123 | after any run that ended in a crash, recovery run to its end computes Recover and opens the log |
| Log.ActiveMeansQuiet | kernel/log.c:144-175 | while an operation is active nobody commits, so the "log.committing" panic of end_op cannot fire |
| LogSpace.Reservation | kernel/log.c:126-142 | in every run whose operations add at most MAXOPBLOCKS blocks each, the logged blocks and all unused reservations together fit LOGSIZE |
| LogSpace.GuardSafe | kernel/log.c:214-235 | with log.size - 1 >= LOGSIZE no log_write of an operation within its reservation meets the "too big a transaction" guard |
| LogSpace.GuardExact | kernel/log.c:214-235 | the guard is out of reach for such operations if and only if log.size - 1 >= LOGSIZE |
| LogSpace.MkfsLogTooSmall | mkfs/mkfs.c:25 | on the log that mkfs makes (LOGSIZE blocks, header included) a legal run within all reservations meets the guard |
| LogSpace.AbsorptionPanics | kernel/log.c:214-235 | the guard also fires for a block that is already logged, although absorbing it would need no space: a run within all reservations, on a large enough log |
| LogSpace.PanicExact | kernel/log.c:214-235 | on a log with log.size - 1 >= LOGSIZE, in every run within the reservations, log_write panics if and only if LOGSIZE blocks are logged; then no active operation has a slot left, the caller included |
| LogSnapshot.RecoversToQuiescence | kernel/log.c:144-203 | in every run, whatever the interleaving, recovering from the present disk gives the contents of the cache at a moment of that run at which no operation was under way |
| LogSnapshot.DurableIsQuiescent | kernel/log.c:193-203 | what is durable is all that was logged up to such a moment, which is boot or a commit point |
| LogSnapshot.InvariantSurvives | kernel/log.c:116-203 | whatever holds of the cache at boot and at every commit point (when the last end_op is about to write the header) holds of the recovered disk after a crash at any step, in any interleaving |
| LogCode.Logger.constructor | kernel/log.c:54-65 | the log at power-on is the initial state of the protocol |
| LogCode.Logger.Crash | kernel/log.c:54-65 | a crash keeps the disk and is a crash of the protocol |
| LogCode.Logger.TryBeginOp | kernel/log.c:126-142 | one turn of the loop of begin_op admits the operation exactly when the protocol may, and changes nothing otherwise |
| LogCode.Logger.LogWrite | kernel/log.c:214-235 | log_write, with absorption, is the protocol step for that block and contents |
| LogCode.Logger.EndOp | kernel/log.c:144-175 | the last end_op runs the whole commit as protocol steps and leaves the log empty and quiet; another end_op is one protocol step |
| LogCode.Logger.Commit | kernel/log.c:193-203 | commit is a sequence of protocol steps ending with an empty header |
| LogCode.Logger.WriteLog | kernel/log.c:178-191 | the loop of write_log is a sequence of protocol steps up to the commit point, the header in memory unchanged |
| LogCode.Logger.CommitHead | kernel/log.c:102-114 | write_head at commit is the protocol step that makes the group durable |
| LogCode.Logger.InstallTrans | kernel/log.c:68-83 | the loop of install_trans, in commit and in recovery, computes Replay on the disk by protocol steps |
| LogCode.Logger.EraseHead | kernel/log.c:193-203 | erasing the transaction stores a header with count 0 and nothing else |
| LogCode.Logger.RecoverFromLog | kernel/log.c:116-123 | recover_from_log turns the disk into Recover of it and opens the log |
| LogCode.Logger.ReadHead | kernel/log.c:86-97 | read_head loads exactly the list the header on disk stands for |
| LogCode.EncodeHead | kernel/log.c:102-114 | the copying loop of write_head yields the block PutHead describes |
| LogCode.DecodeHead | kernel/log.c:86-97 | the copying loop of read_head yields the list Head describes |
| Bio.CacheRefinesLog | kernel/bio.c:58-151 | every run of the buffer cache under all its users is a run of the log protocol on the disk below it, so that crash atomicity holds of the cache as well |
| Bio.NextRefines | kernel/bio.c:91-151 | a cache step is one enabled step of the log protocol or leaves the log alone |
| Bio.BreadLatest | kernel/bio.c:91-103 | in every run a valid buffer without an unlogged change of its holder has the latest logged contents of its block, and no other buffer has that block |
| Bio.LoggedStaysCached | kernel/bio.c:114-151 | in every run refcnt counts holders, waiters and the log exactly; a block the log still needs has a valid buffer that bget finds and never recycles |
| Bio.VictimSound | kernel/bio.c:75-89 | a miss recycles the least recently used buffer with refcnt 0, and finds none only if every buffer is referenced |
| Bio.CleanUnpinned | kernel/bio.c:146-151 | a block that the log does not pin has its latest contents on disk, so losing its buffer loses nothing |
| Bio.CommitRefines | kernel/log.c:68-83 | the committer, reading and writing through buffers, does to the disk what the log protocol says |
| Bio.AdvancePins | kernel/log.c:68-83 | install_trans unpins exactly the block it installs; no other step of the committer moves a pin |
| Bcache.Bcache.constructor | kernel/bio.c:36-53 | binit links all buffers into one ring; all of them start unreferenced as device 0, block 0 |
| Bcache.Bcache.Lookup | kernel/bio.c:64-73 | the walk along next finds the buffer that the cache model says holds the block |
| Bcache.Bcache.FindFree | kernel/bio.c:75-87 | the walk along prev finds the least recently used buffer with refcnt 0 |
| Bcache.Bcache.Bget | kernel/bio.c:58-89 | bget up to the sleep lock does what the cache model says, and reports the panic "no buffers" exactly when neither walk finds one |
| Bcache.Bcache.Drop | kernel/bio.c:114-137 | the second half of brelse does what the cache model says; the list stays one doubly linked ring through the head and all buffers, ordered by the time of the last drop to refcnt 0 |
| Bcache.Bcache.MoveToFront | kernel/bio.c:126-134 | the pointer surgery moves one buffer to the front and makes it the most recent |
| Bcache.Bcache.Unlink | kernel/bio.c:128-129 | unlinking takes one node out of the ring and keeps next and prev inverse to each other |
| Bcache.Bcache.PushFront | kernel/bio.c:130-133 | linking a node behind the head puts it first in the ring |
| Bcache.Bcache.LogPin | kernel/log.c:225-235 | log_write pins its buffer exactly if the block is new to the log, and so does to the cache what the cache model says |
| Bcache.Bcache.InstallBuf | kernel/log.c:73-82 | install_trans copies the log block over the home block and unpins it unless it is recovering, as the cache model says |
| Bcache.InsertRing | kernel/bio.c:46-52 | four pointer stores insert a node behind the head of any ring |
| Bcache.UnlinkRing | kernel/bio.c:128-129 | two pointer stores take any node out of a ring |
| Bcache.FrontRecent | kernel/bio.c:114-137 | a list sorted by recency stays so when a buffer with the newest stamp goes to the front |
| Vm.WordFields | kernel/riscv.h:335-352 | PTE2PA and the flag tests read back the page number and every flag that PA2PTE(pa) | perm | PTE_V put into an entry |
| Vm.IndicesInjective | kernel/riscv.h:354-357 | distinct pages below MAXVA have distinct triples of indices |
| Vm.SlotsDistinct | kernel/vm.c:85-103 | walks for distinct pages, in one page table or in two, end in distinct slots |
| Vm.SetLeafSpec | kernel/vm.c:142-165 | storing an entry in the slot of a page changes the translation of that page and of no other page of any table |
| Vm.AddedLeaf | kernel/vm.c:85-103 | a page-table page made by walk changes no translation |
| Vm.Rollback | kernel/vm.c:225-249 | unmapping what was grown restores every translation and every page but the new page-table pages |
| Vm.UnmapOneSpec | kernel/vm.c:170-192 | the body of the loop of uvmunmap unmaps one page and frees its user page if there is one |
| Vm.FreedLeaf | kernel/vm.c:271-287 | freeing one table leaves the translations of all others |
| Vm.FreedGood | kernel/vm.c:271-287 | after freewalk on a table without leaves the remaining memory is well-formed and every page of that table is free |
| Vm.StartedGone | kernel/proc.c:285-303 | freeing a page table undoes all that was done for it: the free set is the one before |
| Vm.WrittenReads | kernel/vm.c:351-371 | after a store through a page table the user addresses in range read the data and every other user address of every table what it read before |
| Vm.Partition | kernel/kalloc.c:46-82 | physical memory is partitioned among the process tables: a page on the free list is no page table and is mapped nowhere, a page-table page below a root hangs at exactly one entry and is mapped nowhere, a user page is mapped at exactly one page of one table, and no page of the kernel is mapped for the user; the table of the kernel itself, which maps all memory, is not among the tables |
| Vm.LeavesMapped | kernel/vm.c:142-165 | mapping pages that the kernel holds keeps every leaf in order, without PTE_U entirely, with PTE_U but for the mapped range, whose pages the caller then hands to the table |
| Vm.LeavesGrown | kernel/vm.c:225-249 | growing a table with new user pages keeps every leaf of every table in order |
| Vm.LeavesUnmapped | kernel/vm.c:170-192 | so does unmapping a range and freeing its pages: no leaf is left that maps a freed page |
| Vm.LeavesGone | kernel/vm.c:271-298 | so does freeing a table with all its pages |
| VmCode.Machine.constructor | kernel/kalloc.c:26-40 | kinit puts every page of the range on the free list |
| VmCode.Machine.Kalloc | kernel/kalloc.c:65-82 | kalloc takes the first page of the free list, or 0 if there is none |
| VmCode.Machine.Kfree | kernel/kalloc.c:42-63 | kfree puts a page that is in use on the free list |
| VmCode.Machine.GetFreeMem | kernel/kalloc.c:84-94 | the counting loop returns PGSIZE times the number of free pages |
| VmCode.Machine.Walk | kernel/vm.c:85-103 | walk ends in the slot of the page, adds nothing but empty page-table pages of that table and changes no translation; without alloc it changes nothing; with alloc it fails only when memory is out |
| VmCode.Machine.Mappages | kernel/vm.c:142-165 | mappages maps exactly its range, or on failure exactly a prefix of it, and changes no other translation of any table; it runs out of memory or panics at the page after the prefix, and panics exactly there for an empty range, a page beyond MAXVA or a page already mapped; mapping pages of the kernel or of devices keeps memory partitioned (with PTE_U once the caller has handed the pages over) |
| VmCode.Machine.Uvmunmap | kernel/vm.c:170-192 | uvmunmap removes exactly the translations of its range and, if asked to, frees exactly their pages |
| VmCode.Machine.Uvmcreate | kernel/vm.c:196-205 | an empty page table, or 0 with nothing changed when memory is out |
| VmCode.Machine.Uvmdealloc | kernel/vm.c:255-267 | shrinking unmaps and frees exactly the whole pages between the two sizes |
| VmCode.Machine.Uvmalloc | kernel/vm.c:225-249 | growing maps new zeroed pages at exactly the pages between the sizes; a failure returns 0 with every translation and every data page as before |
| VmCode.Machine.Uvmcopy | kernel/vm.c:299-333 | the child gets a page with the contents and flags of each page of the parent; a failure leaves every translation as before and returns every copied page |
| VmCode.Machine.Freewalk | kernel/vm.c:269-287 | freewalk frees each page-table page below p once; its "leaf" panic is out of reach |
| VmCode.Machine.Uvmfree | kernel/vm.c:289-297 | user pages and page-table pages of the table are freed, nothing else is touched |
| VmCode.Machine.ProcPagetable | kernel/proc.c:178-212 | a table with the trampoline and the trapframe and nothing else, or 0 with the free set exactly as before; memory stays partitioned |
| VmCode.Machine.ForkMemory | kernel/proc.c:285-303 | the memory part of fork: on success the child maps copies of all pages of the parent, the trampoline, a trapframe that no other table maps, and nothing else; on failure at any point the free set is exactly as before; memory stays partitioned |
| VmCode.Machine.Freeproc | kernel/proc.c:158-175 | freeproc and proc_freepagetable return the trapframe, all user pages and all page-table pages of a process and nothing else, and memory is partitioned again although on the way the table maps a freed page |
| VmCode.StartedReaped | kernel/proc.c:158-221 | what fork took freeproc gives back: owners, translations and pages in use are those before the fork |
| VmCode.Machine.Walkaddr | kernel/vm.c:105-126 | the physical page of a page that is mapped for the user, else 0 |
| VmCode.Machine.Copyout | kernel/vm.c:348-371 | copyout succeeds exactly if the whole range is accessible; otherwise the bytes before the first inaccessible page are stored; nothing else changes |
| VmCode.Machine.Copyin | kernel/vm.c:373-396 | copyin succeeds exactly if the whole range is accessible and returns its bytes; it changes nothing |
| VmCode.CopyRoundTrip | kernel/vm.c:348-396 | copyout, then copyin of the same range, returns the bytes |
| Fs.BitmapMeaning | kernel/fs.c:65-105 | in a settled file system a bit of the free map is set exactly for metadata and for blocks that some file maps, data and indirect |
| Fs.MappedOnce | kernel/fs.c:375-421 | no block is mapped from two places, be they two positions, two files, or a position and an indirect block |
| Fs.MarkBitAt | kernel/fs.c:72-80 | setting or clearing the bit of one block changes the bit of no other block |
| Fs.TakeGood | kernel/fs.c:65-88 | allocating a free block keeps the invariant and every byte of every file |
| Fs.AttachDirect | kernel/fs.c:389-396 | putting a fresh block into a direct slot maps it at that position alone and keeps every byte |
| Fs.AttachVia | kernel/fs.c:407-416 | the same for an entry of the indirect block |
| Fs.AttachInd | kernel/fs.c:399-406 | a fresh indirect block maps nothing yet |
| Fs.DropDirectGood | kernel/fs.c:432-437 | freeing a direct block keeps the invariant and the other files |
| Fs.DropViaGood | kernel/fs.c:442-445 | the same for a block behind the indirect block, whose entry stays stale until the end |
| Fs.DropIndGood | kernel/fs.c:446-449 | the indirect block may be freed once nothing behind it is owned |
| Fs.PatchGood | kernel/fs.c:516-528 | laying bytes over a block of a file changes exactly those bytes of that file and of no other |
| Fs.WriteContent | kernel/fs.c:498-539 | as a flat sequence: the file after a write is its old prefix, the bytes written, and its old rest |
| Fs.StillNoHoles | kernel/fs.c:530-531 | a file without holes has none after a write |
| FsCode.FileSystem.Balloc | kernel/fs.c:65-88 | balloc returns the lowest free block, marked and zeroed, never block 0; it returns 0 exactly if no block is free |
| FsCode.FileSystem.Bfree | kernel/fs.c:91-105 | bfree clears the bit of one block; its precondition is the guard of the panic "freeing free block", which every caller meets |
| FsCode.FileSystem.Bmap | kernel/fs.c:375-421 | bmap changes what is mapped at its position alone, from nothing to a fresh block, or fails with the disk full; a mapped position changes nothing; every block it changes is logged |
| FsCode.FileSystem.BmapDirect | kernel/fs.c:389-396 | bmap for a direct block |
| FsCode.FileSystem.GetIndirect | kernel/fs.c:399-406 | loading the indirect block, allocating it if there is none, changes no position of any file |
| FsCode.FileSystem.BmapVia | kernel/fs.c:407-416 | bmap for a block behind the indirect block |
| FsCode.FileSystem.WriteChunk | kernel/fs.c:515-528 | one turn of the loop of writei |
| FsCode.FileSystem.WriteLoop | kernel/fs.c:515-528 | the loop of writei: the bytes in place are a prefix of the source, all other bytes of all files are as before, and the number of logged blocks is bounded by the blocks touched |
| FsCode.FileSystem.Writei | kernel/fs.c:498-539 | writei refuses exactly the offsets and lengths the code refuses; otherwise file i reads the source at off, every other byte of every file is as before, the size is max(old, off + r), r falls short only on a full disk or a faulting source, the inode on disk is the one in memory; inside a transaction every block that came into use or changed is logged, but for the bytes of the block whose copy faulted; if no copy faulted it is a complete program of the steps in FsSteps and logs exactly their blocks |
| FsCode.FileSystem.ReadChunk | kernel/fs.c:482-494 | one turn of the loop of readi |
| FsCode.FileSystem.Readi | kernel/fs.c:467-496 | readi delivers exactly the requested bytes clipped to the size; -1 exactly if the destination faults; it allocates a block, and so calls log_write, exactly if one of the blocks it looks up is a hole and the disk is not full, and changes and logs nothing otherwise |
| FsCode.FileSystem.Fileread | kernel/file.c:120-124 | fileread, which opens no transaction, panics in log_write exactly if one of the blocks to be read is a hole and the disk is not full; otherwise it changes nothing, delivers what readi does and advances the offset by what was read |
| FsCode.FileSystem.TruncDirect | kernel/fs.c:432-437 | the loop over the direct blocks |
| FsCode.FileSystem.TruncIndirect | kernel/fs.c:439-449 | itrunc frees every block behind the indirect block and then the indirect block |
| FsCode.FileSystem.TruncVias | kernel/fs.c:440-446 | the loop over the indirect block frees every block that it names, and nothing else |
| FsCode.FileSystem.Itrunc | kernel/fs.c:423-453 | itrunc frees exactly the blocks of file i, data and indirect, leaves every other file its bytes, and as a transaction logs exactly the inode block and the bitmap blocks of the blocks that it frees; it is a complete program of the steps in FsSteps |
| FsCode.TruncCost | kernel/fs.c:423-453 | those are at most one block more than the disk has bitmap blocks, and fit MAXOPBLOCKS on every disk of at most MAXOPBLOCKS - 1 bitmap blocks |
| FsCode.FileSystem.Filewrite | kernel/file.c:132-181 | filewrite puts the source at the offset; none of the transactions that it ends logs more than MAXOPBLOCKS blocks if the file has no holes, for any offset and any number of bitmap blocks, and none ever more than one above that; each starts from the well-formed file system that the one before left and logs what it changed |
| FsCode.FileSystem.WriteTxn | kernel/file.c:160-166 | one transaction of filewrite: what begin_op, writei and end_op leave and record, within the bound |
| FsCode.ChunkCost | kernel/file.c:150-156 | the arithmetic of the chunk size: touched blocks, bitmap blocks, indirect block and inode of 3072 bytes at any offset |
| FsWorst.WorstChunk | kernel/file.c:143-156 | the bound is reached: on a well-formed disk a write of one chunk, to its full length, logs exactly MAXOPBLOCKS blocks, and one more if it starts in a hole; no transaction that leads to the same file system can log fewer |
| FsWorst.StartGood | kernel/fs.c:65-88 | that disk, whose free blocks lie one to a bitmap block, satisfies the invariant of the file system |
| FsWorst.StartFits | mkfs/mkfs.c:93-103 | that disk has the order of regions that mkfs lays out, so that FsCrash applies to it |
| FsWorst.StartHoles | kernel/file.c:143-156 | its file has no holes exactly in the first case |
| FsImage.AddrBack | kernel/fs.h:32-39 | block maps read from the words of inode blocks and indirect blocks are those of the file system that the blocks store |
| FsImage.ReadsBack | kernel/fs.h:29-57 | sizes and bytes of every file read back from the blocks, through dinodes, indirect blocks and little-endian words, are those of the file system that the blocks store |
| FsImage.BitBack | kernel/fs.h:47-51 | the bit of a block in the free map on disk is set exactly if the block is in use |
| FsImage.IupdateWords | kernel/fs.c:221-241 | storing an inode changes the words of its own dinode; the other inodes of the block and all other blocks keep theirs |
| FsImage.Iupdate | kernel/fs.c:221-241 | the stores of iupdate turn the buffer that stands for the old inodes into the one that stands for the new |
| FsCrash.BehindGood | kernel/fs.c:495-497 | a file system that differs from a well-formed one only in bytes of data blocks is well-formed, so unlogged data costs bytes and no structure |
| FsCrash.Untouched | kernel/fs.c:477-539 | blocks that a transaction did not log already hold what the new file system needs there |
| FsCrash.KeptExact | kernel/fs.c:519-526 | after a commit the disk has the bytes that memory has if and only if every changed block was logged, and so whenever no copy faulted |
| FsCode.MergeTransacts | kernel/log.c:10-16 | transactions one after the other are together one transaction, which logs the blocks of all of them |
| FsCrash.GroupWrites | kernel/log.c:144-175 | when the last end_op of a serialized group starts the commit, the pending log_writes are those of the group taken as one transaction |
| FsCrash.CommitSane | kernel/log.c:193-203 | a transaction that logged what it owes leads, once committed, from blocks that store a well-formed file system to blocks that store the next one |
| FsCrash.FileSystemSurvives | kernel/fs.c:40-47 | on a disk that stores a well-formed file system, after any run in which operations overlap freely and those that commit together are serialized, stopped at any step with any crashes before, recovery leaves blocks that store a well-formed file system with no block leaked |
| FsCrash.SurvivorIsLatest | kernel/log.c:116-203 | that file system is the one after the last group that committed, byte for byte unless a copy faulted, and the groups that committed consist of exactly the saved operations of the log |
| FsCrash.Remounted | kernel/fs.c:40-47 | what the kernel then reads from the disk: every file with its size and bytes, and a free map whose set bits are exactly metadata and mapped blocks |
| FsCrash.FilewriteCut | kernel/file.c:149-175 | a filewrite cut short by crashes leaves the file system after the first k of its transactions, for some k |
| FsCrash.TransactionRuns | kernel/log.c:126-142 | a transaction that logs no more blocks than the log holds, none of them in the log area, can run up to its end_op |
| FsSteps.DoGood | kernel/fs.c:382-416 | every step of a write or a truncation keeps the file system well-formed, and moves blocks between its file and the free ones at most |
| FsSteps.OtherFile | kernel/fs.c:382-416 | a step on one file leaves every other file its inode and its whole block map |
| FsSteps.CanOther | kernel/fs.c:65-88 | a step on one file takes nothing from another but the block it allocates, and gives it nothing but the block it frees |
| FsSteps.Commute | kernel/fs.c:65-88 | steps on different files commute, allocating and freeing in the same byte of the free map included |
| FsSteps.Swap | kernel/fs.c:506-539 | a step that was done after one on another file could have been done before it, with the same effect and the same log_writes, unless it took the block that the other freed |
| FsSteps.Delay | kernel/fs.c:506-539 | the same for a step and all of another operation |
| FsSteps.Pull | kernel/file.c:160-166 | of operations that overlap, one that held its inode lock before the others on that file, and takes no block that another freed before, can be done first as a whole; the rest can still be done, the outcome is the same and every operation passes the same blocks to log_write |
| FsOverlap.ProgTransacts | kernel/fs.c:498-539 | steps on one file, completed by iupdate if the inode changed and by freeing the indirect block if entries of it were freed, are a transaction that logs all it owes |
| FsOverlap.SerialChain | kernel/log.c:10-16 | operations that overlap step by step are a chain of transactions, one after the other in any order that respects the inode locks and has blocks freed before they are taken, which ends where the overlapping steps end |
| FsOverlap.SerialLogs | kernel/log.c:10-16 | in that order each operation logs exactly the blocks that it logs when they overlap |
| FsOverlap.OrderExists | kernel/fs.c:293-319 | there is such an order whenever each operation holds its inode lock from its first step to its last and either frees nothing or takes nothing |
| FsOverlap.SaveWrites | kernel/fs.c:225-241 | what the overlapping steps log at iupdate is the inode block with this one inode copied in, the other inodes as they were stored last |
| FsOverlap.StepEnc | kernel/fs.c:382-453 | a step leaves the buffer of every block that it neither logs nor frees as it was |
| FsOverlap.AllStored | kernel/fs.c:225-241 | when the last operation ends, the buffers of the inode blocks have every inode that memory has |
| FsOverlap.ShownFinal | kernel/log.c:177-191 | what was logged last of a block is what its buffer holds in the end, unless the block is free then |
| FsOverlap.TraceFinal | kernel/fs.c:506-539 | what was logged last of a block is what the block holds in the end, in the form it has on disk, however the operations overlap, unless the block is free then |
| FsOverlap.OverlapSerializes | kernel/log.c:144-175 | overlapping writes and truncations that commit together are serialized; inodes that share a block may be changed and stored in any order |
| FsOverlap.OverlapSurvives | kernel/file.c:160-166 | crash safety without a condition on serialization: writes and truncations overlap step by step in any way that the inode locks allow, and after a crash at any step recovery finds a well-formed file system |
| FsOverlap.OverlapRuns | kernel/log.c:126-142 | every such overlap of as many operations as begin_op admits at once, whose blocks the log has room for, has a run: the operations begin, issue exactly these log_writes in this order, and the last end_op finds them serialized and starts their commit |
| FsOverlap.StepHome | kernel/fs.c:65-88 | no step logs a block of the log area |
| Proc.RunInv | kernel/proc.c:285-623 | for every interleaving of fork, exit, wait, sleep, wakeup, kill, the scheduler and one sleep lock, with a timer interrupt wherever a thread holds no spinlock: process states, locks, the tree and the history stay consistent |
| Proc.NoDeadParent | kernel/proc.c:337-397 | in every run a parent is a process that has not exited, and every process but init that has begun to run has one |
| Proc.NoZombieMissed | kernel/proc.c:399-451 | in every run, while wait_lock is free no process that sleeps in wait, or is past the point of no return to sleep, has a zombie child |
| Proc.ReapSafe | kernel/proc.c:419-438 | what wait reaps is a dead child of the caller that is off every CPU, was never reaped before, and yields the status given to exit |
| Proc.NoExitLost | kernel/proc.c:353-397 | until its pid is reaped, an exited process stands in the table as a zombie with its status and a parent |
| Proc.NoChildren | kernel/proc.c:441-446 | wait gives up on a process that is not killed only if it has no children |
| Proc.NoLostWakeup | kernel/sleeplock.c:21-41 | in every run, with the inner spinlock free, whoever sleeps on the sleep lock or is bound to finds it held by some process |
| Proc.MutualExclusion | kernel/sleeplock.c:21-41 | at most one process is between acquiresleep and releasesleep, and the lock names its pid |
| Proc.OneCpu | kernel/proc.c:460-516 | the scheduler never picks a process that is on a CPU; when a process switches away it holds its lock and is not RUNNING |
| Proc.UniquePids | kernel/proc.c:91-116 | in every run no two processes share a pid and none has pid 0 |
| Proc.KilledExactly | kernel/proc.c:601-630 | in every run a slot is marked killed if and only if, since freeproc last cleared it, kill hit it or its process marked itself |
| Proc.UnusedMarked | kernel/proc.c:601-623 | in every run a slot not in use has pid 0, and it is marked if and only if kill(0) hit it since it was last freed |
| Proc.BornKilled | kernel/proc.c:107-154 | a process starts killed if and only if kill(0) hit its slot since the slot was last freed; so none does in a run without kill(0) |
| Proc.KillZeroStrikes | kernel/proc.c:601-623 | a run in which kill(0) succeeds on the first unused slot and the process that fork puts there is ready to run and killed |
| Proc.NextInv | kernel/proc.c:285-623 | each single step keeps the invariant |
| Proc.WakeReaches | kernel/proc.c:579-597 | a wakeup that passes a process which sleeps on its channel, or is about to, leaves it awake |
| Proc.NeglectedBefore | kernel/proc.c:337-397 | a sleeping waiter comes to have a zombie child only by reparent giving it to init |
| Proc.ExcuseLasts | kernel/proc.c:337-351 | init, given a child while asleep, stays excused until the wakeup in reparent reaches it |
| Proc.ReleaseLasts | kernel/sleeplock.c:33-41 | a sleeper on a released sleep lock stays excused until the wakeup in releasesleep reaches it |
| Umalloc.Heap.constructor | user/umalloc.c:21-22 | before the first call there is no free list |
| Umalloc.Heap.FindPlace | user/umalloc.c:30-32 | the loop of free ends, at the one block after which the freed block belongs |
| Umalloc.Heap.Free | user/umalloc.c:24-44 | free adds exactly the units of the block to the free ones; the list stays circular, in address order and without adjacent blocks |
| Umalloc.Heap.Morecore | user/umalloc.c:46-61 | morecore adds exactly the units sbrk granted, at least 4096, or changes nothing |
| Umalloc.Heap.Allot | user/umalloc.c:75-84 | the block handed out comes from the free units and takes exactly its own out of them |
| Umalloc.Heap.Malloc | user/umalloc.c:63-90 | malloc ends, calls morecore at most once, and returns a block large enough that overlaps no live block; it returns 0 only if no free block is large enough and sbrk refuses |
| Umalloc.SbrkExact | user/umalloc.c:46-60 | the number of bytes that morecore wants reaches the int parameter of sbrk whole if and only if the request is at most 0x80000000 - 32 bytes |
| Umalloc.InsertOrdered | user/umalloc.c:33-42 | all four ways of joining a freed block with its neighbours keep the list ordered and without adjacent blocks |
| Umalloc.InsertCovers | user/umalloc.c:33-42 | joining adds exactly the units of the freed block |
| Umalloc.FreeLinked | user/umalloc.c:33-42 | the stores of free make the headers link exactly the new list |
| Umalloc.TakeLinked | user/umalloc.c:75-82 | the stores of malloc make the headers link exactly the new list |
| Umalloc.TakeCovers | user/umalloc.c:75-82 | cutting a block removes exactly its units from the free ones |
| Umalloc.FreePartition | user/umalloc.c:24-44 | free and live units share out the units obtained, before and after free |
| Umalloc.TakePartition | user/umalloc.c:63-84 | free and live units share out the units obtained, before and after malloc |
| Umalloc.NUnits | user/umalloc.c:69 | a request in Headers: room for the data, less than one Header more, and the header itself |
| Virtio.Disk.constructor | kernel/virtio_disk.c:61-153 | all descriptors start out free |
| Virtio.Disk.AllocDesc | kernel/virtio_disk.c:155-166 | the lowest free descriptor, or -1 if none is free |
| Virtio.Disk.Alloc3Desc | kernel/virtio_disk.c:199-213 | three descriptors exactly if three are free; otherwise all that was taken is given back |
| Virtio.Disk.FreeChain | kernel/virtio_disk.c:184-197 | the loop frees exactly the three descriptors of the chain and ends |
| Virtio.Disk.Submit | kernel/virtio_disk.c:215-281 | a request goes out as one chain of three descriptors that were free, at the end of the available ring; no entry the device has not read is overwritten, across 16-bit wrap |
| Virtio.Disk.DeviceTake | kernel/virtio_disk.c:271-281 | reading the ring in order, the device finds each request as it was made: direction, sector and buffer |
| Virtio.Disk.DeviceDone | kernel/virtio_disk.c:309-314 | the device may return requests in any order; no used entry the driver has not read is overwritten |
| Virtio.Disk.HandleOne | kernel/virtio_disk.c:312-324 | one turn of the interrupt loop clears the disk flag of the buffer of the completed request and of no other; its status panic is out of reach |
| Virtio.Disk.Interrupt | kernel/virtio_disk.c:294-327 | the handler releases exactly the buffers of the requests the device has returned |
| Virtio.Disk.Finish | kernel/virtio_disk.c:283-292 | virtio_disk_rw goes on exactly if its own request was handled, and then frees its three descriptors and no others |
| Virtio.Room | kernel/virtio_disk.c:271-277 | a ring of NUM cells never overflows, since the heads waiting in it are distinct descriptors |
| Virtio.Waiting | kernel/virtio_disk.c:312 | the wrapped 16-bit indices tell exactly whether entries are waiting |
| Sh.RoundTrip | user/sh.c:328-343 | for every command tree with legal words and at most nine to a command, parsing its fully parenthesised print gives back the tree with nothing left over |
| Sh.LineTrip | user/sh.c:345-447 | the same inside a longer line: the parse stops right behind the printed command |
| Sh.BlockTrip | user/sh.c:400-414 | a parenthesised command parses to the command inside, up to the redirections after it |
| Sh.ArgsTrip | user/sh.c:416-447 | up to nine words parse to one command with these arguments |
| Sh.WordToken | user/sh.c:266-309 | a word up to a separator is one token |
| ShCode.Parser.GetTok | user/sh.c:266-309 | gettoken returns the code of the next token, its first and last position for a word, and moves the cursor to the next token |
| ShCode.Parser.PeekTok | user/sh.c:311-321 | peek moves over white space only and tells whether one of the characters comes next |
| ShCode.Parser.ParseRedirs | user/sh.c:375-398 | the loop wraps the command into one redirection per arrow, or fails without a file name |
| ShCode.Parser.ParseArgs | user/sh.c:430-447 | the loop of parseexec collects words and redirections, with the two panics "syntax" and "too many args" |
| ShCode.Parser.ParseExecCmd | user/sh.c:416-447 | parseexec computes ParseExec of the rest of the line and ends on every input |
| ShCode.Parser.ParseBlockCmd | user/sh.c:400-414 | parseblock computes ParseBlock, with its panics |
| ShCode.Parser.ParsePipeCmd | user/sh.c:362-373 | parsepipe computes ParsePipe |
| ShCode.Parser.ParseLineCmd | user/sh.c:345-360 | parseline computes ParseLine |
| ShCode.Parser.ParseCommand | user/sh.c:328-340 | parsecmd up to nulterminate computes ParseCmd: the command whose words its pointers delimit, or the error |
| ShCode.Parsecmd | user/sh.c:328-343 | all of parsecmd on a buffer with a line: strlen, the parser, nulterminate; afterwards the C string at every argument and file name of the command is the word that stood there, and an error leaves the buffer alone |
| ShCode.Nulterminate | user/sh.c:449-494 | exactly the characters behind the words of the command become NUL |
| ShCode.WordsCut | user/sh.c:449-494 | after nulterminate the C string at every argument and file name is exactly its word |
| ShCode.PutArgText | user/sh.c:437-439 | an argument stored through cmd lands in the command inside all redirections made so far |
| Grep.Match | user/grep.c:72-82 | match ends and is true exactly if a word of the language of the pattern begins at some position of the text, the start only under ^ |
| Grep.MatchHere | user/grep.c:84-96 | matchhere is true exactly if a word of the language begins the text, being the whole text under a final $ |
| Grep.MatchStar | user/grep.c:98-106 | matchstar is true exactly if the rest matches after some run of the starred character |
| Grep.HereStar | user/grep.c:89-90 | a starred pattern begins the text exactly if the rest of the pattern begins what some run leaves |
| Grep.HereOne | user/grep.c:93-94 | the same for a single character or dot |
| Pipes.Pipe.constructor | kernel/pipe.c:33-36 | a new pipe is empty and open at both ends |
| Pipes.Pipe.Write | kernel/pipe.c:76-103 | pipewrite appends exactly the bytes it counts; it sleeps exactly on a full ring, fails only without a reader or when killed |
| Pipes.Pipe.Read | kernel/pipe.c:105-130 | piperead delivers the next bytes in order; it sleeps only on an empty open pipe; a byte whose copy faults is taken and not delivered |
| Pipes.Pipe.PutByte | kernel/pipe.c:95 | a byte put into a ring that is not full overwrites no byte that is still to be taken |
| Pipes.Pipe.TakeByte | kernel/pipe.c:123 | the byte taken is the oldest one not yet taken |
| Pipes.Pipe.Close | kernel/pipe.c:58-74 | closing an end keeps the bytes; the page goes when both ends are closed |
| Pipes.FullEmpty | kernel/pipe.c:88-113 | the tests on the wrapped 32-bit counters tell a full and an empty ring exactly |
| Arith.WrapSafe | kernel/pipe.c:95 | indexing a ring by a wrapped counter is right for all counts if and only if the ring size divides the range of the counter |

## Left out

- Assembly, boot, traps, interrupts and timers, PLIC, UART, console: hardware plumbing; a context switch is a step of `Proc`.
- Memory ordering: sections under a lock are steps, and fences are not modelled.
- Directories, path names, link counts, the inode table and ialloc (kernel/fs.c, kernel/sysfile.c): the model has inodes by number.
- ELF loading and argument fetching (kernel/exec.c, kernel/syscall.c), trace and sysinfo, printf and string helpers, the line buffer of grep: parsing of fixed headers, counters, and loops with one branch.
- A second device: all blocks are on ROOTDEV, as in this kernel.
- Bytes and block numbers in `Fs` are kept apart: an indirect block is a sequence of 256 block numbers and an inode a record, so that the code cannot read one as the other; `FsImage` gives them their words on disk, unbounded numbers in place of 32-bit ones.
- The fields type, major, minor and nlink of an inode: in `FsImage` their words stay what the raw bytes of the block are.
- FsCrash.FileSystemSurvives: that operations which commit together amount to their transactions one after the other is a condition on the run here; `FsOverlap.OverlapSurvives` does without it. A faulting copy into a block that is already logged in the same group changes its buffer after its log_write; the block then counts as logged with the bytes that commit finds in the buffer.
- FsOverlap.OverlapSurvives: each of the operations that overlap works on one file; those that change two inodes, and copies that fault, are covered by `FsCrash.FileSystemSurvives` only. A block is allocated or freed and the block map brought up to date in one step, although the kernel releases the bitmap buffer in between: the rest touches only that block, which no other process knows or names, and blocks that the inode lock protects. An entry of an indirect block counts as empty once its block is freed; the kernel leaves it and frees the indirect block later.
- Disk writes are atomic, ordered block writes; the device in `Virtio` answers without error.
- FsCode.FileSystem.Fileread: once the panic is met, what the code would have done next is reported as if it had gone on.
- FsCode.FileSystem.Writei: a faulting source leaves a changed buffer that is not logged; the contract keeps the change in the contents of the block, as later reads of the buffer do; that the buffer may be recycled, and the older bytes return, is followed in `FsCrash` only.
- VmCode.Machine.Walk: page numbers, not addresses, index the tables; bits 5 to 9 of an entry are always 0 here.
- VmCode.Machine.Mappages: permissions without read, write and execute, which would make the entry a pointer to a table, are excluded.
- VmCode.Machine.Copyin: bytes are numbers and the kernel buffer is a result.
- Proc.RunInv: the number of CPUs is not bounded, pids do not wrap, and a fork that fails takes and frees its slot in one step; kernel stacks, open files and the current directory are not modelled.
- Proc.NoLostWakeup: one sleep lock among other sleepers; an exiting process holds none.
- Umalloc.Heap.Malloc: for a request whose size does not fit the int of sbrk (`Umalloc.SbrkExact`) only the outcome without new memory is modelled; sbrk returns addresses at or above all earlier ones; user code does not write over headers.
- Pipes.Pipe.Write: sleeping and waking are the end and the start of a section; that a sleeper is woken is proved for wait and for sleep locks in `Proc`.
- Virtio.Disk.Submit: lengths and addresses of descriptors are represented by what they point at.
- ShCode.Parser.ParseArgs: commands are values, so the pointer to the inner command through which the code stores arguments is the function PutArg.
