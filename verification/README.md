# Verification of xv6 for RISC-V

A Dafny model of the parts of xv6 whose correctness does not show in any one function: the crash-safe log over the
buffer cache, the inode layer, page tables and the page allocator, the process table, the virtio disk driver, and
three user programs. Objects that the kernel updates in place are classes with methods and loops, proved against
specifications. Code that runs concurrently is a step system: each action is one section under a lock, one access to
shared memory, or one block write, and theorems are about all runs, over every interleaving.

- `GroupCommit`, `CrashLog`, `Log`, `BufferCache`: begin_op, end_op and log_write as a reservation system; disk, cache,
  log, crash and recovery as one step system; and kernel/log.c and kernel/bio.c as classes whose every disk write and
  lock operation is an action of it.
- `Blocks`, `Fs`, `ChunkBound`: bitmap allocator, block map, truncation, reading and writing, and the number of blocks
  that one transaction of filewrite logs.
- `InodeTable`, `InodeUse`, `Namespace`: the table of in-memory inodes under interleaving; directories, link counts and
  paths.
- `PageTable`, `Vm`: Sv39 page tables as forests of three-level trees, kernel/vm.c, kernel/kalloc.c and the page-table
  parts of kernel/proc.c.
- `Proc`, `ProcCalls`: fork with its unlocked publish, exit, wait, sleep, wakeup, kill and the schedulers; and what wait,
  kill and wakeup promise their callers.
- `Virtqueue`, `VirtioDriver`: the split virtqueue of sections 2.6 and 5.2 of VIRTIO 1.1, and the driver on top of it.
- `Umalloc`, `Shell`, `Grep`: the user allocator, the shell parser, and the regular-expression matcher with its line
  buffer.
- `Prelude`: definitions that several modules share.

`dafny verify dfyconfig.toml` checks the project; that file lists the sources. Input from outside (what read returns,
whether memory or disk space is left, which inode ialloc finds, when the device acts) is a parameter of a method or a
free choice of a step.

## Model

| member | source | states |
|---|---|---|
| GroupCommit.StepKeepsInv | kernel/log.c:127-235 | each critical section of begin_op, end_op and log_write keeps: distinct logged blocks, and lh.n plus all unspent reservations within LOGSIZE |
| GroupCommit.RunsKeepReservation | kernel/log.c:127-175 | over every interleaving the blocks in the log plus all unspent reservations fit in LOGSIZE, and no operation is outstanding while a commit runs |
| GroupCommit.NoLogWhileCommitting | kernel/log.c:147-175 | no operation can log while a commit runs, and end_op never meets its "log.committing" panic |
| GroupCommit.ReservedNeverPanics | kernel/log.c:127-142 | with log.size above LOGSIZE an operation that has unspent reservation never meets the full-log panic, in any interleaving |
| GroupCommit.SmallLogPanics | kernel/log.c:215-220 | for every log.size up to LOGSIZE some allowed interleaving makes an operation with unspent reservation panic: the bound on the size is exact |
| GroupCommit.AbsorbedWriteCanPanic | kernel/log.c:215-235 | however large the log, a log_write that would only be absorbed can panic, because the test comes before the absorption |
| GroupCommit.PanicExactly | kernel/log.c:215-235 | with log.size above LOGSIZE a log_write panics if and only if LOGSIZE distinct blocks are logged, and then no reservation is left unspent |
| CrashLog.SetHeader | kernel/log.c:103-114 | reading the header back gives exactly the block numbers written, whatever the buffer held before |
| CrashLog.StepKeepsSysInv | kernel/log.c:69-235 | every action of threads, commit, recovery and crash keeps the joint invariant of disk, cache, in-memory log and history |
| CrashLog.RunsKeepInv | kernel/log.c:69-235 | the invariant holds after every run, for any interleaving and any number of crashes |
| CrashLog.ReadsSeePlainDisk | kernel/bio.c:59-103 | at any point of any run bread hands out what a disk updated in place by every modification so far would hold |
| CrashLog.LoggedStayCached | kernel/log.c:215-235 | a logged block keeps a valid buffer with its modified data until it is installed, and no bget can recycle it |
| CrashLog.OnlyHeaderCommits | kernel/log.c:103-114 | what recovery restores changes with the committing header write, to everything done so far, and with no other action |
| CrashLog.CommitIsComplete | kernel/log.c:147-203 | durable updates belong to finished operations only; when the header is written no operation is running and every update becomes durable |
| CrashLog.CrashAtomicity | kernel/log.c:69-123 | stop any run anywhere and crash again any number of times during recovery: a completed recovery leaves every block outside the log at exactly the committed contents |
| CrashLog.CommitAllOrNothing | kernel/log.c:179-203 | a crash during one commit recovers to the state before the transaction if the header write had not happened, and to the state after it if it had |
| Log.LogDevice.constructor | kernel/log.c:55-65 | power-on with an empty log header starts a run of the step system |
| Log.LogDevice.Reboot | kernel/log.c:55-65 | after a stop at any point the new machine has the old disk, an empty cache and the same run extended by a crash |
| Log.LogDevice.Read | kernel/bio.c:93-103 | bread through the cache is the Get and Lock actions; other buffers stay unless unreferenced; it panics exactly when NBUF other blocks are referenced or pinned |
| Log.LogDevice.Modify | kernel/log.c:205-214 | changing the data of a locked buffer of the file system is one update of the run |
| Log.LogDevice.Release | kernel/bio.c:117-137 | brelse is the Release action; no buffer changes its block |
| Log.LogDevice.CopyOne | kernel/log.c:179-191 | one iteration of write_log is one CopyBlock action, or the bget panic, exactly when NBUF blocks are logged |
| Log.LogDevice.WriteLog | kernel/log.c:179-191 | write_log copies every block of the transaction to its log slot and changes nothing else; it fails exactly when NBUF blocks are logged |
| Log.LogDevice.InstallOne | kernel/log.c:69-83 | one iteration of install_trans writes one logged block home and drops its pin unless recovering; it fails exactly when NBUF pins are left, and never in recovery |
| Log.LogDevice.InstallTrans | kernel/log.c:69-83 | install_trans brings every logged block home; in recovery it never fails, in a commit exactly when NBUF blocks are logged |
| Log.LogDevice.WriteHead | kernel/log.c:103-114 | the header block on disk lists the in-memory blocks, and commit or recovery moves on; it fails exactly when NBUF blocks are pinned |
| Log.LogDevice.FillHeader | kernel/log.c:103-114 | the loop that fills the header buffer produces a block whose header is the in-memory list |
| Log.LogDevice.ReadHead | kernel/log.c:87-97 | the in-memory header becomes the one on disk; there is always a buffer for it |
| Log.LogDevice.LoadHeader | kernel/log.c:87-97 | the loop over the block numbers reproduces the header of the block |
| Log.LogDevice.RecoverFromLog | kernel/log.c:117-123 | recovery always completes: every block outside the log then holds what was last committed, and the log is empty |
| Log.LogDevice.Commit | kernel/log.c:194-203 | commit succeeds exactly when fewer than NBUF blocks are logged; then every update is durable, in its home block, and the log is empty |
| Log.LogDevice.BeginOp | kernel/log.c:127-142 | admitted exactly when no commit runs and MAXOPBLOCKS more blocks per operation still fit |
| Log.LogDevice.EndOp | kernel/log.c:147-175 | the last operation to end commits everything, and fails exactly when NBUF blocks are logged; the others change only the count; the "log.committing" panic cannot happen |
| Log.LogDevice.LogWrite | kernel/log.c:215-235 | fails exactly on its two panics; otherwise the header gains the block, or absorbs it, and a new block is pinned |
| Log.LogDevice.Find | kernel/log.c:224-227 | the absorption loop finds the index of the block in the header, or n |
| Log.LogDevice.LogBlock | kernel/log.c:205-235 | read, change, log, release: one update of the run and one logged block; it fails exactly on a full log |
| Log.HeldCount | kernel/log.c:215-235 | while no thread holds a buffer, exactly the logged blocks not yet installed keep theirs, and they are as many |
| Log.FullGroup | kernel/log.c:127-203 | three operations that begin_op admits log NBUF blocks together, each within MAXOPBLOCKS; the commit of the last one panics |
| BufferCache.UnlinkRing | kernel/bio.c:125-127 | taking a buffer out by its two link stores leaves one doubly linked ring of the others, in order |
| BufferCache.PushFrontRing | kernel/bio.c:128-131 | the four link stores put a buffer first and leave one doubly linked ring |
| BufferCache.BCache.constructor | kernel/bio.c:37-53 | binit makes one ring of all buffers, none valid, none referenced |
| BufferCache.BCache.FindCached | kernel/bio.c:66-73 | the forward scan finds the buffer of the block, or there is none |
| BufferCache.BCache.FindUnused | kernel/bio.c:75-86 | the backward scan finds the least recently used unreferenced buffer, or all are referenced |
| BufferCache.BusyCount | kernel/bio.c:75-88 | all buffers are referenced exactly when NBUF different blocks are |
| BufferCache.BCache.Bget | kernel/bio.c:59-89 | one more reference to the buffer of the block; a miss recycles an unreferenced buffer and leaves it not valid; at most one buffer per block |
| BufferCache.BCache.Bread | kernel/bio.c:93-103 | the locked buffer holds the cached data if there is any, otherwise what the disk holds |
| BufferCache.BCache.Bwrite | kernel/bio.c:107-112 | the block on disk becomes the data of the buffer |
| BufferCache.BCache.Brelse | kernel/bio.c:117-137 | unlocks, drops a reference, and moves the buffer to the front of the ring when it was the last |
| BufferCache.BCache.Bpin | kernel/bio.c:140-144 | one more reference, nothing else |
| BufferCache.BCache.Bunpin | kernel/bio.c:147-151 | one reference less, nothing else |
| BufferCache.GetAgrees | kernel/bio.c:59-89 | the Get action of the step system is bget as the cache class performs it |
| Blocks.BitOfSet | kernel/fs.c:66-88 | setting a bit of a bitmap block by or-ing a mask sets that bit and no other |
| Blocks.BitOfClear | kernel/fs.c:92-105 | clearing a bit of a bitmap block by masking clears that bit and no other |
| Blocks.WordOfPut | kernel/fs.c:383-421 | storing a block number in an indirect block changes that entry and no other |
| Fs.AssignDirect | kernel/fs.c:383-395 | giving a free block to an empty direct slot, or as indirect block, keeps one owner per block and the bitmap exact |
| Fs.AssignEntry | kernel/fs.c:399-417 | the same for an entry of the indirect block |
| Fs.FreeDirect | kernel/fs.c:426-437 | freeing a direct block finds its bit set and keeps one owner per block |
| Fs.DropEntry | kernel/fs.c:439-447 | freeing what entry n lists, without rewriting the indirect block, finds the bit set and keeps ownership exact |
| Fs.FreeIndirect | kernel/fs.c:439-449 | freeing the indirect block after its entries keeps ownership exact |
| Fs.StorePiece | kernel/fs.c:506-539 | storing bytes into the block of a file changes exactly those bytes of that file |
| Fs.FileSystem.constructor | kernel/fs.c:42-47 | a consistent image gives a consistent file system |
| Fs.FileSystem.Balloc | kernel/fs.c:66-88 | the lowest free block, now marked and zeroed, two blocks logged; 0 only when every block is in use |
| Fs.FileSystem.Bfree | kernel/fs.c:92-105 | clears exactly the bit of b; false, the panic, exactly when it was clear |
| Fs.FileSystem.Bmap | kernel/fs.c:383-421 | the block of file block bn, allocated if missing; ownership stays exact, file contents stay, and the blocks logged are named |
| Fs.FileSystem.Iupdate | kernel/fs.c:226-241 | the inode on disk becomes the one in memory |
| Fs.FileSystem.FreeDirects | kernel/fs.c:426-437 | the loop over direct slots frees exactly those blocks, without panic |
| Fs.FileSystem.FreeEntries | kernel/fs.c:439-449 | the loop over the indirect block frees exactly its entries and itself, without panic |
| Fs.FileSystem.Itrunc | kernel/fs.c:426-453 | frees exactly the blocks of the file, never reaches "freeing free block", and leaves other files alone |
| Fs.FileSystem.Readi | kernel/fs.c:472-496 | returns exactly the slice of the file, across the direct and indirect blocks, changes nothing and allocates nothing |
| Fs.FileSystem.WriteLoop | kernel/fs.c:517-530 | the loop of writei writes a prefix of the bytes and stops short exactly at a block that is missing on a full disk or that the source cannot fill; the logged blocks are bounded and, if complete, exactly known |
| Fs.FileSystem.Writei | kernel/fs.c:506-539 | splices exactly the bytes it reports into the file, other files unchanged; -1 exactly past the end or the largest file; short only at a block that is missing on a full disk or that the source cannot fill |
| Fs.FileSystem.WriteChunk | kernel/file.c:159-164 | one transaction of filewrite logs at most MAXOPBLOCKS blocks, and stops short only where writei does |
| Fs.FileSystem.Filewrite | kernel/file.c:135-181 | writes the bytes chunk by chunk and advances the offset by what was written; it stops short only at a missing block on a full disk, at an unreadable source, past the end of the file or at the largest file; no transaction logs more than MAXOPBLOCKS blocks |
| Fs.ChunkFits | kernel/file.c:149-155 | for every offset a chunk of at most MAXCHUNK bytes has a log bound of at most MAXOPBLOCKS |
| Fs.BoundIsTight | kernel/file.c:149-155 | a chunk over four blocks whose last three and indirect block are new logs MAXOPBLOCKS blocks if and only if the four allocations use four bitmap blocks |
| Fs.FirstBlockNew | kernel/file.c:149-155 | if the first block were new too the same chunk would log MAXOPBLOCKS + 1 blocks, if and only if five bitmap blocks are used |
| ChunkBound.TightChunk | kernel/file.c:156-175 | on a file system whose free blocks have their bits in different bitmap blocks, a chunk appended to a file of 11.5 blocks logs exactly MAXOPBLOCKS blocks |
| ChunkBound.TightExists | kernel/fs.c:66-88 | there is such a file system, consistent, with the layout mkfs gives it |
| ChunkBound.FirstBlockMatters | kernel/fs.c:506-539 | there is a file system, consistent but for a file that ends inside a block it does not have, on which the chunk would log MAXOPBLOCKS + 1 blocks |
| InodeTable.StepKeepsInv | kernel/fs.c:199-362 | every step of iget, idup, ilock, iupdate, iunlock, iput, ialloc and dirlink keeps the invariant of table, disk and references |
| InodeTable.RunsKeepInv | kernel/fs.c:199-362 | the invariant holds after every run, also when freed numbers are looked up |
| InodeTable.OneEntryPerInode | kernel/fs.c:247-277 | at most one referenced entry per inode number |
| InodeTable.UnlockedAgrees | kernel/fs.c:226-327 | a valid entry that nobody has locked equals the inode on disk |
| InodeTable.IlockSeesOwnInode | kernel/fs.c:293-317 | ilock shows the inode that was meant if and only if it was alive when the reference was taken; otherwise it panics or shows a later inode of the number |
| InodeTable.NoIlockPanics | kernel/fs.c:293-362 | in a run whose lookups find their inodes alive, ilock always shows the inode meant, also when ialloc reuses a number that iput is still freeing |
| InodeTable.LinkedIsAlive | kernel/fs.c:337-362 | an inode with a link is alive, so looking it up is safe |
| InodeTable.HeldIsAlive | kernel/fs.c:282-288 | an inode that a live reference holds is alive |
| InodeTable.StaleNumberPanics | kernel/fs.c:293-317 | a run in which a number is looked up after its inode was freed ends in "ilock: no type" |
| InodeTable.StaleNumberMisleads | kernel/fs.c:293-317 | a run in which the number was allocated again shows the new inode |
| InodeTable.IputNeverBlocks | kernel/fs.c:337-348 | when iput finds ref == 1 the sleep lock is free |
| InodeTable.LockedIsOwn | kernel/fs.c:293-327 | a live reference that holds the lock works on its own inode until it unlocks |
| InodeTable.UnlinkedCanStay | kernel/fs.c:337-362 | a run ends with an inode allocated, unlinked and unreferenced: iput did not free it |
| InodeTable.IputFreesExactly | kernel/fs.c:337-348 | iput of an unlinked inode frees it if and only if no other reference to the entry exists, even one about to drop its own |
| InodeUse.IallocIsNew | kernel/fs.c:199-220 | a new inode has the type asked for, no link and no content, and is later than everything that names or refers to its number; other inodes stay |
| InodeUse.IgetPanicsExactly | kernel/fs.c:247-277 | iget has a slot for an inode exactly when it is in use or fewer than NINODE inodes are |
| InodeUse.RunsKeepEmpty | kernel/fs.c:337-362 | over every run free inodes have no content and no link, and so has one that iput is about to free |
| InodeUse.FreeInodesEmpty | kernel/fs.c:337-362 | no run from a file system without them ever has a free inode with content or links |
| Namespace.CreateExactly | kernel/sysfile.c:246-302 | create leaves link counts, names and tree in order if and only if the directory is still linked and, for a directory, its count does not wrap |
| Namespace.LinkBeginExactly | kernel/sysfile.c:137-148 | the first half of link keeps order if and only if the count does not wrap |
| Namespace.LinkEndExactly | kernel/sysfile.c:150-156 | the second half keeps order if and only if the name goes into a linked directory |
| Namespace.LinkUndo | kernel/sysfile.c:163-170 | the failure path of link restores the count |
| Namespace.CreatedDirectly | kernel/sysfile.c:246-302 | create, inode by inode: kind, link count and entries of the new one, one slot and the count of the directory, all others the same |
| Namespace.UnlinkedDirectly | kernel/sysfile.c:189-243 | unlink, inode by inode |
| Namespace.UnlinkFinds | kernel/sysfile.c:189-215 | what unlink finds exists and has a link, so "unlink: nlink < 1" cannot happen |
| Namespace.UnlinkKeeps | kernel/sysfile.c:189-237 | unlink keeps link counts, names and tree in order |
| Namespace.ReleaseKeeps | kernel/fs.c:337-362 | freeing an inode without links keeps everything in order |
| Namespace.StepExactly | kernel/sysfile.c:124-302 | every locked section keeps order if and only if names go into linked directories and no count wraps |
| Namespace.RunsKeepOrder | kernel/sysfile.c:124-302 | order is kept over every run of such sections |
| Namespace.NamespaceTheorem | kernel/sysfile.c:124-302 | after every such run a link count is the number of names plus links under way, names in a directory differ, what has a name is reached from the root, and a directory has one place in the tree |
| Namespace.AllReachable | kernel/fs.c:652-684 | every inode with a name is reached from the root by a path |
| Namespace.PathLeadsOnce | kernel/fs.c:652-684 | a path leads to one inode |
| Namespace.RemovedParentLosesFile | kernel/sysfile.c:246-302 | mkdir, rmdir and a create in the removed directory leave a file with link count 1 and no name |
| Namespace.StepKeepsHistory | kernel/fs.c:552-606 | every section in scope keeps the record of which inode each directory slot was written for |
| Namespace.NameLeadsHomeExactly | kernel/fs.c:552-575 | after every run a name leads to the inode it was entered for if and only if it is not "..", or the directory is linked, or its parent was not freed since it was removed |
| Namespace.CleanWalk | kernel/fs.c:652-684 | a walk that takes ".." only out of such directories stays with existing inodes |
| Namespace.ParentGone | kernel/fs.c:652-684 | a run after which ".." of a removed directory names no inode, so that a path through it panics |
| Namespace.ParentReplaced | kernel/fs.c:652-684 | a run after which that ".." leads to an unrelated file |
| Namespace.FileTree.constructor | mkfs/mkfs.c:117-128 | a new file system with only the root directory is in order |
| Namespace.FileTree.Dirlookup | kernel/fs.c:552-575 | the first used entry with the name, or 0 exactly when there is none |
| Namespace.FileTree.Dirlink | kernel/fs.c:580-606 | enters the name in the first unused slot or at the end; fails, changing nothing, exactly when the name is there or nothing can be appended |
| Namespace.FileTree.Isdirempty | kernel/sysfile.c:174-186 | true exactly when nothing but the first two entries is used |
| Namespace.FileTree.Create | kernel/sysfile.c:246-302 | opens what is there, adds what is not, or gives 0 with nothing changed; a new inode has the kind asked for and one link, the directory holds its name in one more slot, and nothing else changes but the count of the parent of a directory; panics only on ".." of a removed directory; order kept exactly as above |
| Namespace.FileTree.LinkBegin | kernel/sysfile.c:137-148 | refuses directories; otherwise the count goes up before the name exists |
| Namespace.FileTree.LinkEnd | kernel/sysfile.c:150-170 | enters the name or takes the count back; exact outcome and exact order condition |
| Namespace.FileTree.Link | kernel/sysfile.c:124-170 | enters the name in one slot and counts it, nothing else; a failing link leaves everything as it was |
| Namespace.FileTree.Unlink | kernel/sysfile.c:189-243 | succeeds exactly on a present name other than "." and ".." of a file or an empty directory; clears that slot, takes a link from the inode and from the parent of a directory, frees the inode exactly with its last link and reference, and changes nothing else |
| Namespace.FileTree.Iput | kernel/fs.c:337-362 | the inode goes with its last reference exactly when it has no links |
| Namespace.FileTree.Namei | kernel/fs.c:652-684 | finds what the names lead to from any directory; panics exactly when they lead on through a freed inode; from a linked directory it never does |
| PageTable.WalkIsSv39 | kernel/vm.c:86-103 | the three-level walk finds the entry that the translation process of section 4.3.2 of the RISC-V Privileged Architecture, version 20211203, uses for Sv39 |
| PageTable.StoreLeaf | kernel/vm.c:86-103 | a store through the entry walk returns changes that page of that address space and no other |
| PageTable.HangLeaf | kernel/vm.c:92-100 | a fresh zeroed table changes no mapping |
| PageTable.HangTree | kernel/vm.c:92-100 | a fresh zeroed table keeps the page tables a forest of three-level trees |
| PageTable.RemoveTable | kernel/vm.c:279-294 | taking out an empty table whose entry is cleared keeps the forest |
| Vm.FramesDiffer | kernel/vm.c:233-256 | n mapped pages of one address space lie in n different frames |
| Vm.MemoryBound | kernel/memlayout.h:39-59 | no contiguous address space has more pages than there are frames, so none reaches TRAPFRAME |
| Vm.Undone | kernel/vm.c:233-256 | adding pages and taking them away again restores every mapping |
| Vm.AtLast | kernel/vm.c:86-103 | walk takes exactly as many frames as tables are missing, builds those and no others, and fails exactly when there are fewer |
| Vm.MissingNow | kernel/vm.c:233-256 | when pages are mapped in order, what a page finds missing is what it is the first of them to need |
| Vm.NeedBound | kernel/vm.c:313-340 | a memory of n pages from 0 on takes at most n frames, one for every 512 of them and one for every 512 of those |
| Vm.GrownMemory | kernel/proc.c:260-275 | added pages are writable and zero, and every byte that could be read before is there with the same rights |
| Vm.CopyReadsSame | kernel/vm.c:313-340 | a forked child reads the bytes its parent read, with the same rights, from other frames |
| Vm.Returned | kernel/proc.c:211-216 | a frame that lost its owner is on the free list |
| Vm.Kernel.constructor | kernel/kalloc.c:27-31 | at boot every page of the allocator is accounted for |
| Vm.Kernel.Kinit | kernel/kalloc.c:34-40 | freerange puts every page from end to PHYSTOP on the free list |
| Vm.Kernel.Kalloc | kernel/kalloc.c:69-82 | the first page of the free list, filled with 5; 0 exactly when the list is empty; every page keeps exactly one owner |
| Vm.Kernel.Kfree | kernel/kalloc.c:47-63 | the page is first on the free list, filled with 1; false, the panic, exactly outside the range |
| Vm.Kernel.Walk | kernel/vm.c:86-103 | the last-level table for a page, no mapping changed; it takes exactly the frames of the missing tables, and gives 0 exactly when there are fewer |
| Vm.Kernel.Find | kernel/vm.c:86-103 | walk without allocation changes nothing and finds the last-level table if there is one |
| Vm.Kernel.Mappages | kernel/vm.c:144-172 | maps exactly the pages done, to consecutive frames with the permissions; remap only on a mapped page; short only at a page without a table when no page is free |
| Vm.Kernel.Uvmunmap | kernel/vm.c:178-199 | clears exactly the named pages and gives their frames back if asked |
| Vm.Kernel.Walkaddr | kernel/vm.c:109-126 | the frame of a page the user may access, otherwise 0 |
| Vm.Kernel.Uvmcreate | kernel/vm.c:204-212 | an empty page table; 0 exactly without a free page, and then no change |
| Vm.Kernel.Uvmalloc | kernel/vm.c:233-256 | adds zeroed pages up to newsz exactly when the free list holds them and the missing tables, otherwise restores every mapping and owner; never meets a mapped page or TRAPFRAME, for any size |
| Vm.Kernel.Uvmdealloc | kernel/vm.c:263-274 | removes exactly the pages above newsz |
| Vm.Kernel.Freewalk | kernel/vm.c:279-294 | frees all tables of a tree without leaves and never panics |
| Vm.Kernel.Uvmfree | kernel/vm.c:299-304 | user memory and page table are gone, other address spaces unchanged |
| Vm.Kernel.Uvmcopy | kernel/vm.c:313-340 | the child maps the same pages with the same flags and bytes in frames of its own, exactly when the free list holds them and the tables it lacks; a failure restores every mapping and owner |
| Vm.Kernel.Uvmclear | kernel/vm.c:345-353 | takes the user bit of exactly one page |
| Vm.Kernel.Copyout | kernel/vm.c:359-383 | writes exactly the bytes up to the first page that is not writable, and fails exactly if there is one |
| Vm.Kernel.Copyin | kernel/vm.c:389-408 | succeeds exactly when all bytes are readable, and then returns them |
| Vm.Kernel.Copyinstr | kernel/vm.c:415-451 | returns the NUL-terminated string exactly when it ends within max readable bytes |
| Vm.Kernel.ProcPagetable | kernel/proc.c:177-206 | trampoline and trapframe mapped and nothing else, exactly when three pages are free; a failure leaves no trace, and the second mapping cannot fail |
| Vm.Kernel.ProcFreepagetable | kernel/proc.c:211-216 | every table and user frame of the process is back on the free list |
| Vm.Kernel.Growproc | kernel/proc.c:260-275 | the size changes by n, exactly when there are frames for it, or memory is as before; new bytes are writable and zero, and all other memory of all processes keeps its bytes and rights |
| Proc.StepKeepsInv | kernel/proc.c:110-621 | every step of fork, exit, wait, sleep, wakeup, kill and scheduler keeps the invariant of the process table |
| Proc.RunsKeepInv | kernel/proc.c:110-621 | the invariant holds after every interleaved run |
| Proc.OnlyMakerPublishes | kernel/proc.c:280-331 | a USED slot changes state only through the thread that allocated it |
| Proc.RunnableIsComplete | kernel/proc.c:321-331 | a RUNNABLE slot is fully built, has a pid, and a parent unless it is init |
| Proc.RunningOnOneCpu | kernel/proc.c:450-524 | while its lock is free a process is RUNNING if and only if one CPU names it, and never two do |
| Proc.SchedNeverPanics | kernel/proc.c:496-513 | in sched the process holds its own lock and no other and is not RUNNING, so no panic |
| Proc.ZombiesStayOut | kernel/proc.c:352-391 | a zombie is never scheduled again |
| Proc.NoLostExit | kernel/proc.c:336-440 | whenever wait_lock is free no process asleep in wait has a zombie child |
| Proc.ReapsOwnChildOnce | kernel/proc.c:396-425 | wait takes a child of the caller, not reaped before, and hands over its own pid and exit status |
| Proc.HistoryKept | kernel/proc.c:352-440 | a pid exits once; its status and its reaping are never lost |
| Proc.HistoryKeptByRuns | kernel/proc.c:352-440 | the same over whole runs |
| Proc.EachChildReapedOnce | kernel/proc.c:396-425 | over a whole run no pid is returned twice, and each with the status its process gave |
| ProcCalls.KillMarksFreeExactly | kernel/proc.c:603-621 | a step marks a free slot killed if and only if it is a kill of pid 0 that found one |
| ProcCalls.StartsUnkilled | kernel/proc.c:110-150 | in runs without kill(0) a new process starts unkilled |
| ProcCalls.KillZeroMarksNext | kernel/proc.c:603-621 | a run in which init calls kill(0) and forks: the child starts killed |
| ProcCalls.StepKeepsKids | kernel/proc.c:396-440 | every step keeps: the havekids of a wait in progress tells whether the slots looked at hold a child, and who sleeps in wait has one |
| ProcCalls.WaitKnowsChildren | kernel/proc.c:405-440 | in every reachable state havekids is true exactly when the caller has a child, and no process sleeps in wait without one |
| ProcCalls.WaitEndsExactly | kernel/proc.c:431-439 | after the scan wait returns -1 exactly when the caller has no child or is killed, and otherwise sleeps |
| ProcCalls.InitSleepsInWait | kernel/proc.c:396-440 | a run in which init forks and sleeps in wait while its child is still to run |
| ProcCalls.KillMarksOne | kernel/proc.c:603-621 | kill marks the one process with the pid, makes it RUNNABLE if it sleeps, and changes nothing else |
| ProcCalls.KillMissesNone | kernel/proc.c:603-621 | a kill that returns without having found a pid given out before the call: no process has it |
| ProcCalls.WakeupMissesNone | kernel/proc.c:583-598 | no process but the caller sleeps on the channel from the call of wakeup to its return |
| ProcCalls.SleepsWhereAsked | kernel/proc.c:553-580 | who calls sleep sleeps on that channel |
| ProcCalls.SleepersOnlyWake | kernel/proc.c:553-580 | a sleeping process keeps its channel and changes only to RUNNABLE, in every step |
| ProcCalls.StatusComesBack | kernel/proc.c:352-425 | since boot wait has returned no pid twice, and each with the status that process passed to exit |
| Virtqueue.StepIsSafe | kernel/virtio_disk.c:157-327 | no step of driver or device fails, and the invariant of descriptors, rings and indices is kept |
| Virtqueue.RunsKeepInv | kernel/virtio_disk.c:157-327 | the invariant holds after every interleaved run |
| Virtqueue.NothingFails | kernel/virtio_disk.c:157-327 | in every run nothing panics and the device, which follows section 2.6 of VIRTIO 1.1, reads only well-formed three-descriptor requests |
| Virtqueue.NoEntryOverwritten | kernel/virtio_disk.c:270-276 | an entry of the available ring that the device has not consumed is never overwritten, whatever the index wrapped to |
| Virtqueue.CallersWait | kernel/virtio_disk.c:282-292 | a caller returns only after its own request was completed by the device and marked once |
| Virtqueue.FreeChainOk | kernel/virtio_disk.c:170-197 | free_chain on a finished request frees exactly its three descriptors without panic |
| Virtqueue.AtMostTwo | kernel/virtio_disk.c:202-213 | eight descriptors hold at most two requests |
| VirtioDriver.Disk.constructor | kernel/virtio_disk.c:118-146 | after initialisation the driver is in the initial state of the step system |
| VirtioDriver.Disk.AllocDesc | kernel/virtio_disk.c:157-166 | the lowest free descriptor, or none |
| VirtioDriver.Disk.FreeDesc | kernel/virtio_disk.c:170-182 | frees and clears the descriptor; false exactly on its panics |
| VirtioDriver.Disk.Alloc3Desc | kernel/virtio_disk.c:202-213 | three descriptors, or none at all, exactly when fewer are free |
| VirtioDriver.Disk.FreeAll | kernel/virtio_disk.c:186-197 | the loop over the chain does what FreeChain says |
| VirtioDriver.Disk.Submit | kernel/virtio_disk.c:216-278 | descriptors, ring entry and index written as the step system says, exactly when fewer than two requests are under way; otherwise the caller must wait |
| VirtioDriver.Disk.Return | kernel/virtio_disk.c:282-292 | frees the chain of the finished request without panic |
| VirtioDriver.Disk.Interrupted | kernel/virtio_disk.c:295-327 | marks every completed request, in the order of the used ring |
| VirtioDriver.Disk.DeviceStep | kernel/virtio_disk.c:24-52 | a step of the device on the memory it shares keeps the driver in a run of the step system |
| Umalloc.PutCanonical | user/umalloc.c:25-44 | putting a block back keeps the ring address-ordered, disjoint and without adjacent blocks |
| Umalloc.PutUnits | user/umalloc.c:25-44 | free adds exactly the units of the block |
| Umalloc.PutFree | user/umalloc.c:25-44 | free makes exactly the bytes of the block free |
| Umalloc.PutApart | user/umalloc.c:25-44 | free keeps allocated and free memory apart |
| Umalloc.TakeCanonical | user/umalloc.c:73-85 | carving a block out keeps the ring in order |
| Umalloc.TakeUnits | user/umalloc.c:73-85 | malloc takes exactly the units asked for |
| Umalloc.TakeFree | user/umalloc.c:73-85 | malloc takes exactly the bytes of the block out of the free ones |
| Umalloc.TakeApart | user/umalloc.c:73-85 | the new block is apart from the free ones |
| Umalloc.TakePut | user/umalloc.c:25-90 | freeing what was just allocated gives back the very same list |
| Umalloc.FreeEffect | user/umalloc.c:25-44 | the stores of free leave headers that hold the list with the block put in |
| Umalloc.CarveEffect | user/umalloc.c:73-85 | the stores of malloc leave headers that hold the list with the block taken out |
| Umalloc.MisfireHeader | user/umalloc.c:47-61 | past the int range of sbrk the process shrinks, or a header is written for a block that reaches past the break, which no heap in order has |
| Umalloc.Heap.constructor | user/umalloc.c:21-22 | before the first call nothing is allocated |
| Umalloc.Heap.FindPlace | user/umalloc.c:30-32 | the search terminates and finds the two blocks that bp lies between |
| Umalloc.Heap.Free | user/umalloc.c:25-44 | exactly the bytes of the block become free, other blocks stay, the heap stays in order |
| Umalloc.Heap.Morecore | user/umalloc.c:47-61 | one sbrk; its bytes, and no others, become free; refused exactly without memory; misfires exactly past the int range |
| Umalloc.Heap.Search | user/umalloc.c:72-89 | the loop terminates, calls sbrk at most once and only when nothing fits, and gives 0 exactly when that is refused |
| Umalloc.Heap.Malloc | user/umalloc.c:64-90 | a block large enough, apart from all others, at most one sbrk; 0 exactly when nothing fits and sbrk refuses; free plus live units equal the units obtained; misfires exactly from 0x7FFFFFE1 bytes on |
| Shell.ScanIsTokens | user/sh.c:267-309 | the scanner produces tokens for every input |
| Shell.SpreadBack | user/sh.c:263-309 | tokens written with any white space between them, none where they can stand side by side, are read back |
| Shell.ScanSpread | user/sh.c:263-309 | every input is its tokens with white space between them: scanning loses nothing else |
| Shell.ScansExactly | user/sh.c:263-309 | the scanner reads these tokens if and only if the input is their spelling with proper white space |
| Shell.LineBack | user/sh.c:346-447 | parsing the printed form of a line gives the line back and stops where it ends |
| Shell.RoundTrip | user/sh.c:329-447 | parsing the printed form of a well-formed tree gives the tree back, with any white space between its tokens |
| Shell.LineWellFormed | user/sh.c:346-447 | what the grammar produces is well formed, with at most nine arguments per command |
| Shell.ProducesExactly | user/sh.c:329-447 | the trees that some input produces are exactly the well-formed ones |
| Shell.GetToken | user/sh.c:267-309 | returns the code and span of the next token of the input |
| Shell.Peek | user/sh.c:312-321 | tells whether the next character after blanks is one of those given |
| Shell.ParseRedirs | user/sh.c:376-398 | agrees with the grammar of redirections |
| Shell.ParseWords | user/sh.c:428-443 | agrees with the grammar of words and redirections, including "too many args" |
| Shell.ParseBlock | user/sh.c:401-414 | agrees with the grammar of blocks |
| Shell.ParseExec | user/sh.c:417-447 | agrees with the grammar of simple commands |
| Shell.ParsePipe | user/sh.c:363-373 | agrees with the grammar of pipelines |
| Shell.ParseLine | user/sh.c:346-360 | agrees with the grammar of lines, on every input, with termination |
| Shell.EndsBetweenWords | user/sh.c:451-494 | no string of a command ends inside a word |
| Shell.AllTerminated | user/sh.c:451-494 | when all ends of a command are cut, every string of it is a C string equal to its token |
| Shell.NulTerminate | user/sh.c:451-494 | writes NUL exactly at the ends of the strings of the command |
| Shell.ParseCmd | user/sh.c:329-343 | accepts what the grammar accepts with the same tree, panics with the same message otherwise, and leaves every word a C string of its own |
| Grep.AcceptsStar | user/grep.c:99-106 | a starred item followed by the rest accepts a text exactly when the rest accepts it after some run of fitting characters |
| Grep.ItemsExactly | user/grep.c:85-96 | an expression is read in the one way that spells it, gives every "*" to the character before it and makes a final "$" the end |
| Grep.MatchStar | user/grep.c:99-106 | true exactly when the declarative meaning of the starred expression accepts the text |
| Grep.MatchHere | user/grep.c:85-96 | true exactly when the declarative meaning of the expression accepts the text |
| Grep.Match | user/grep.c:72-82 | true exactly when the expression occurs, anchored at the start after "^" |
| Grep.PrintLines | user/grep.c:21-28 | prints the matching lines in the buffer and returns where the unfinished line starts |
| Grep.GrepInput | user/grep.c:12-35 | for every splitting into reads the output is the same function of the input |
| Grep.SelectedIsAll | user/grep.c:12-35 | when no line exceeds 1023 bytes with its newline, the output is exactly the matching lines in order |
| Grep.LongLineStops | user/grep.c:12-35 | at a longer line the output stops for good |

## Findings

Properties that do not hold of the code as it is, each with a run that shows it and the exact condition under which it
does hold.

- Log space: begin_op reserves up to LOGSIZE blocks, but mkfs gives the log LOGSIZE blocks including its header
  (mkfs/mkfs.c:25), so an operation within its reservation can meet "too big a transaction"
  (`GroupCommit.SmallLogPanics`). With one block more it never does (`GroupCommit.ReservedNeverPanics`).
- Absorbed writes: the full-log test precedes absorption, so a write that needs no space can panic, for any log size
  (`GroupCommit.AbsorbedWriteCanPanic`), exactly when LOGSIZE distinct blocks are logged (`GroupCommit.PanicExactly`).
- A full log cannot be committed: with LOGSIZE logged blocks, which begin_op admits, all NBUF buffers are pinned and
  write_log finds none for the log (`Log.FullGroup`). A commit succeeds exactly with fewer (`Log.LogDevice.Commit`).
- An unlinked inode can stay allocated: an iput that is past freeing but before ref-- makes the next iput of the reused
  number skip the freeing (`InodeTable.UnlinkedCanStay`). An iput frees exactly when no other reference exists
  (`InodeTable.IputFreesExactly`).
- ".." of a removed directory: its parent can be freed and its number reused, after which a path through ".." panics in
  ilock or reaches an unrelated inode (`Namespace.ParentGone`, `Namespace.ParentReplaced`,
  `InodeTable.StaleNumberPanics`, `InodeTable.StaleNumberMisleads`). A name leads home exactly when it is not "..", or
  the directory is linked, or its parent was not freed since (`Namespace.NameLeadsHomeExactly`); ilock shows the inode
  meant exactly when that was alive when the reference was taken (`InodeTable.IlockSeesOwnInode`).
- Removed directories still take names: a file created in one has a link count and no name
  (`Namespace.RemovedParentLosesFile`). Order is kept exactly when the directory is linked and no count wraps
  (`Namespace.StepExactly`).
- kill(0) marks a free slot, and the next process in that slot starts killed (`ProcCalls.KillZeroMarksNext`), exactly for
  pid 0 (`ProcCalls.KillMarksFreeExactly`); without it processes start unkilled (`ProcCalls.StartsUnkilled`).
- malloc of 0x7FFFFFE1 bytes or more calls sbrk with an argument that is not the amount wanted (`Umalloc.Heap.Malloc`),
  and what it then writes breaks the heap (`Umalloc.MisfireHeader`).
- grep drops everything from the first line on that is longer than its buffer (`Grep.LongLineStops`); without such a
  line its output is complete (`Grep.SelectedIsAll`).

## Left out

- Assembly, trap entry and return, control registers, boot, UART, PLIC, console and printf: device effects. swtch is an
  atomic hand-over of the lock of the process.
- Weak memory ordering: steps are sequentially consistent.
- Liveness: fairness of schedulers, spinning and waiters; only safety and termination of loops are stated.
- System calls and kernel services other than those named above: pipes, exec, open and chdir, file descriptors, mmap and
  the other lab additions; they use what is modelled or would add only easy members.
- mkfs: a well-formed image is where runs start.
- Fs: the byte layout of inodes in their blocks is not modelled; inodes are records. A copy from user memory is all or
  nothing per block. Interleaving inside balloc is not modelled; its callers hold the bitmap block.
- Fs.FileSystem.Itrunc: states which blocks it logs but no bound, because it may log as many bitmap blocks as there are.
- ChunkBound.TightExists: the other files of the image have size 0 and blocks beyond it, which the invariant allows.
- InodeTable: a lookup that finds no slot, which panics, is not a step; `InodeUse.IgetPanicsExactly` says when that is.
  Contents of a file are one number.
- Namespace: paths are lists of names; skipelem and the cut to 14 characters are not modelled. Concurrent use is by whole
  locked sections.
- Namespace.FileTree.Link: takes a count below the short range; LinkBegin and LinkEnd state the exact condition.
- Vm.Kernel.Uvmunmap: takes mapped, aligned pages, because the source panics otherwise; the other panics of the
  page-table code that a caller must avoid are preconditions in the same way.
- Vm: the kernel page table, uvmfirst and the translation buffer are not modelled.
- Proc: sleep on channels other than that of wait is one step, so the lock that sleep releases is not modelled;
  setkilled is not a step; pids are unbounded, so a pid that wraps around is not modelled; init does not exit; file
  tables, user memory and names of a process are one flag that says whether they are set up.
- Virtqueue.NothingFails: the device answers every request with status 0, so a bad status, which panics, does not occur.
- VirtioDriver: the sector number is twice the block number without a bound, so that 32-bit product is not modelled; the
  device acts between sections of the driver.
- Umalloc: after a misfire the model stops; MisfireHeader states what the code stores next. Headers are a map from
  addresses, memory for payloads is not modelled.
- Shell: commands are parsed, not run; the input is one NUL-terminated line.
- Grep: the input holds no NUL; arguments and files are not modelled.
