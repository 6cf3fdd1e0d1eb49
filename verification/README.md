# xv6 kernel proofs

A Dafny model of the hard parts of the RISC-V xv6 kernel in `initial-xv6`, and of two of its
user programs, with proofs of what they promise. `dafny verify dfyconfig.toml` checks
everything; each module verifies by itself with the modules that it imports.

Code that updates fields in loops is a class whose methods have the loops of the C code and
are proved against functions on values: the buffer cache, the log, the heap allocator, physical
pages and page tables, file contents, directories and link counts. Code whose difficulty is
concurrency is a state machine with one step for every point at which another CPU, the device or
a power failure can come in; its theorems are about every run.

| file | models |
|---|---|
| `LogDisk.dfy`, `Log.dfy`, `LogProtocol.dfy` | the write-ahead log: what a disk image means, `log.c` on the buffer cache, and any number of processes with crashes |
| `Bio.dfy`, `BioProtocol.dfy` | the buffer cache with its LRU ring, and its users waiting for each other's buffers |
| `SleepWakeup.dfy` | `sleep`, `wakeup`, `p->lock` and the scheduler's hand-over, under any program with one condition lock |
| `SleepProgress.dfy` | what these two do with `p->lock`, `p->state` and `p->chan`, and that nobody is stuck in them |
| `SleepLock.dfy`, `Pipe.dfy`, `ExitWait.dfy`, `LogSleep.dfy`, `VirtioSleep.dfy` | five such programs: sleep-locks, pipes, fork/exit/wait/kill, begin_op/end_op, and virtio_disk_rw with its interrupts |
| `HeapBlocks.dfy`, `Umalloc.dfy` | `umalloc.c`: the circular free list, `free`, `morecore`, `malloc` |
| `PageMem.dfy`, `Vm.dfy` | `kalloc.c`, and the Sv39 tables (section 4.4 of the RISC-V privileged architecture) of `vm.c` |
| `UserCopy.dfy` | `walkaddr`, `copyout`, `copyin` |
| `Virtio.dfy` | `virtio_disk.c` and its device (sections 2.6 and 5.2 of VIRTIO 1.1) |
| `FileBlocks.dfy`, `FileContent.dfy` | the free map, block addresses, `readi`, `writei`, `itrunc`, `filewrite` |
| `LinkTable.dfy`, `LinkCount.dfy` | directories, link counts, `create`, `sys_link`, `sys_unlink`, `iput` |
| `DirFile.dfy` | directory entries as bytes of files, which joins the two above |
| `Path.dfy` | `skipelem`, `namex` |
| `Lottery.dfy` | the lottery of the LBS scheduler |
| `Grep.dfy` | the matcher of `grep` |

Results a reader may not expect:

* `param.h` says that a file system call may write MAXOPBLOCKS (10) blocks. With the log that
  `mkfs` makes, whose usable size is LOGSIZE - 1, that is one too many. `LogProtocol.UniformLimit`:
  when every operation keeps to m distinct blocks, log_write never panics if and only if m is at
  most 9. `LogProtocol.TransactionLimit`: one operation is safe beside others that may log 10 each
  if and only if it logs at most 8. In the run that shows both limits sharp 29 blocks are logged,
  and the panic meets the next log_write, although its block is in the log already: the test for
  space comes before absorption. A chunk of `filewrite` logs at most 7 (`FileContent.Fs.WriteChunk`).
* A writer that is killed, or that finds the read end closed, leaves `pipewrite` without waking
  readers. `Pipe.StuckExactly`: in every run, with kills anywhere, nobody is ever stuck if and only
  if no writer so leaves bytes in a buffer that was empty when it last got the lock, while a reader
  sleeps. Every other kill is harmless. `Pipe.KilledWriter` is a run with such a step.
* The mutual exclusion that the log needs from `begin_op` and `end_op`, that nobody is inside an
  operation while a commit copies buffers, is a theorem and not an assumption
  (`LogProtocol.NobodyInsideDuringCommit`).
* `fork` works on its child's slot without `wait_lock` and, for a time, without the child's lock.
  The steps that do so are guarded in the model by "the slot is as allocproc left it";
  `ExitWait.ForkKeepsItsSlot` shows that the guard holds in every run, so it excludes nothing.
* `allocproc` returns without giving back the slot when it has a page for the trapframe but none for
  the trapframe's copy. `ExitWait.LostExactly` and `ExitWait.LostForGood`: such a return, and no
  other step of any run, loses the slot, and nobody ever gets it again.
* Beside safety there are theorems that nothing is ever stuck: from the last state of every run the
  log can be emptied (`LogProtocol.CanSettle`), the disk queue drained (`Virtio.CanDrain`), the
  buffer cache released (`BioProtocol.AllCanEnd`), and everybody comes out of `sleep` and `wakeup`
  (`SleepProgress.CanRest`), with everything where it should be.

How to read the models:

* Spinlocks are atomic. `SleepWakeup` has each `acquire` and `release` of the condition lock and
  of every `p->lock` as a step, as does its scan in `wakeup`.
* The log and the cache take the disk as a sequence of atomic block writes. `Virtio` proves that
  `virtio_disk_rw` is such a write: `Virtio.TransferIsSynchronous`.
* The log model assumes `log.size <= LOGSIZE`, as `mkfs` makes it. The cache has LOGSIZE buffers;
  a larger log could pin all of them, and the commit's own `bread` would panic.
* There is one block device: a cached block's flag `bound` stands for its `dev`.
* File contents and link counts are sequential: `ilock` serialises them in the kernel.

## Model

| member | source | states |
|---|---|---|
| LogDisk.HeadRoundTrip | initial-xv6/src/kernel/log.c:86-114 | the header that write_head stores is read back as the same list |
| LogDisk.InstallAgain | initial-xv6/src/kernel/log.c:68-83 | installing the log over a partly installed disk gives what one installation gives |
| LogDisk.RecoveryIdempotent | initial-xv6/src/kernel/log.c:116-123 | a recovery stopped after any number of block writes leaves a disk that recovers to the same disk |
| LogDisk.RecoveryCrashSafe | initial-xv6/src/kernel/log.c:116-123 | every image that the device holds during a recovery recovers to the same disk |
| LogDisk.CrashChainRecovers | initial-xv6/src/kernel/log.c:116-123 | the same for any number of crashes, one inside each next recovery |
| LogDisk.CommitAtomic | initial-xv6/src/kernel/log.c:177-203 | commit stopped after k block writes recovers to all old home blocks up to the header write and to all new ones from it on |
| LogDisk.CrashAtomicity | initial-xv6/src/kernel/log.c:67-123 | a crash anywhere in commit, then any number of crashes in recovery: the completed recovery gives all old or all new home blocks, all new exactly when the header was written, and clears the header |
| LogDisk.TransactionAtomic | initial-xv6/src/kernel/log.c:193-203 | each image that the device holds during a commit recovers to the old blocks or to the view, switching at the header write |
| LogDisk.CommitFinishes | initial-xv6/src/kernel/log.c:193-203 | a commit that is not interrupted leaves the view in the home blocks and an empty header |
| Bio.Unlinked | initial-xv6/src/kernel/bio.c:127-128 | relinking two neighbours takes exactly one buffer out of the ring and keeps it a ring in both directions |
| Bio.Pushed | initial-xv6/src/kernel/bio.c:129-133 | four link assignments put one buffer at the front of the ring |
| Bio.Recycled | initial-xv6/src/kernel/bio.c:75-86 | giving an unreferenced, clean buffer to another block changes what no block reads as |
| Bio.BufferCache.constructor | initial-xv6/src/kernel/bio.c:36-53 | binit makes a ring of all buffers, none in use |
| Bio.BufferCache.Bget | initial-xv6/src/kernel/bio.c:58-89 | a cached block is found; otherwise the least recently used unreferenced buffer is taken; it fails exactly when the block is not cached and every buffer is referenced |
| Bio.BufferCache.Bread | initial-xv6/src/kernel/bio.c:92-103 | the buffer holds the last contents given to the block, locked and valid; no other block reads differently |
| Bio.BufferCache.Bwrite | initial-xv6/src/kernel/bio.c:106-112 | one block of the disk becomes the buffer's contents; no read changes |
| Bio.BufferCache.Brelse | initial-xv6/src/kernel/bio.c:114-137 | one reference less; with the last one the buffer moves to the front of the LRU order, otherwise the order stays |
| Bio.BufferCache.Bpin | initial-xv6/src/kernel/bio.c:139-144 | one reference more and nothing else |
| Bio.BufferCache.Bunpin | initial-xv6/src/kernel/bio.c:146-151 | one reference less and nothing else |
| BioProtocol.BreadIsRight | initial-xv6/src/kernel/bio.c:58-103 | in every interleaving, a thread that has waited in bget holds the buffer of the block it asked for, alone, and sees the last change to it |
| BioProtocol.CountsAreRight | initial-xv6/src/kernel/bio.c:58-151 | in every interleaving, no block is in two buffers, reference counts are uses plus pins, and a buffer in use is not recycled |
| BioProtocol.TransfersAreRight | initial-xv6/src/kernel/bio.c:92-112 | in every interleaving, after bread has loaded a buffer its holder has the last change made to the block, and after bwrite the disk has it |
| BioProtocol.CleanWhenFree | initial-xv6/src/kernel/bio.c:114-151 | in every interleaving, the disk has the last change made to a block whenever nobody holds it and it is not pinned |
| BioProtocol.AllCanEnd | initial-xv6/src/kernel/bio.c:58-151 | no run ends where the users of the cache block each other: all can go on to release what they hold |
| BioProtocol.CanRead | initial-xv6/src/kernel/bio.c:58-103 | as long as the block is cached or a buffer is not pinned, every run can go on so that an idle user has the block with the last change made to it |
| Log.Log.constructor | initial-xv6/src/kernel/log.c:54-65 | initlog makes exactly the recovery's writes, each of which leaves an image that recovers to the same disk, and starts from the recovered disk |
| Log.Log.WriteLog | initial-xv6/src/kernel/log.c:177-191 | log block i gets the current contents of the i-th logged block, never a stale disk block |
| Log.Log.InstallTrans | initial-xv6/src/kernel/log.c:67-83 | the disk goes through the installation states; outside recovery each pin is undone once and no read changes |
| Log.Log.WriteHead | initial-xv6/src/kernel/log.c:99-114 | the header block becomes the encoded list, in one write |
| Log.Log.RecoverFromLog | initial-xv6/src/kernel/log.c:116-123 | the disk becomes the recovered disk through exactly the recovery's writes, each image on the way recovers to it, and the list is empty |
| Log.Log.Commit | initial-xv6/src/kernel/log.c:193-203 | the device receives exactly the writes of the commit trace, or none when nothing is logged, and the home blocks become the view |
| Log.Log.LogWrite | initial-xv6/src/kernel/log.c:205-235 | the block is in the list once, pinned once; the two panics are exactly a full log and a call outside a transaction |
| Log.Log.ReadBlock | initial-xv6/src/kernel/log.c:205-213 | cache and log together refine a plain block array: a read gives the last value written |
| Log.Log.WriteBlock | initial-xv6/src/kernel/log.c:205-235 | bread, change, log_write, brelse update one block of that array; an operation that keeps to MAXOPBLOCKS - 2 blocks meets no panic and takes nothing of what the others were promised |
| Log.Log.TryBeginOp | initial-xv6/src/kernel/log.c:125-142 | begin_op's test keeps room for all that the outstanding operations may still log, whatever they have logged, and for the new one's blocks |
| Log.Log.NotTooBig | initial-xv6/src/kernel/log.c:214-222 | with that room an operation that has not logged all it may meets neither panic of log_write |
| Log.Log.EndOp | initial-xv6/src/kernel/log.c:144-175 | the last operation commits; every disk image meanwhile recovers to the blocks of before or to the view, switching once; the other operations keep what they were promised |
| LogProtocol.GroupCommit | initial-xv6/src/kernel/log.c:126-203 | at every moment of every run with crashes, the disk recovers to the initial contents after the committed groups, which hold only whole, ended operations |
| LogProtocol.CommittedGrows | initial-xv6/src/kernel/log.c:193-203 | through every part of every run, crashes included, the committed groups stay in order, and each further one is the group that was open when a commit wrote its header |
| LogProtocol.ReadersSeeUpdates | initial-xv6/src/kernel/log.c:126-235 | between recoveries every reader sees the last update of every block |
| LogProtocol.NobodyInsideDuringCommit | initial-xv6/src/kernel/log.c:126-175 | committing implies that no operation is outstanding, so the panic log.committing is unreachable |
| LogProtocol.OnlyInstallWritesHome | initial-xv6/src/kernel/log.c:67-83 | through every part of every run, a home block on disk is what the last install_trans has copied there from the log, or what it was when there has been none |
| LogProtocol.CanSettle | initial-xv6/src/kernel/log.c:116-203 | no run, crashes included, ends where the log is stuck: end_ops, commits and recovery lead to an empty log with nobody inside, and the disk then holds in place every update that readers saw |
| LogProtocol.SmallOpsFit | initial-xv6/src/kernel/log.c:214-235 | an operation of at most MAXOPBLOCKS - 2 distinct blocks never meets too big a transaction |
| LogProtocol.UniformLimit | initial-xv6/src/kernel/param.h:9-10 | with the log of mkfs, when every operation of the run logs at most m distinct blocks, too big a transaction is never met if and only if m is at most MAXOPBLOCKS - 1 |
| LogProtocol.TransactionLimit | initial-xv6/src/kernel/log.c:214-222 | with the log of mkfs, an operation of at most m distinct blocks is always safe, while the others may log MAXOPBLOCKS each, if and only if m is at most MAXOPBLOCKS - 2 |
| SleepWakeup.StepInv | initial-xv6/src/kernel/proc.c:903-944 | every step of sleep, wakeup, the scheduler and the program keeps the sleepers' invariant, if a release of the condition lock owes no wakeup to anybody who sleeps |
| SleepWakeup.NoLostWakeup | initial-xv6/src/kernel/proc.c:903-944 | for every program that pays its wakeups before it releases the condition lock, in every interleaving: when that lock is free, whoever sleeps or is about to still has to wait |
| SleepWakeup.RunKeeps | initial-xv6/src/kernel/proc.c:903-928 | a relation between data and control states that every step of the program keeps holds in every run, given that only one process is in its section |
| SleepProgress.FieldsAreRight | initial-xv6/src/kernel/proc.c:903-944 | in every run, p->chan is set exactly from before the switch to after the return from it, and p->state is SLEEPING or RUNNABLE exactly while a process is switched away, or about to be |
| SleepProgress.LocksAreRight | initial-xv6/src/kernel/proc.c:903-944 | in every run, whoever holds a p->lock is inside sleep with it, looks at that process in wakeup, or has it by the program; the scheduler has it only for a process that has just switched away |
| SleepProgress.CanRest | initial-xv6/src/kernel/proc.c:903-944 | no run ends where a process is stuck inside sleep or wakeup: all can come out or stay switched away, except those that wait for a lock that a running process of the program holds |
| SleepLock.CodeDisciplined | initial-xv6/src/kernel/sleeplock.c:21-52 | acquiresleep and releasesleep pay their wakeups |
| SleepLock.NoStuckSleeper | initial-xv6/src/kernel/sleeplock.c:21-41 | whenever lk->lk is free and locked is 0, nobody sleeps on the lock or is in the window before sleeping |
| SleepLock.MutualExclusion | initial-xv6/src/kernel/sleeplock.c:21-41 | at most one process has the sleep-lock, and one has it exactly while locked is set |
| SleepLock.HoldingSleepIsRight | initial-xv6/src/kernel/sleeplock.c:43-52 | holdingsleep answers whether its caller has the sleep-lock |
| Pipe.KilledWriter | initial-xv6/src/kernel/pipe.c:84-87 | a run in which a killed writer leaves a reader asleep beside a byte |
| Pipe.StepPays | initial-xv6/src/kernel/pipe.c:58-130 | every other step of pipewrite, piperead and pipeclose pays its wakeups |
| Pipe.StuckExactly | initial-xv6/src/kernel/pipe.c:76-130 | in every run, whoever is killed: a sleeping reader always means an empty buffer with the write end open, and a sleeping writer a full one with the read end open, if and only if no writer leaves at the test for kills a buffer that was empty when it got the lock and is not now, while a reader sleeps |
| Pipe.HarmlessKills | initial-xv6/src/kernel/pipe.c:84-87 | a run in which no writer leaves at that test bytes in a buffer that was empty when it got the lock never has anybody stuck |
| Pipe.PutRing | initial-xv6/src/kernel/pipe.c:92-97 | storing a byte appends it to the buffered bytes, with counters that wrap at 32 bits |
| Pipe.GetRing | initial-xv6/src/kernel/pipe.c:120-123 | taking a byte removes the oldest one |
| Pipe.Fifo | initial-xv6/src/kernel/pipe.c:58-130 | in every run, kills included, bytes taken out are a prefix of bytes put in, the rest is in the ring, and it is at most PIPESIZE bytes |
| Pipe.ReadMoves | initial-xv6/src/kernel/pipe.c:106-130 | in every run, piperead has taken since it last got the lock as many bytes as it returns, and one more if copyout failed for that one; unless it failed these are all it was asked for, or the pipe is empty |
| Pipe.WriteMoves | initial-xv6/src/kernel/pipe.c:76-104 | in every run, pipewrite has put as many bytes as it counts, the first of its caller's and in order, whatever others put between them; it gets past its last wakeup only with all it was asked for or all that copyin can read |
| Pipe.AllComeOut | initial-xv6/src/kernel/pipe.c:58-130 | from the last state of every run, kills included, all processes come out of sleep and wakeup or stay switched away, except those that wait for the lock of the pipe |
| ExitWait.CodeDisciplined | initial-xv6/src/kernel/proc.c:441-590 | fork, exit, reparent, wait and waitx pay their wakeups of parents and of init |
| ExitWait.NoMissedZombie | initial-xv6/src/kernel/proc.c:488-590 | whenever wait_lock is free, nobody sleeps in wait, or is about to, while it has a ZOMBIE child; init too |
| ExitWait.ReapedOffItsStack | initial-xv6/src/kernel/proc.c:559-575 | a ZOMBIE is freed only after it has left its kernel stack |
| ExitWait.ReapedOnce | initial-xv6/src/kernel/proc.c:1047-1092 | in every run each death is collected at most once, and only those of present ZOMBIEs not yet |
| ExitWait.ReapedByItsParent | initial-xv6/src/kernel/proc.c:557-575 | in every run, a slot is collected only by the process that is its parent, when it is a ZOMBIE; it is emptied, and no other slot changes |
| ExitWait.WaitSeesItsChildren | initial-xv6/src/kernel/proc.c:553-590 | in every run, havekids says whether the scan has passed a child; wait fails for its address only when that is bad and a ZOMBIE child is there, and gives up only when killed |
| ExitWait.WaitLeavesAlone | initial-xv6/src/kernel/proc.c:581-589 | in every run, wait that returns after its scan without having been killed has no child, and it sleeps only when it has one |
| ExitWait.WaitReturnsWhatItCollects | initial-xv6/src/kernel/proc.c:563-575 | in every run, wait comes to return a child only by collecting it |
| ExitWait.NoOrphans | initial-xv6/src/kernel/proc.c:488-543 | every process but init, running or ZOMBIE, has a parent that has not exited |
| ExitWait.ForkKeepsItsSlot | initial-xv6/src/kernel/proc.c:441-486 | until fork has made the child runnable nobody else takes, frees or runs in its slot |
| ExitWait.ForkMakesAChild | initial-xv6/src/kernel/proc.c:441-486 | in every run, when fork returns there is a running child of its caller in the slot, and it gives up a slot only for want of memory |
| ExitWait.AlwaysAStep | initial-xv6/src/kernel/proc.c:441-590 | in every run, every process that has not exited has a next step: what fork takes for granted about its slot never stops it |
| ExitWait.AllComeOut | initial-xv6/src/kernel/proc.c:441-590 | from the last state of every run, all processes come out of sleep and wakeup or stay switched away, except those that wait for wait_lock or for a p->lock that fork, exit, wait or kill has |
| ExitWait.LostForGood | initial-xv6/src/kernel/proc.c:233-290 | a slot in use with no parent, nothing running in it and no fork that fills it in stays so, whatever anybody does |
| ExitWait.LostExactly | initial-xv6/src/kernel/proc.c:273-276 | in every run, a step loses a slot exactly when it is the return of allocproc that has found no page for the copy of the trapframe |
| LogSleep.CodeDisciplined | initial-xv6/src/kernel/log.c:125-175 | begin_op and end_op pay their wakeups, although the commit changes log.lh.n without the lock |
| LogSleep.NoStuckOperation | initial-xv6/src/kernel/log.c:125-175 | whenever log.lock is free, whoever sleeps in begin_op, or is about to, has to wait for a commit or for log space |
| LogSleep.CommitsAlone | initial-xv6/src/kernel/log.c:144-175 | in every run one process commits at a time, with log.committing set and nobody in an operation; the panic log.committing is unreachable |
| LogSleep.SomebodyWorks | initial-xv6/src/kernel/log.c:125-175 | when log.lock is free and somebody sleeps in begin_op, another process is in an operation or commits |
| LogSleep.AlwaysAStep | initial-xv6/src/kernel/log.c:125-175 | in every run, every process has a next step: neither the panic of end_op nor what a commit relies on ever stops one |
| VirtioSleep.CodeDisciplined | initial-xv6/src/kernel/virtio_disk.c:215-327 | virtio_disk_rw, alloc3_desc, free_chain and the interrupt handler pay their wakeups |
| VirtioSleep.NoStuckRequest | initial-xv6/src/kernel/virtio_disk.c:215-327 | whenever vdisk_lock is free, whoever sleeps for descriptors cannot have three, and whoever sleeps for its buffer has one whose flag is still set |
| VirtioSleep.OthersInFlight | initial-xv6/src/kernel/virtio_disk.c:226-292 | a request sleeps for descriptors only while another one has issued its request |
| VirtioSleep.WaitsForCompletion | initial-xv6/src/kernel/virtio_disk.c:280-327 | in every run, a request gives up its descriptors only after the interrupt handler has handled a completion of its buffer since it was issued, and until then its buffer is marked |
| HeapBlocks.InsertSound | initial-xv6/src/user/umalloc.c:36-42 | putting a block between its neighbours keeps a sorted cycle that partitions memory |
| HeapBlocks.MergeSound | initial-xv6/src/user/umalloc.c:33-41 | merging adjacent free blocks keeps it, and every unit belongs to the merged block |
| HeapBlocks.ReleaseSound | initial-xv6/src/user/umalloc.c:24-44 | free keeps the partition and leaves no two adjacent free blocks; the block is free alone or as part of a bigger one |
| HeapBlocks.ReleaseMem | initial-xv6/src/user/umalloc.c:33-42 | the four assignments of free, with their two tests, are insertion followed by merging with both neighbours |
| HeapBlocks.TakeSound | initial-xv6/src/user/umalloc.c:76-77 | unlinking a block of exactly the right size keeps the heap |
| HeapBlocks.SplitSound | initial-xv6/src/user/umalloc.c:78-82 | giving away the tail of a block keeps the heap |
| HeapBlocks.ReleaseUntouched | initial-xv6/src/user/umalloc.c:24-44 | free changes no unit of any other block in use |
| HeapBlocks.ScanStops | initial-xv6/src/user/umalloc.c:30-32 | free's scan stops exactly at the node after which the block belongs |
| Umalloc.Heap.Seek | initial-xv6/src/user/umalloc.c:29-32 | the circular scan ends, after one round at most, at that node |
| Umalloc.Heap.Free | initial-xv6/src/user/umalloc.c:24-44 | the block leaves the blocks in use; no memory is lost; no other block in use changes |
| Umalloc.Heap.Morecore | initial-xv6/src/user/umalloc.c:46-61 | it fails exactly when sbrk does, changing nothing; otherwise a free block of the size asked for exists, and sbrk was asked for that size or, if it is more, for 4096 units |
| Umalloc.Heap.Find | initial-xv6/src/user/umalloc.c:74-89 | the circular scan ends, including the pass after morecore, which it calls only when nothing fits, at the first node from freep on that fits |
| Umalloc.Heap.Malloc | initial-xv6/src/user/umalloc.c:63-90 | a new block for the bytes asked for and less than one unit more, disjoint from every block in use, none of which changes; sbrk is asked only when no free block has room for the bytes, for the larger of the new block and 4096 units, and malloc fails exactly when sbrk then refuses |
| PageMem.AllocInv | initial-xv6/src/kernel/kalloc.c:68-82 | taking the head of the free list keeps every page's one use |
| PageMem.FreeInv | initial-xv6/src/kernel/kalloc.c:46-63 | putting a page at the head keeps it |
| PageMem.AddTableInv | initial-xv6/src/kernel/vm.c:95-100 | a new table entered in its parent keeps the tree equal to the space's map |
| PageMem.SetLeafInv | initial-xv6/src/kernel/vm.c:158 | filling an entry adds exactly that page to the map |
| PageMem.NeededAtMost | initial-xv6/src/kernel/vm.c:85-103 | mapping n pages takes at least n and at most 3n free pages, tables included |
| PageMem.UnmapInv | initial-xv6/src/kernel/vm.c:180-190 | clearing an entry, and freeing its page on request, removes exactly that page |
| PageMem.Undone | initial-xv6/src/kernel/vm.c:236-246 | unmapping what was added restores every mapping and every page that was in use |
| PageMem.DropPruned | initial-xv6/src/kernel/vm.c:278-286 | freeing a childless table and clearing its parent's entry keeps the tree equal to the map |
| Vm.Kernel.constructor | initial-xv6/src/kernel/kalloc.c:26-40 | all whole pages between the kernel's end and PHYSTOP are on the free list, once |
| Vm.Kernel.Kalloc | initial-xv6/src/kernel/kalloc.c:65-82 | the first free page, or 0 exactly when none is free |
| Vm.Kernel.Kfree | initial-xv6/src/kernel/kalloc.c:42-63 | the page becomes the first free page |
| Vm.Kernel.Walk | initial-xv6/src/kernel/vm.c:85-103 | it finds the entry of an address whenever its table exists, makes the tables when it may and exactly when there is memory for those that are missing, and changes no mapping |
| Vm.Kernel.Walkaddr | initial-xv6/src/kernel/vm.c:108-126 | on the three-level tables it gives what UserCopy takes from the flat map of user pages |
| Vm.UserPagesApart | initial-xv6/src/kernel/vm.c:142-165 | in a space whose user pages are its own no physical page is mapped twice, as UserCopy asks |
| Vm.Kernel.Mappages | initial-xv6/src/kernel/vm.c:142-165 | exactly the pages of the range are mapped if and only if there are free pages for the tables that it lacks, or else a first part of them; nothing else changes; remap is unreachable |
| Vm.Kernel.Uvmunmap | initial-xv6/src/kernel/vm.c:170-192 | exactly these pages are unmapped and, on request, free; its three panics are unreachable |
| Vm.Kernel.Uvmdealloc | initial-xv6/src/kernel/vm.c:251-267 | exactly the pages beyond the new size go |
| Vm.Kernel.Uvmalloc | initial-xv6/src/kernel/vm.c:223-249 | it succeeds exactly when there are free pages for the new pages and their missing tables, and takes no others: zeroed pages of the space's own with the asked flags; on failure every mapping and every page in use is as before |
| Vm.Kernel.Uvmcopy | initial-xv6/src/kernel/vm.c:299-333 | it succeeds exactly when there are free pages for the copies and their missing tables: equal contents and flags in pages of the child's own; on failure the child's mappings are as before; the parent never changes |
| Vm.Kernel.Freewalk | initial-xv6/src/kernel/vm.c:269-287 | every table below becomes a free page, once; freewalk: leaf is unreachable |
| Vm.Kernel.Uvmcreate | initial-xv6/src/kernel/vm.c:194-205 | a new space without mappings, or 0 exactly when no page is free |
| Vm.Kernel.Uvmfree | initial-xv6/src/kernel/vm.c:289-297 | every data page and every table of the space is free afterwards, and no other page changes use or contents |
| UserCopy.AddressSpace.Copyout | initial-xv6/src/kernel/vm.c:348-371 | the flat view has the bytes at the address and nothing else changed; on failure exactly a first part is stored, ending at a page boundary before an unmapped page |
| UserCopy.AddressSpace.Copyin | initial-xv6/src/kernel/vm.c:373-396 | it succeeds exactly when the range is mapped and gives its bytes in order |
| UserCopy.RoundTrip | initial-xv6/src/kernel/vm.c:348-396 | what copyout stored copyin reads back, and other bytes are as before |
| Virtio.AllocIs | initial-xv6/src/kernel/virtio_disk.c:199-213 | alloc3_desc takes three different free descriptors, or changes nothing exactly when fewer than three are free |
| Virtio.FreeThree | initial-xv6/src/kernel/virtio_disk.c:184-197 | free_chain on a chain of three frees exactly these |
| Virtio.StepInv | initial-xv6/src/kernel/virtio_disk.c:215-327 | every step of driver and device keeps the protocol invariant |
| Virtio.ChainsAreDisjoint | initial-xv6/src/kernel/virtio_disk.c:222-265 | each descriptor is free or in exactly one request's chain |
| Virtio.Conservation | initial-xv6/src/kernel/virtio_disk.c:199-213 | free descriptors and three per request in flight are NUM |
| Virtio.NoOverwrite | initial-xv6/src/kernel/virtio_disk.c:271-277 | no avail or used slot is overwritten before the other side has read it |
| Virtio.IndicesWrap | initial-xv6/src/kernel/virtio_disk.c:309-324 | with 16-bit indices that wrap, the tests of both sides say whether an entry is unread, and the slot read has the oldest |
| Virtio.DeviceReadsTheRequest | initial-xv6/src/kernel/virtio_disk.c:235-265 | the chain that the device follows says exactly what the caller asked for |
| Virtio.CompletionIsItsOwn | initial-xv6/src/kernel/virtio_disk.c:309-324 | the status panic is unreachable and a completion clears the flag of its own buffer only |
| Virtio.FinishNeverPanics | initial-xv6/src/kernel/virtio_disk.c:168-197 | both panics of free_desc are unreachable |
| Virtio.TransferIsSynchronous | initial-xv6/src/kernel/virtio_disk.c:215-292 | with other requests in flight and completed in any order, when virtio_disk_rw ends buffer and block are equal to the buffer (write) or the block (read) of when it began |
| Virtio.CanDrain | initial-xv6/src/kernel/virtio_disk.c:215-327 | no run ends where driver or device is stuck: without new requests their steps lead to a queue with every descriptor free and both rings read, and to every pending transfer done |
| FileBlocks.PutWordGives | initial-xv6/src/kernel/fs.c:407-414 | an entry written in an indirect block is read back, and the others stay |
| FileBlocks.UsedOnce | initial-xv6/src/kernel/fs.c:63-105 | a block is marked used exactly when it is metadata or a slot of an inode refers to it, one slot only: none is shared and none is lost |
| FileBlocks.EmptyImage | initial-xv6/src/kernel/fs.c:63-88 | an image without files whose free map marks the metadata has this property |
| FileContent.Fs.Ownership | initial-xv6/src/kernel/fs.c:379-539 | balloc's callers, writei, filewrite and itrunc keep it, with the same metadata, also when an allocation fails halfway: it follows from the invariant that each of them requires and ensures |
| FileBlocks.TakeInv | initial-xv6/src/kernel/fs.c:72-82 | marking and zeroing a free block keeps ownership; the block is never 0 |
| FileBlocks.SetAddrInv | initial-xv6/src/kernel/fs.c:388-406 | a direct or indirect slot that gets a new block becomes its one owner |
| FileBlocks.SetEntryInv | initial-xv6/src/kernel/fs.c:407-415 | so does an entry of an indirect block |
| FileBlocks.GrewContent | initial-xv6/src/kernel/fs.c:382-421 | adding blocks changes no file's contents |
| FileBlocks.WroteContent | initial-xv6/src/kernel/fs.c:516-531 | after writei's loop and size update the file is the old one with the bytes spliced in, and the others are as they were |
| FileBlocks.TruncatedInv | initial-xv6/src/kernel/fs.c:423-453 | a file that gives up its blocks is empty; block ownership and the other files stay |
| FileBlocks.BudgetSize | initial-xv6/src/kernel/file.c:149-155 | writing n blocks of a file logs at most n + 3 blocks when the free map is one block |
| FileContent.Fs.Balloc | initial-xv6/src/kernel/fs.c:63-88 | the first free block, zeroed, and the only one without an owner; 0 exactly when none is free |
| FileContent.Fs.Bmap | initial-xv6/src/kernel/fs.c:379-421 | it finds the block or adds one across the direct and indirect boundary; no contents of any file change; it fails only when no block is free, and then too every block in use has its owner; a mapped block is never reallocated; every block that changes is logged |
| FileContent.Fs.Itrunc | initial-xv6/src/kernel/fs.c:423-453 | each of the file's blocks is freed once, so freeing free block is unreachable; other files stay; every block that changes is logged |
| FileContent.Fs.Readi | initial-xv6/src/kernel/fs.c:467-496 | exactly the bytes of the range that the file has, under the 32-bit overflow guard; nothing is allocated |
| FileContent.Fs.Writei | initial-xv6/src/kernel/fs.c:498-539 | the file gets exactly the first r bytes at the offset; r is short only when the disk is full, at the end of a block, and never within the file's size; -1 exactly for a gap or a range beyond the largest file, wrapped or not; the inode is saved; no block is lost; every block that changes is logged |
| FileContent.Fs.WriteChunk | initial-xv6/src/kernel/file.c:155-167 | one transaction of filewrite logs every block that it changes, of data, of the free map and of inodes, and at most seven blocks |
| FileContent.Fs.Filewrite | initial-xv6/src/kernel/file.c:148-175 | over all chunks the file gets exactly the bytes by which f->off advances: all of the chunks that fit, unless the disk is full; -1 exactly when these are not all the bytes; no block is lost |
| FileContent.ReachNext | initial-xv6/src/kernel/file.c:155-167 | a chunk is refused exactly when all that fits has been written |
| FileContent.ChunkIs | initial-xv6/src/kernel/file.c:149-155 | the chunk size is what is left of MAXOPBLOCKS beside inode, indirect block and slop, halved |
| LinkTable.NoLinksNoNames | initial-xv6/src/kernel/fs.c:336-362 | an inode whose link count is 0 is named by no live directory |
| LinkTable.NameIsOne | initial-xv6/src/kernel/fs.c:580-606 | a live directory has at most one entry of a name; every operation keeps this |
| LinkTable.AddNameInv | initial-xv6/src/kernel/sysfile.c:145-156 | sys_link's effect keeps link counts equal to names |
| LinkTable.AddFileInv | initial-xv6/src/kernel/sysfile.c:270-283 | so does a new file |
| LinkTable.AddDirInv | initial-xv6/src/kernel/sysfile.c:270-289 | so does a new directory, with its parent's link for ".." |
| LinkTable.EmptyHasOneLink | initial-xv6/src/kernel/sysfile.c:172-186 | a directory that isdirempty accepts has exactly one link, so unlinking makes it free |
| LinkTable.DropDirInv | initial-xv6/src/kernel/sysfile.c:222-232 | unlinking an empty directory keeps link counts equal to names |
| LinkTable.DropNameInv | initial-xv6/src/kernel/sysfile.c:222-232 | so does unlinking any other inode |
| LinkTable.FreedInv | initial-xv6/src/kernel/fs.c:341-358 | so does freeing an inode without links |
| LinkCount.Fs.Iput | initial-xv6/src/kernel/fs.c:336-362 | the last reference frees an inode without links, which every caller shows to be named by no live directory |
| LinkCount.Fs.Dirlink | initial-xv6/src/kernel/fs.c:577-606 | it succeeds exactly when the name is new and there is a free slot or room to grow; the entry goes to the first free slot or to the end; references balance |
| LinkCount.Fs.SysLink | initial-xv6/src/kernel/sysfile.c:122-170 | it succeeds exactly when both paths lead somewhere, the inode is not a directory, and the name is new and has its place: one name and one link more; otherwise nothing changed; references balance |
| LinkCount.Fs.SysUnlink | initial-xv6/src/kernel/sysfile.c:188-243 | it succeeds exactly when the directory has an entry of the name, other than the dots, for a file or an empty directory: the name and its links go, and the inode when nobody else refers to it; otherwise nothing changed; the panic on nlink is unreachable, and the one on writei by DirFile.WriteEntry |
| LinkCount.Fs.Create | initial-xv6/src/kernel/sysfile.c:245-302 | it returns the file that has the name, when a file was asked for; the first free inode under a new name, when the name is new and every entry has its place; and 0 exactly otherwise, with nothing changed; the caller gets one reference |
| DirFile.EntryRoundTrip | initial-xv6/src/kernel/fs.h:53-59 | an entry is read back from its 16 bytes, with names up to DIRSIZ padded by zeros |
| DirFile.ReadEntry | initial-xv6/src/kernel/fs.c:552-575 | readi of an entry gives that entry, never short, so the panic dirlookup read is unreachable |
| DirFile.WriteEntry | initial-xv6/src/kernel/fs.c:580-606 | writei of an entry changes that entry of the directory and nothing else; over an entry it always succeeds, so the panic unlink: writei is unreachable, and at the end it fails only when the disk is full or the directory as big as a file can be, changing no contents |
| Path.ReadBack | initial-xv6/src/kernel/fs.c:608-645 | the names of a path are read back however many slashes separate and surround them, each its first 14 characters |
| Path.Skipelem | initial-xv6/src/kernel/fs.c:622-645 | the first element and the rest, which is empty exactly when no element is left |
| Path.ParentThenName | initial-xv6/src/kernel/fs.c:647-684 | what namei finds is what the last name means in the directory that nameiparent finds, and it finds nothing when that has none |
| Path.Namex | initial-xv6/src/kernel/fs.c:647-684 | the inode that the elements lead to, or for nameiparent the directory of the last one and its name; nothing exactly when there is none; a path of slashes has no last name, so nameiparent gives nothing |
| Lottery.TieBreak | initial-xv6/src/kernel/proc.c:637-647 | the drawn process stays unless an equal one arrived earlier; then the first of those that arrived earliest |
| Lottery.Draw | initial-xv6/src/kernel/proc.c:608-647 | the candidate for whom the drawn ticket wins, after the tie-break, among exactly the runnable processes; the tickets take turns with the value of random(); nobody exactly when they hold no ticket |
| Lottery.FairFirstStage | initial-xv6/src/kernel/proc.c:623-635 | before the tie-break each candidate holds as many of the tickets as it has, and every ticket has one holder |
| Lottery.OneWinner | initial-xv6/src/kernel/proc.c:623-647 | only one process can win with one ticket |
| Lottery.EveryTicketOnce | initial-xv6/src/kernel/proc.c:143-146 | among as many consecutive values of random() as there are tickets, every ticket is drawn exactly once |
| Lottery.FairDraw | initial-xv6/src/kernel/proc.c:608-647 | among these values a process is drawn for as many as there are tickets that make it run: its tickets times the number of candidates that give way to it |
| Lottery.TicketsOfAWinner | initial-xv6/src/kernel/proc.c:608-647 | a candidate wins on its tickets times the number of candidates that give way to it |
| Lottery.EarliestTakesAll | initial-xv6/src/kernel/proc.c:637-647 | the earliest arrival of a class of equal tickets wins on all tickets of the class |
| Lottery.PrecededHasNone | initial-xv6/src/kernel/proc.c:637-647 | one that an equal preceded wins on none |
| Grep.BeginsStar | initial-xv6/src/user/grep.c:97-105 | a starred character takes any number of its characters before the rest |
| Grep.ParseSpelled | initial-xv6/src/user/grep.c:83-95 | every list of items that a pattern can ask for is read back from its pattern |
| Grep.SpelledParse | initial-xv6/src/user/grep.c:83-95 | every pattern is the one of the items that are read from it |
| Grep.Matchhere | initial-xv6/src/user/grep.c:83-95 | 1 exactly when the text begins with what the pattern's items spell |
| Grep.Matchstar | initial-xv6/src/user/grep.c:97-105 | the same for a starred character and a rest |
| Grep.Match | initial-xv6/src/user/grep.c:71-81 | 1 exactly when some start, only the first after ^, is in the language of the pattern; the recursion ends |

## Left out

- Bio.BufferCache.Bget: in this sequential form nobody else holds the block's buffer; waiting for another holder is in BioProtocol.
- Bio.BufferCache.Bread: as for Bget.
- Bio.BufferCache.Brelse: callers do not give up the last reference of a buffer with a change that is neither written nor pinned; the kernel would lose the change with the buffer.
- Bio.BufferCache.Bunpin: as for Brelse.
- FileContent.Fs.Readi: a copy to user memory that fails ends readi early; copies succeed in the model.
- UserCopy.AddressSpace.Copyin: as for Copyout, page tables that map one physical page twice for the user are excluded.
- Lottery.Draw: ticket totals of 2^31 and more, which the kernel converts to int, are excluded.
- The MLFQ scheduler and its aging: sleeping processes are queued without a check and removal does not search, so its natural queue invariants do not hold.
- allocproc and freeproc beyond a slot's state, parent and mark of kill: their error paths do not give back every page.
- kill's search by process id: any slot may have the id, an UNUSED one too, since freeproc leaves it there.
- Umalloc.Heap.Malloc: requests whose region does not fit sbrk's int (2 GB) pass a negative count to sbrk and are excluded; sizes do not wrap at 32 bits.
- FileContent.Fs.Writei: a copy from user memory that fails in the middle may leave a cached block changed without log_write; copies succeed in the model.
- LinkCount.Fs.Create: entries made in a directory that is itself already unlinked are excluded, and nlink is unbounded where the kernel has 16 bits.
- Bits of the free map are booleans, not bits of bytes; inode fields other than size, addresses, type and link count are left out.
- File operations of several processes at once: each inode's lock serialises them, and the model is sequential.
- UserCopy.AddressSpace.Copyout: page tables that map one physical page twice for the user are excluded.
- copyinstr, kvmmap, uvmfirst, uvmclear and exec.
- LinkCount takes what namei has found, and whether writei fails, as inputs: Path.Namex and DirFile.WriteEntry say what these are, but the three are not one program.
- pipeclose's kfree: that nobody uses a pipe after both ends are closed rests on file reference counts.
- Fairness: the theorems say that everything can end from every state, not that the scheduler lets it; lock order between different locks; interrupts, CSRs, PLIC, UART, boot code, assembly, ELF loading and printf.
- The random number generator: the lottery is proved for every random value.
- grep's line buffer and the other user programs, the shell, the chat programs and the game servers.
