# A verified model of the kernel's hard parts

Dafny models of an xv6 kernel with read-copy-update (RCU) and of three of its user-level
components, with proofs of what they are for.

- **Crash-safe log.** `redolog.dfy` has the on-disk redo log with every block write a possible
  crash point; `logsystem.dfy` whole runs of operations, group commits, crashes and recoveries;
  `log.dfy` the code of `log.c` over the buffer cache, tied to the first by the exact sequence of
  its disk writes.
- **Buffer cache.** `bio.dfy` has the linked ring, recycling and reference counts; `bufrefs.dfy`
  the counts across threads.
- **RCU.** `rcu.dfy` interleaves readers, one writer, scheduler and reclamation, node by node;
  `klist.dfy` has the list code alone.
- **Memory.** `vm.dfy` has Sv39 page tables (section 4.4 of the RISC-V Privileged Architecture)
  living in pages of the allocator; `procmem.dfy` the processes that own them; `usercopy.dfy` the
  copies between kernel and user memory.
- **Scheduling.** `proc.dfy` has sleep, wakeup, yield and the scheduler; `rwlock.dfy` the
  reader-writer lock.
- **Files.** `fs.dfy` has bitmap, inodes, indirect blocks and file contents, and `filewrite`;
  `filecrash.dfy` puts `filewrite` on top of the log.
- **Disk driver.** `virtio.dfy` has driver and device around the rings of Virtio 1.1, sections 2.6
  and 5.2.
- **User programs.** `umalloc.dfy` has the allocator, `sh.dfy` the shell's parser, `grep.dfy` the
  matcher.

`sets.dfy` holds facts about sequences and finite sets.  `dafny verify dfyconfig.toml` checks the
whole project.

## How to read it

Code that changes state in loops is a class with methods, proved against functions, predicates and
ghost fields; protocols between CPUs or threads are transition systems, and their theorems speak of
every reachable state or every run.  Memory is sequentially consistent.
Tables of fixed size are `seq` or `map` fields that methods reassign; pointers are numbers or
indices.  A panic is a result (`false`, `-1`, `Err`), and the contracts say exactly when it happens,
or that it does not.

Four statements one would expect are false of the code, and the project says exactly when they
hold: `LogSystem.AppendPanicsIffLogTooSmall`, `LogSystem.AbsorbedWritePanicsIff`,
`Rcu.ReclamationSafeIff` and `UserMalloc.Allocator.Malloc`, with `UserMalloc.TooLarge` and
`UserMalloc.Wrapped` inputs that fail.

Each class's invariant is its `Valid()`: in `vm.dfy` it says that directory and owner are inverse,
that tables and only tables are linked, and that free pages have no owner; in `fs.dfy` that every
reference owns its block, every owned block has its bit, and no file has a hole; in `umalloc.dfy`
that blocks are disjoint, cover the heap and, when free, form one sorted ring without neighbours
that touch; in `virtio.dfy` that the allocated descriptors are the disjoint chains of the requests in
flight and the rings hold exactly those posted and completed.

## Model

| member | source | states |
|---|---|---|
| `RedoLog.RecoverPrefix` | kernel/log.c:68-123 | However many of recovery's block writes reach the disk, the disk is well formed and stands for the same contents of every home block; a complete recovery has emptied the log. |
| `RedoLog.CommitBefore` | kernel/log.c:178-203 | A prefix of commit's writes that ends before the non-zero header write leaves the log empty and every home block as it was. |
| `RedoLog.CommitAfter` | kernel/log.c:193-203 | After a prefix that contains the non-zero header write, the home blocks read, through the log, as all the new contents. |
| `RedoLog.CommitPrefix` | kernel/log.c:178-203 | After any prefix of commit's writes the home blocks read, through the log, all old or all new: new exactly when the header write is in the prefix. |
| `RedoLog.Boots` | kernel/log.c:68-123 | Any number of recoveries cut short at any write, then one that completes: the log ends empty and the home blocks hold what the interrupted disk already stood for. |
| `RedoLog.CrashAtomicity` | kernel/log.c:68-123 | From an empty log, for every crash point of commit and any crashes during recovery: each home block ends with its new contents if the header write had completed and with its old contents otherwise. |
| `LogSystem.StepInv` | kernel/log.c:126-235 | Every begin_op, log_write, end_op, commit write, crash and recovery write keeps the invariant that ties disk, log header, cache, reservations and committed operations together. |
| `LogSystem.OperationsAreAtomic` | kernel/log.c:126-235 | In every reachable state, crash now, let any recoveries crash and one finish: the home blocks are the initial ones with the updates of exactly the committed operations replayed; no outstanding operation is among them. |
| `LogSystem.CommitsWholeOperations` | kernel/log.c:146-175 | While a commit runs no operation is outstanding. |
| `LogSystem.StepKeepsCommitted` | kernel/log.c:146-203 | No step, a crash included, un-commits an operation or reorders its updates. |
| `LogSystem.EndedOperationsAreDurable` | kernel/log.c:146-203 | Whenever the log is empty again, as when the committing end_op returns, every update made since the last crash belongs to a committed operation, and what the cache shows survives any crashes. |
| `LogSystem.AppendHasRoom` | kernel/log.c:126-142 | An operation that keeps to MAXOPBLOCKS distinct blocks always appends at an index below LOGSIZE. |
| `LogSystem.AppendPanicsIffLogTooSmall` | kernel/log.c:214-235 | log_write's guard on log.size makes a well-behaved append panic in some run if and only if log.size <= LOGSIZE (mkfs/mkfs.c:25 makes them equal). |
| `LogSystem.AbsorbedWritePanicsIff` | kernel/log.c:214-235 | The guards precede the absorption scan: some run refuses an operation within its limit a block the transaction already holds, if and only if the log area has room for a block at all. |
| `BufferCache.Unlink` | kernel/bio.c:116-137 | Relinking a buffer's neighbours keeps next and prev inverse on one ring without it. |
| `BufferCache.PushFront` | kernel/bio.c:116-137 | Linking a buffer in behind the head keeps next and prev inverse on one ring with it first. |
| `BufferCache.MoveSorted` | kernel/bio.c:116-137 | Moving a released buffer to the front keeps the list in order of last release. |
| `BufferCache.RecycleUnique` | kernel/bio.c:58-89 | Giving an unused buffer a block no buffer holds keeps every (dev, blockno) in one buffer at most. |
| `BufferCache.BCache.Binit` | kernel/bio.c:36-53 | The list holds every buffer once, last initialised first, with next and prev inverse. |
| `BufferCache.BCache.FindCached` | kernel/bio.c:58-75 | The first loop finds the buffer that holds the block, and the head exactly when none does. |
| `BufferCache.BCache.FindUnused` | kernel/bio.c:76-88 | The second loop finds the unused buffer released longest ago, and the head exactly when none is unused. |
| `BufferCache.BCache.Bget` | kernel/bio.c:58-89 | The cached buffer, or the least recently released unused one with the new identity; the panic exactly when neither exists; no block in two buffers. |
| `BufferCache.BCache.Bread` | kernel/bio.c:92-103 | As bget, and the buffer holds the disk's contents of the block unless it already held newer ones. |
| `BufferCache.BCache.Bwrite` | kernel/bio.c:106-112 | Exactly the buffer's block changes on disk, to the buffer's contents, in one write. |
| `BufferCache.BCache.Brelse` | kernel/bio.c:116-137 | One reference fewer; the last one moves the buffer to the front, and only then does the order change. |
| `BufferCache.BCache.Bpin` | kernel/bio.c:139-144 | One pin more, counted in refcnt; nothing else changes. |
| `BufferCache.BCache.Bunpin` | kernel/bio.c:146-151 | One pin fewer, counted in refcnt; nothing else changes. |
| `BufferRefs.RunInv` | kernel/bio.c:58-151 | Over every interleaving, refcnt is the number of threads that refer to the buffer plus its pins, and each such thread's buffer holds the block it asked for. |
| `BufferRefs.ReturnedBufferHoldsBlock` | kernel/bio.c:58-89 | Whatever other threads do between bget's release of bcache.lock and the sleep-lock, the buffer bget returns holds the block asked for, and no other thread has it. |
| `BufferRefs.NotRecycled` | kernel/bio.c:76-88 | A buffer some thread refers to is never given another block. |
| `BufferRefs.PinnedKeepsBlock` | kernel/bio.c:139-151 | As long as a buffer is pinned, over any interleaving, it keeps its block, though no thread may refer to it. |
| `Log.FreeBufferIff` | kernel/log.c:178-203 | With each logged block pinned once, an unpinned buffer exists if and only if fewer than NBUF blocks are logged. |
| `Log.Log.WriteLog` | kernel/log.c:178-191 | Writes each logged block's latest cached contents to its log block, in order; it runs out of buffers exactly when NBUF blocks are logged. |
| `Log.Log.WriteHead` | kernel/log.c:102-114 | One write of the header block: the in-memory count and block numbers, its other words kept. |
| `Log.Log.InstallTrans` | kernel/log.c:68-83 | Exactly one write per logged block, of the log's contents to its home; when committing, each block loses its one pin. |
| `Log.Log.Commit` | kernel/log.c:193-203 | The disk writes, in order, are exactly those the crash theorems speak of, for the contents the cache shows; afterwards nothing is logged or pinned.  It fails exactly when NBUF blocks are logged. |
| `Log.Log.LogWrite` | kernel/log.c:214-235 | Panics exactly on the guards' conditions; otherwise the block is logged once, with exactly one pin, absorbed if it was logged before. |
| `Log.Log.UpdateBlock` | kernel/log.c:205-235 | bread, change, log_write, brelse: readers of the cache see the new contents of that block and the old of all others; the disk does not change. |
| `Log.Log.ReadHead` | kernel/log.c:86-97 | The in-memory header becomes the one on disk; nothing is written. |
| `Log.Log.RecoverFromLog` | kernel/log.c:116-123 | The disk writes are exactly those of recovery in the crash theorems; the log ends empty. |
| `Rcu.StepInv` | kernel/klinkedlist.c:45-138 | Every dispatch, preemption, reader load, and insert, delete, synchronize and reclaim step keeps the invariant on list, readers and writer. |
| `Rcu.GracePeriod` | kernel/rcu.c:17-26 | When synchronize_rcu returns, every read-side section that was open at its start on a CPU it visits has ended, however many CPUs there are, if the head load counts as inside the section. |
| `Rcu.GracePeriodEverywhere` | kernel/rcu.c:17-26 | If it visits every CPU, every section that was open at its start has ended. |
| `Rcu.SearchLinearizable` | kernel/klinkedlist.c:125-138 | Every answer of search is the answer of a sequential search of the list at some instant of the section. |
| `Rcu.ReclamationSafeIff` | kernel/rcu.c:17-26 | No reader ever stands on a node passed to kfree, in any run, if and only if synchronize_rcu visits every CPU and a reader cannot lose its CPU between loading head_ref and rcu_read_lock (or it visits CPUs that do not exist and never returns). |
| `Rcu.UnlinkAnswer` | kernel/klinkedlist.c:98-122 | An unlink leaves each reader's pending answer one that a sequential search gave or now gives. |
| `KernelList.SearchFindsFirst` | kernel/klinkedlist.c:125-138 | The reference search answers with the first node that has the key. |
| `KernelList.List.constructor` | kernel/klinkedlist.c:26-30 | A list of one node with key 0. |
| `KernelList.List.Insert` | kernel/klinkedlist.c:45-53 | The new node comes first; the others keep place and key. |
| `KernelList.List.SearchFor` | kernel/klinkedlist.c:125-138 | The loop returns what the reference search returns. |
| `KernelList.List.DeleteNode` | kernel/klinkedlist.c:98-122 | The first node with the key leaves the list and its page is free; without such a node nothing changes. |
| `PageTable.DecodeEncode` | kernel/riscv.h:341-354 | Page number and flags survive being packed into an entry and unpacked by PTE2PA and the flag tests. |
| `PageTable.HangsConsistent` | kernel/vm.c:85-103 | A zeroed page hung below an empty entry keeps the tree well formed and changes no translation of any address space. |
| `PageTable.WriteConsistent` | kernel/vm.c:142-192 | Writing one bottom entry keeps the tree well formed and changes exactly that one translation. |
| `PageTable.Kernel.constructor` | kernel/kalloc.c:26-40 | All pages of the range free, none with a role. |
| `PageTable.Kernel.Kalloc` | kernel/kalloc.c:68-82 | The first free page, no longer free; 0 exactly when there is none; no translation or user page changes. |
| `PageTable.Kernel.Kfree` | kernel/kalloc.c:46-63 | The page is free again, once; no translation or user page changes. |
| `PageTable.Kernel.Walk` | kernel/vm.c:85-103 | Finds the bottom table of the page, or with alloc makes the tables on the way, which fails exactly when more are missing than pages are free; no translation of any address space changes either way, and without alloc nothing does. |
| `PageTable.Kernel.MapPages` | kernel/vm.c:142-165 | Maps exactly the pages of the range in order, with any permissions, as far as tables can be made; panics if and only if it comes to a page already mapped, an address past MAXVA, or has size 0, and fails only when more tables are missing than pages are free; no other translation changes. |
| `PageTable.Kernel.Uvmunmap` | kernel/vm.c:170-192 | Removes exactly the range; if asked, frees its pages, whether user pages or others allocated; pages not freed are the caller's again. It panics exactly when some page of it is not mapped or its entry has no flag but V. |
| `PageTable.Kernel.Uvmalloc` | kernel/vm.c:225-249 | All of the new pages, zeroed, with the permissions asked for, or on failure the very map it found; everything else unchanged. It fails exactly when the pages and the missing tables together are more than the free pages. |
| `PageTable.Kernel.Uvmdealloc` | kernel/vm.c:255-267 | Exactly the pages between the two sizes go. |
| `PageTable.Kernel.Uvmcopy` | kernel/vm.c:305-333 | The child gets pages of its own with the parent's permissions and contents, or is as before; the parent and all others are unchanged. It fails exactly when pages and missing tables are more than the free pages. |
| `PageTable.Kernel.Freewalk` | kernel/vm.c:271-287 | Exactly the tables under the given one become free, each once; its leaf panic is not reached when no leaf is mapped. |
| `PageTable.Kernel.Uvmcreate` | kernel/vm.c:196-205 | A new empty address space; other address spaces unchanged. |
| `PageTable.Kernel.Uvmfree` | kernel/vm.c:291-297 | Nothing of the address space is left, all its pages are free, and no other address space changes. |
| `PageTable.Kernel.ProcPagetable` | kernel/proc.c:174-206 | An address space with exactly trampoline and trapframe mapped with their permissions, or, exactly when fewer than three pages are free, 0 with every page and translation as before. |
| `PageTable.Kernel.ProcFreepagetable` | kernel/proc.c:208-216 | No panic; every table and user page of the address space is free; the others are untouched. |
| `PageTable.TablesCount` | kernel/vm.c:85-103 | n pages from address 0 on take one bottom table for each 512 of them and one middle table for each 262144, rounded up. |
| `UserCopy.Walkaddr` | kernel/vm.c:105-126 | Changes nothing and answers what the flat view of the tree says: the page of a valid user mapping, else 0. |
| `UserCopy.Moved` | kernel/vm.c:352-371 | A move inside one page changes exactly those bytes of the program's memory. |
| `UserCopy.UserMemory.Copyout` | kernel/vm.c:348-371 | Exactly the program's bytes from dstva on become src, up to the first address not mapped for the user; fails exactly when there is one; no page that is not the program's changes. |
| `UserCopy.UserMemory.Copyin` | kernel/vm.c:373-396 | Returns the bytes the program sees; fails exactly when one of them is not mapped for the user. |
| `UserCopy.UserMemory.Copyinstr` | kernel/vm.c:398-439 | Returns the bytes up to and with the first 0; fails exactly when there is none within max mapped bytes. |
| `UserCopy.CopiedReadsBack` | kernel/vm.c:348-396 | What copyout wrote, copyin reads back. |
| `ProcMemory.SpaceFits` | kernel/proc.c:257-275 | A process has no more user pages than the machine has pages, so growing never meets the trapframe. |
| `ProcMemory.Isolated` | kernel/vm.c:305-333 | A page of one process is no page of another, no second page of the same, no table and not free. |
| `ProcMemory.ProcessBacked` | kernel/vm.c:348-439 | The page table of every live process meets what copyout, copyin and copyinstr need: user addresses lie below its size, in real memory, no two pages the same. |
| `ProcMemory.CopyoutApart` | kernel/vm.c:348-371 | A copyout into one process changes no byte that another process sees. |
| `ProcMemory.Processes.Accounted` | kernel/proc.c:154-172 | After any sequence of the calls below, every page is free, a trapframe or in exactly one address space; with no process left all are free. |
| `ProcMemory.SlotsFull` | kernel/proc.c:114-122 | There is an UNUSED slot if and only if fewer than NPROC processes live. |
| `ProcMemory.Processes.Allocproc` | kernel/proc.c:109-150 | A process without user memory in a free slot, or, exactly when the process table is full or fewer than four pages are free, failure with the free pages and all address spaces as before. |
| `ProcMemory.Processes.Freeproc` | kernel/proc.c:154-172 | The process's pages are free; every other process keeps its pages, contents and translations. |
| `ProcMemory.Processes.Growproc` | kernel/proc.c:257-275 | All of the bytes or none, the size tracked with the 64-bit wrap of a too large shrink; it fails exactly when it is to grow and new pages and missing tables are more than the free pages; a shrink keeps contents and translations of the pages that stay; other processes unchanged. |
| `ProcMemory.Processes.Fork` | kernel/proc.c:277-300 | Each page of the child is its own and has the parent's contents and permissions; it fails exactly when the process table is full or fewer pages are free than the child's n, their tables and four more, and then the free pages and all address spaces are as before. |
| `SleepWakeup.StepInv` | kernel/proc.c:445-587 | Every step of sleep, wakeup, yield, sched and scheduler, of processes and interrupt handlers, in any interleaving, keeps the invariant on locks, states, CPUs and pending wakeups. |
| `SleepWakeup.NoLostWakeup` | kernel/proc.c:543-587 | A process that called sleep(chan, lk) before a waker got lk is no longer asleep in that call once the waker's wakeup(chan), however much later, is through; the waker is a process or an interrupt handler and got lk by acquire or from the end of its own sleep. |
| `SleepWakeup.OneCpu` | kernel/proc.c:445-479 | No process is current on two CPUs, at any point of any run. |
| `SleepWakeup.DispatchAllowed` | kernel/proc.c:455-472 | A process is dispatched only where its affinity allows, while it runs nowhere and its lock is the scheduler's. |
| `SleepWakeup.SchedPasses` | kernel/proc.c:488-506 | sched is always entered with p->lock held, no other process's lock and no other lock, and the state changed, so its panics are not reached. |
| `RwLock.StepInv` | kernel/rwlock.c:20-64 | Every atomic step of any thread keeps the count, the flag and the exclusion right. |
| `RwLock.Exclusion` | kernel/rwlock.c:20-64 | For any number of threads and any interleaving: readers is the number of threads past the increment and not past the decrement, one writer at most is inside, and never with a reader. |
| `FileSystem.WordSet` | kernel/fs.c:398-415 | A word stored into an indirect block is read back, and the other words are not disturbed. |
| `FileSystem.NewAddr` | kernel/fs.c:382-397 | A zeroed block entered into ip->addrs keeps every block in one place and every byte of every file; an indirect block so added refers to nothing. |
| `FileSystem.NewEntry` | kernel/fs.c:398-415 | The same for a block entered into an indirect block. |
| `FileSystem.WriteBlock` | kernel/fs.c:505-528 | Writing part of one block of one file changes exactly those bytes of that file and no reference. |
| `FileSystem.FileSystem.Balloc` | kernel/fs.c:65-88 | The lowest free block, marked and zeroed, both passed to log_write; 0 exactly when the disk is full. |
| `FileSystem.FileSystem.Bfree` | kernel/fs.c:91-105 | Clears the block's bit; panics exactly when it is clear already. |
| `FileSystem.FileSystem.Bmap` | kernel/fs.c:382-421 | The file's block, allocated if it had none, 0 exactly when it has none and the disk is full; no other reference and no byte of any file changes; where the block exists nothing does. |
| `FileSystem.FileSystem.Itrunc` | kernel/fs.c:425-453 | Frees exactly the file's direct, indirect and indirect-table blocks; no bfree panics; the other files are unchanged. |
| `FileSystem.FileSystem.Readi` | kernel/fs.c:471-496 | Returns exactly the file's bytes from off up to the shorter of off+n and the size, and changes nothing. |
| `FileSystem.FileSystem.Writei` | kernel/fs.c:505-539 | Replaces exactly off .. off+r, extends the size as far, leaves no hole and no other file changed; stops short only on a full disk; -1 exactly on its three range checks. Replaying its calls of log_write on the blocks it found gives the blocks it leaves. |
| `FileSystem.FileSystem.Filewrite` | kernel/file.c:134-181 | The chunks add up to one write at the file's offset, which moves by what was written; short only for a full disk, a hole or a file too long; no transaction logs more than MAXOPBLOCKS distinct blocks, however many blocks the bitmap has. Each transaction's calls of log_write lead from the disk image before it to the one after it, with 3072 bytes more unless it is the last. |
| `FileSystem.LogBound` | kernel/file.c:147-155 | A write of at most three blocks' worth to a file without holes logs at most MAXOPBLOCKS blocks: data, indirect and inode blocks and the bitmap blocks of the new ones. |
| `FileSystem.ImageDetermines` | kernel/fs.h:29-51 | The blocks on disk determine the bitmap, every inode and every block of a file. |
| `FileCrash.CrashLeavesWholeChunks` | kernel/file.c:134-181 | Crash at any block write of a filewrite, let any recoveries crash and one complete: the disk is the image of the file system after exactly the committed transactions; the file has their bytes, each transaction's whole, and every other file is as it was. |
| `FileCrash.FinishedChunksSurvive` | kernel/file.c:153-172 | When end_op has returned, a crash leaves the bytes of all the transactions so far. |
| `FileCrash.LogTakesEveryCall` | kernel/log.c:214-235 | No log_write of a filewrite panics, on a log area of at least MAXOPBLOCKS + 2 blocks. |
| `UserMalloc.Release` | user/umalloc.c:24-44 | Putting a block into its gap keeps one circular list in address order. |
| `UserMalloc.Merge` | user/umalloc.c:31-42 | Joining two touching blocks keeps the list, the disjointness and the units. |
| `UserMalloc.Allocator.Free` | user/umalloc.c:24-44 | Both search conditions end the walk; the block is free and joined with the free blocks it touches; no two free blocks touch; live blocks and the units of the heap are unchanged. |
| `UserMalloc.Allocator.Sbrk` | kernel/sysproc.c:39-50 | Returns the old break and moves it, up if there is memory, down unless the size would wrap; -1 exactly when it is to grow and there is no memory. |
| `UserMalloc.Allocator.Morecore` | user/umalloc.c:46-61 | At least the units asked for join the heap and a large enough free block exists; or, exactly when sbrk is asked to grow and there is no memory, nothing changes; or, exactly when sbrk leaves the page of the old break unmapped, the store of the header kills the process. What joins the heap lies below the new break if and only if nu is below 2^27. |
| `UserMalloc.Allocator.Malloc` | user/umalloc.c:63-90 | Terminates; returns a block of exactly the rounded-up units, disjoint from all live ones, from the free list when that has one and else after one morecore; null or killed exactly when no free block is large enough and morecore is. The block lies below the break if and only if it came from the free list or has fewer than 2^27 units; every header lies in a mapped page. |
| `UserMalloc.TooLarge` | user/umalloc.c:46-90 | malloc(0xffff_fff1) of any process with memory to spare asks sbrk for 16 bytes and hands out 2^28 + 1 units, of which all but the first lie past the break. |
| `UserMalloc.Wrapped` | user/umalloc.c:46-90 | malloc(0x7fff_ffe1), 2^27 units, makes sbrk's argument -2^31 and leaves the break: the process is killed if the break is at the beginning of a page, as exec leaves it, and else gets a block past the break. |
| `UserMalloc.KilledIff` | user/umalloc.c:46-61 | morecore's store of the header faults if and only if 2^27 to 2^28 units are asked for and the break stands at the beginning of a page or is moved out of its page. |
| `VirtioDisk.QueuePush` | kernel/virtio_disk.c:262-268 | An entry added at a 16-bit index overwrites no waiting one, also when the index wraps. |
| `VirtioDisk.QueuePop` | kernel/virtio_disk.c:308-324 | Reading at a 16-bit index yields the oldest waiting entry, also when the index wraps. |
| `VirtioDisk.Disk.AllocDesc` | kernel/virtio_disk.c:156-166 | The lowest free descriptor; -1 exactly when none is free. |
| `VirtioDisk.Disk.FreeDesc` | kernel/virtio_disk.c:169-182 | Frees and clears the descriptor; panics exactly when it is free already or out of range. |
| `VirtioDisk.Disk.FreeChain` | kernel/virtio_disk.c:185-197 | Frees exactly the three descriptors of the chain, without a panic. |
| `VirtioDisk.Disk.Alloc3` | kernel/virtio_disk.c:201-213 | Three distinct free descriptors, or, exactly when there are fewer, the free set as it was. |
| `VirtioDisk.Disk.Submit` | kernel/virtio_disk.c:215-274 | A chain of header, data and status disjoint from all others is published, or with fewer than three free descriptors nothing is. |
| `VirtioDisk.Disk.DeviceServe` | kernel/virtio_disk.c:235-259 | A device that follows the chain moves exactly the block asked for, in the direction asked for. |
| `VirtioDisk.Disk.IntrOne` | kernel/virtio_disk.c:310-324 | The used entry completes the request that submitted it, for the first and only time; the status panic is not reached. |
| `VirtioDisk.Disk.Intr` | kernel/virtio_disk.c:294-327 | Every completed request is reported, in order and each once, and its buffer is no longer busy; the other requests keep their phase and the other buffers stay as they are. |
| `VirtioDisk.Disk.Finish` | kernel/virtio_disk.c:278-292 | Exactly the request's three descriptors become free again, without a panic. |
| `Shell.RoundTrip` | user/sh.c:328-447 | Parsing the canonical parenthesised printing of any command with legal words and at most nine arguments gives that command. |
| `Shell.ParseShow` | user/sh.c:345-447 | The same at any place of an input, up to a closing parenthesis or the end. |
| `Shell.Token` | user/sh.c:266-309 | A token lies at or behind the cursor, moves it unless the input is at its end, and a word token is a maximal word. |
| `Shell.Parser.Gettoken` | user/sh.c:266-309 | The loops compute the token function and leave the cursor where it says. |
| `Shell.Parser.Peek` | user/sh.c:311-321 | Moves over spaces only and tells whether one of the characters is next. |
| `Shell.Parser.Parseredirs` | user/sh.c:375-398 | The loop reads exactly the redirections of the grammar function, or fails where it does. |
| `Shell.Parser.Parseexec` | user/sh.c:416-447 | Computes the grammar function's command, panics included, and terminates. |
| `Shell.Parser.Parseblock` | user/sh.c:400-414 | Computes the grammar function's command, panics included, and terminates. |
| `Shell.Parser.Parsepipe` | user/sh.c:362-373 | Computes the grammar function's command and terminates. |
| `Shell.Parser.Parseline` | user/sh.c:345-360 | Computes the grammar function's command and terminates. |
| `Shell.Nulterminate` | user/sh.c:450-494 | Writes zeros exactly at the ends of the command's words. |
| `Shell.EndsSpareWords` | user/sh.c:450-494 | No such zero falls inside a word of the command. |
| `Shell.Parsecmd` | user/sh.c:328-343 | Terminates on every input; on success each word is in the buffer as in the input and ended by a zero at its own end. |
| `Grep.HereGoes` | user/grep.c:83-105 | A match takes a part for the first item of the pattern and goes on behind it, and conversely. |
| `Grep.MatchHere` | user/grep.c:83-95 | 1 exactly when some span at the beginning of the text is in the pattern's language, to the end of the text if the pattern ends in '$'. |
| `Grep.MatchStar` | user/grep.c:97-105 | 1 exactly when such a span exists for c* followed by the rest. |
| `Grep.Match` | user/grep.c:71-81 | 1 exactly when the text contains a span in the language of the pattern, at its beginning if the pattern begins with '^'. |

## Left out

- RCU with several writers: deleteNode loads the head before its lock and insert publishes after releasing it, so the list theorems are for one writer at a time.
- insert's unchecked kalloc (kernel/klinkedlist.c:46): the model's insert is given a free page.
- Rcu.SearchLinearizable: stated for runs without a context switch between the load of head_ref and rcu_read_lock, and for a grace period that visits every CPU; ReclamationSafeIff says what happens otherwise.
- The hand-over-hand locked list, updateNode and the RCU system calls: their locking does not provide what their names say.
- UserMalloc.Allocator.Malloc: stated for a heap that lies below the break, which is so from the start and stays so as long as no request of 2^27 units or more has gone to sbrk and the program itself does not call sbrk to shrink; whether the kernel has memory is a parameter, and the program's own calls of sbrk are by multiples of 16 bytes. Only malloc's and morecore's accesses to headers can fault here; the program's use of a block past the break is not modelled.
- UserMalloc.Allocator.Morecore: the same.
- PageTable.Kernel.Uvmunmap: what it frees has to be allocated and not yet free, as kfree wants it; kfree's panic for an address outside RAM is not modelled.
- ProcMemory.Processes.Growproc: stated for the machine's 32768 pages of RAM and an int argument; pids, open files and the kernel stack are not modelled, and a process keeps its slot until freeproc.
- exec and the first process's address space (uvmfirst): they add callers of uvmalloc and proc_freepagetable, not new obligations.
- UserCopy.UserMemory.Copyout: physical memory is bytes there and words in vm.dfy; what it needs of the page table ProcessBacked derives. readi, writei and filewrite take copies as succeeding.
- uvmclear and get_total_free_pages: one store, one counting loop.
- The free list's threading through the free pages themselves: it is a sequence; page contents on free and allocation are the junk the code writes.
- The bitmap is a sequence of bits and inodes are records; a bitmap block appears on disk as its bits, an inode block as the addresses and sizes of its inodes; neither goes through bread here.
- FileSystem.FileSystem.Filewrite: one writer of the file between its chunks.
- FileCrash.CrashLeavesWholeChunks: the filewrite's transactions are the only operations of the run; LogSystem.OperationsAreAtomic has the concurrent ones, on blocks.
- Directories, path names, inode allocation and reference counts of inodes and files.
- Waiting for a sleep-lock in the class models of buffer cache and log: a held buffer is one its caller holds; bufrefs.dfy has the interleavings.
- noff, intena and interrupt flags: interrupts are off exactly while a spinlock or a read-side section is held; a timer may yield, and a handler that only takes locks and wakes may start, when they are on.
- SleepWakeup.NoLostWakeup: exit, wait and process creation are outside its runs; kill's wakeup is one step under the process's lock.
- Waiting in the disk driver (sleep on free[0] and on the buffer): a request that finds too few descriptors is retried by its caller.
- Shell.Parser.Parseexec: the exec node and its redirections are assembled when the loop ends, not updated through pointers; running commands is not modelled.
- Shell.Parser.Parseredirs: returns the list of redirections, which its caller wraps around the command.
- grep's line buffering and file input.
- Pipes, console, system-call plumbing, traps, devices other than the disk, boot code, assembly, weak memory order, liveness and fairness.
