# A verified model of the os-cpp kernel core

This project models the parts of a small RISC-V kernel whose correctness is not local to one function: the
write-ahead log and the block cache under it, the scheduler with sleep, wakeup, fork, exit and wait, Sv39 page tables
and the frame allocator, the virtio disk queue, files, the image builder, console input, pipes, and the user-level
heap. `dafny verify dfyconfig.toml` checks all of it.

Code that changes things step by step is a class with methods. A class keeps its fields as values (sequences, maps and
numbers; a pointer is an index or an address), its invariant is a predicate over a datatype that holds those values,
and each change is a function on that datatype with a lemma that says what it keeps. What is promised over whole runs
is proved on those functions: crash runs (`Crash`), log runs (`LogRun`), cache runs (`BioRun`), runs of any number of
CPUs and processes (`ProcRun`), device runs (`VirtioQueue`), and interleavings of console and pipe operations.

| modules | what they model |
|---|---|
| `Blocks`, `Crash`, `LogRun`, `Log` | disk writes, crash recovery, log admission, and the log on top of the cache |
| `Bio`, `BioRun`, `BioPins`, `LogWear` | the buffer cache and its list; its runs; what pins that are never undone lead to, for the cache and for the log |
| `Threads`, `Proc`, `ProcRun`, `ProcScan`, `ProcWait` | CPUs, kernel threads and locks; process states; every step of every CPU; the two panics that calls can reach; what wait and exit promise each other |
| `Heap` | `malloc` and `free` |
| `Paging`, `Tables`, `Spaces`, `Budget`, `UserMem`, `Vm`, `Pagetable` | address arithmetic, table trees and frame ownership, address spaces, frames needed, user bytes, the operations; page tables of processes and fork |
| `VirtioQueue`, `Virtio` | the queue shared with the device, and what a device does that follows it; the driver |
| `FsFormat`, `Fs`, `Mkfs` | blocks and inodes; kernel files; the image builder |
| `Wrap`, `Console`, `Pipe` | free-running 32-bit indices; console input; pipes |

## Where the code does not do what it is for

Each of these is kept as the code has it, and the condition under which it is right is proved.

- `PG_ROUND_UP` and `PG_ROUND_DOWN` use a 32-bit mask. `Paging.RoundUpExactly` and `Paging.RoundDownExactly`: they are
  right exactly when the rounded result is below 2^32. `Paging.RoundUpWraps`: 4 GB is rounded to 0.
- `lwrite` can panic on a log of LOGSIZE blocks, the size that mkfs makes, although every operation stays in its
  budget. `LogRun.OverflowExactly`: that can happen exactly when the log has at most LOGSIZE blocks.
- `install_trans` never unpins what `lwrite` pinned, and nothing else calls `bupin`. `BioPins.PinsGrow`: no step of the
  code takes a pin away. `BioPins.Exhausts`: a run of the code that pins NBUF different blocks leaves every buffer
  pinned. `BioPins.ExhaustedForGood`: from then on no run of the code reads a block that is not cached.
  `LogWear.BootAndWearOut`: a machine boots on any disk with a clean log and replaces NBUF different data blocks, each
  in an operation of its own; the first NBUF - 2 are committed, and by the end every buffer is referenced.
- `alloc_proc` panics when it finds no free slot, and `exit` when init calls it. `ProcScan.PanicsExactly` says at which
  step, `ProcScan.NoProcMeans` that the scan has then seen every slot in use, so never while one stays UNUSED, and
  `ProcScan.PanicsReached` that on every machine some run gets to each of them. No other check of `proc.cpp` or
  `lock.cpp` fails (`ProcRun.NoPanic`).
- `morecore` turns large sizes into a negative `sbrk`. `Heap.RequestExact`: the request is the size meant exactly up to
  2^31 - 32 bytes.
- `bfree` uses the bit number as the byte number in its test. `Fs.Files.Bfree`: it panics exactly when a different
  block, `Fs.Tested(b)`, is free, and otherwise clears exactly the bit of b, even if that was clear. `Fs.BfreeFails`: a
  sound image on which freeing a used block panics, and one on which a double free passes.
- `bmap` treats every block number below NINDIRECT as a direct one. `Mkfs.KernelReads`: on an image made by mkfs the
  kernel finds the right block exactly when it is one of the twelve direct ones; block 12 is taken from the slot of the
  indirect block, 13 to 255 are read past the end of the array, and from 256 on it panics.
- `piperead` takes a byte before it copies it out. `Pipe.LostByte`: when the copy fails, exactly the next byte is gone.
- The sector of a disk request is computed in 32 bits. `VirtioQueue.SectorExactly`: it is where the block starts exactly
  for blocks below 2^31.
- `uvm_copy`, out of memory at page m, unmaps from page m on. `Vm.Memory.UvmCopy`: every page copied so far stays
  mapped, some page exactly if there were frames for the first mapped one, and the frame taken for page m is lost
  exactly if there was one. `Pagetable.ForkCopy`: what `fork` does then is a panic, in `uvm_unmap` or on a leaf in
  `free_walk`, unless page 0 of the parent is mapped and fewer than three frames are free. `Pagetable.ForkPanics`: a
  machine with twelve frames on which it happens.
- `uvm_clear` drops PTE_V and so hides the frame from `uvm_unmap`. `Spaces.ClearKeeps`: every frame stays accounted for
  exactly when no user page was mapped there.

## Model

| member | source | states |
|---|---|---|
| Crash.CommitCrashAtomic | kernel/log.cpp:84-103 | stop `commit` after any number of its writes, then let any number of recoveries crash anywhere: the next full recovery leaves all home blocks old or all new, new exactly when the first header write reached the disk |
| Crash.RunCrashAtomic | kernel/log.cpp:70-103 | the same for any sequence of committed transactions followed by one cut short |
| Crash.RecordedRecovers | kernel/log.cpp:54-75 | from a recorded header, any number of crashed recoveries and then a full one install the transaction |
| Crash.IdleRecovers | kernel/log.cpp:70-75 | recovery of a clean log changes nothing, however often it crashes |
| Crash.RecordedPrefix | kernel/log.cpp:54-75 | every prefix of the writes of recovery keeps the transaction recorded |
| Crash.CommitFull | kernel/log.cpp:95-103 | a complete commit installs every logged block and leaves the log clean |
| Crash.CommitHeaderStays | kernel/log.cpp:54-68 | after the header write, the writes of blocks to their homes leave the header as written |
| Crash.InstallInstalls | kernel/log.cpp:54-68 | installing puts each logged block at its home and leaves the others |
| Log.Log.Commit | kernel/log.cpp:95-103 | issues exactly the writes of the crash model in their order and shows readers the same blocks, whatever other blocks are being read; stops after a prefix only when every buffer is referenced |
| Log.Log.WriteLog | kernel/log.cpp:84-93 | copies each listed block from the cache into its log block; stops only when every buffer is referenced |
| Log.Log.WriteHeader | kernel/log.cpp:41-52 | writes the list to the header block; fails only when every buffer is referenced |
| Log.Log.InstallTrans | kernel/log.cpp:54-68 | writes each logged block home, in list order; stops only when every buffer is referenced |
| Log.Log.Recover | kernel/log.cpp:29-75 | on a fresh cache, issues exactly the writes of recovery, doubled as the code doubles them; then the log is open for operations over the home blocks that an idle or a recorded disk stands for; stops only when every buffer is referenced |
| Log.Log.Lwrite | kernel/log.cpp:145-167 | the block joins the list and is pinned unless it is there; refuses exactly when the list is full or no operation is open |
| Log.Log.BeginOp | kernel/log.cpp:105-119 | goes ahead exactly when no commit is under way and the list plus MAXOPBLOCKS for every operation, this one included, fits LOGSIZE; then one more operation is outstanding; otherwise it sleeps with nothing changed |
| Log.Log.EndOp | kernel/log.cpp:121-134 | one operation fewer; it starts the commit exactly when it was the last one; ending while committing is the panic |
| Log.Log.FinishOp | kernel/log.cpp:136-142 | the commit flag is cleared, as the admission step says |
| Log.Log.Replace | kernel/fs.cpp:37-42 | read, change, log and release a block: readers see exactly that block changed, and its home on disk is untouched; fails only when every buffer is referenced or the list is full |
| LogRun.RunInv | kernel/log.cpp:105-167 | in every run, committing means that none is outstanding, listed blocks are distinct, the list is shorter than the log, and when no operation is open and none is committing nothing is left uncommitted |
| LogRun.Reopens | kernel/log.cpp:105-143 | every run without a panic can go on until no operation is open, nothing is listed and the next operation is taken |
| LogRun.RunReserved | kernel/log.cpp:105-167 | in every run within budget, the list plus the unused reservations stays within LOGSIZE |
| LogRun.OverflowExactly | kernel/log.cpp:110-150 | within budget, the size panic is reachable exactly when the log has at most LOGSIZE blocks |
| Bio.Bcache.constructor | kernel/bio.cpp:20-30 | the list is one cycle through the head and every buffer, and the cache shows the disk |
| Bio.Bcache.Find | kernel/bio.cpp:35-45 | finds the buffer of a block exactly when it is cached |
| Bio.Bcache.FirstFree | kernel/bio.cpp:47-60 | finds the unreferenced buffer nearest the head |
| Bio.Bcache.Bget | kernel/bio.cpp:32-64 | gives a referenced buffer for the block; fails exactly when it is not cached and every buffer is referenced; readers see no difference |
| Bio.Bcache.Bread | kernel/bio.cpp:66-73 | a locked buffer holding what the plain block map has for that block |
| Bio.Bcache.Brelse | kernel/bio.cpp:75-92 | drops lock and reference, moves the buffer behind the head when it was the last one, and loses no change |
| Bio.Bcache.Bwrite | kernel/bio.cpp:94-99 | exactly one disk block becomes the buffer's contents |
| Bio.Bcache.Bpin | kernel/bio.cpp:101-105 | one more pin, nothing else |
| Bio.Bcache.Bupin | kernel/bio.cpp:107-111 | one pin fewer; the last one may go only when nothing would be lost |
| Bio.MovedFrontRing | kernel/bio.cpp:83-90 | the six pointer assignments turn the cycle into the cycle with the buffer moved behind the head |
| Bio.PushFrontRing | kernel/bio.cpp:24-29 | the insertion at the head extends the cycle |
| Bio.UnlinkRing | kernel/bio.cpp:84-85 | the two assignments take one buffer out of the cycle |
| Bio.ReassignOk | kernel/bio.cpp:50-55 | recycling an unreferenced buffer loses nothing: the block map is the same |
| Bio.DropRefOk | kernel/bio.cpp:79-82 | releasing a pinned or written buffer keeps the block map and the reference counts right |
| BioRun.CacheRefinesMap | kernel/bio.cpp:32-111 | in every interleaving of callers, the cache shows the plain block map changed only by its holders, and each holder sees its block in that map |
| BioRun.RefsCounted | kernel/bio.cpp:32-111 | in every run, refcnt is the references taken and not given back plus the pins not undone |
| BioRun.ReleaseIs | kernel/bio.cpp:75-92 | the two steps of brelse in a run, done at once, are the brelse of the cache |
| BioPins.PinsGrow | kernel/log.cpp:54-68 | no step that the code takes lowers the number of pins of a buffer or takes its block away |
| BioPins.ExhaustedForGood | kernel/bio.cpp:32-64 | once every buffer is pinned, in every run of the code no block enters the cache any more |
| BioPins.ManyPinned | kernel/log.cpp:145-167 | NBUF different pinned blocks leave no buffer unpinned |
| BioPins.PinsStay | kernel/log.cpp:145-167 | in every run of the code, each block that was pinned is pinned at the end |
| BioPins.Exhausts | kernel/log.cpp:145-167 | every run of the code that pins NBUF different blocks ends with every buffer pinned |
| LogWear.BusyMeans | kernel/bio.cpp:47-63 | when no buffer is left and nobody waits for one, the held and the pinned blocks are NBUF at least |
| LogWear.Transact | kernel/log.cpp:95-167 | begin_op, a change, end_op and commit put the block on disk and leave it pinned; it stops only when every buffer is referenced |
| LogWear.WearOut | kernel/log.cpp:54-68 | of operations on NBUF different data blocks the first NBUF - 2 are committed, and by the end every buffer is referenced |
| LogWear.BootAndWearOut | kernel/log.cpp:29-75 | the same from boot on any disk with a clean log |
| Threads.SwitchInCore | kernel/proc.cpp:194-198 | the scheduler's switch hands the process lock to the process on the same CPU |
| Threads.SwitchOutCore | kernel/proc.cpp:213-229 | the switch back hands it to the scheduler of the same CPU |
| Threads.TakeLCore | kernel/lock.cpp:40-51 | acquire keeps lock records, held locks and noff in step |
| Threads.DropLCore | kernel/lock.cpp:53-65 | release keeps them in step |
| Threads.TakePCore | kernel/lock.cpp:40-51 | the same for process locks |
| Threads.DropPCore | kernel/lock.cpp:53-65 | the same for process locks |
| Proc.SleepReleaseOk | kernel/proc.cpp:273-287 | when sleep releases its lock, no wakeup under that lock is in progress that has passed it |
| Proc.StopOk | kernel/proc.cpp:231-237 | marking a process RUNNABLE or SLEEPING before sched keeps the invariant |
| Proc.WakeOk | kernel/proc.cpp:289-299 | waking a process under its lock keeps the invariant |
| Proc.SwitchInOk | kernel/proc.cpp:184-211 | a chosen process is on no other CPU when it is switched to |
| Proc.SwitchOutOk | kernel/proc.cpp:213-229 | the three checks of sched hold, and the switch keeps the invariant |
| ProcRun.StepOk | kernel/proc.cpp:149-467 | every step of every CPU keeps the invariant, and no check of the locks, of sched or of the end of exit fails |
| ProcRun.RunInv | kernel/proc.cpp:149-467 | the invariant holds in every state of every run, for any number of CPUs, processes and locks |
| ProcRun.Exclusive | kernel/proc.cpp:184-287 | no two CPUs run the same thread or point at the same process; while a process's lock is free it is RUNNING exactly if a CPU points at it |
| ProcRun.NoffCounts | kernel/lock.cpp:16-65 | noff is the number of locks that record this CPU as holder, and interrupts are off while there are any |
| ProcRun.NoPanic | kernel/proc.cpp:213-229 | no lock is taken twice or released by a CPU without it, sched finds its own lock, noff 1 and interrupts off, and no zombie runs again |
| ProcScan.PanicsExactly | kernel/proc.cpp:149-182 | fork panics exactly on the step of a scan past the last slot, and exit exactly when init calls it |
| ProcScan.Looked | kernel/proc.cpp:149-178 | in every run, a scan has looked at every slot it has passed, under its lock, and found it in use |
| ProcScan.NoProcMeans | kernel/proc.cpp:149-179 | when fork panics, each slot was seen in use since its scan began: never while one stays UNUSED |
| ProcScan.PanicsReached | kernel/proc.cpp:398-402 | for any number of slots, CPUs and locks there is a run to each of the two panics |
| ProcScan.GoesOn | kernel/proc.cpp:149-467 | a thread inside one of these routines always has a next step, or waits for a lock, or has met one of the two panics |
| ProcRun.NoLostWakeup | kernel/proc.cpp:273-299 | when wakeup(chan) under a lock has finished, no process that released that lock inside sleep(chan) is asleep or on its way to sleep |
| ProcRun.Families | kernel/proc.cpp:301-467 | parents are live, zombies have parents, and a process has been reaped as often as it exited, once less while it is a zombie |
| ProcRun.ReapedOnce | kernel/proc.cpp:430-467 | a slot is freed by the parent, after an exit not yet reaped, when no CPU runs it or points at it |
| ProcWait.NoZombieMissed | kernel/proc.cpp:301-467 | in every run, whenever wait_lock is free, a process that sleeps in wait sleeps on its own address, has a child, and has no zombie child: exit and reparent have woken it |
| ProcWait.RunWaits | kernel/proc.cpp:398-467 | in every run, exit wakes its own parent under wait_lock and leaves it awake until it is a zombie; what a wait has looked at is no zombie child; while a sleeper in wait has a zombie child, somebody who holds wait_lock has its wakeup still ahead |
| ProcWait.WaitAnswers | kernel/proc.cpp:430-467 | in every run, a wait at the end of the table has no zombie child; it sleeps exactly if it has a child and is not killed, and gives up otherwise; it frees a child exactly if that is a zombie and the copy succeeds |
| ProcWait.StepFates | kernel/proc.cpp:149-467 | which steps change the status or the parent of a process, and to what; all others leave both alone |
| ProcWait.KillsAndPicks | kernel/proc.cpp:184-330 | in every run, a sleeper stops sleeping exactly by a wakeup on its channel or a kill of it, a kill leaves its target not SLEEPING, and a scheduler that holds the lock of a slot picks it exactly if it is RUNNABLE |
| ProcWait.FallsAsleep | kernel/proc.cpp:273-287 | a process falls asleep in wait only by the step that releases wait_lock |
| ProcWait.ParentChanges | kernel/proc.cpp:301-453 | the parent of a process changes only in fork, in the exit of its parent and in its reaping, under wait_lock |
| ProcRun.ReapOk | kernel/proc.cpp:442-453 | freeing the slot keeps the invariant |
| ProcRun.ZombieOk | kernel/proc.cpp:415-426 | a process becomes a zombie only when it has no children left |
| ProcRun.ReparentOk | kernel/proc.cpp:301-308 | handing a child to init keeps the invariant |
| ProcRun.TakeOk | kernel/proc.cpp:149-182 | taking a free slot keeps the invariant |
| ProcRun.LinkOk | kernel/proc.cpp:386-388 | recording the parent of a new process keeps the invariant |
| ProcRun.ReadyOk | kernel/proc.cpp:390-392 | making a new process runnable keeps the invariant |
| ProcRun.BootInv | kernel/proc.cpp:74-82 | the invariant holds at the start |
| Heap.Allocator.Malloc | ulibc/src/stdlib/malloc_free.c:38-65 | a new live block that holds the bytes asked for and less than one unit more, all bytes that no live block had; 0 exactly when nothing fits and sbrk refuses; other live blocks keep their bytes |
| Heap.EnoughUnits | ulibc/src/stdlib/malloc_free.c:42-43 | the units asked for are the fewest that hold a header and the bytes |
| Heap.Allocator.constructor | ulibc/src/stdlib/malloc_free.c:17-18 | before the first call there is no list and no block |
| Heap.Allocator.Free | ulibc/src/stdlib/malloc_free.c:67-87 | the block joins the list at the one place for it and merges with its neighbours; live blocks and bytes are conserved |
| Heap.Allocator.Search | ulibc/src/stdlib/malloc_free.c:72-75 | the search ends at the unique place for the block |
| Heap.Allocator.Morecore | ulibc/src/stdlib/malloc_free.c:20-35 | the region from sbrk joins the list, merged where it touches |
| Heap.Allocator.FindBlock | ulibc/src/stdlib/malloc_free.c:45-64 | the circular search ends, with a block that fits or with no memory |
| Heap.FreedOk | ulibc/src/stdlib/malloc_free.c:76-86 | after both merges the list is one address-ordered cycle of disjoint, pairwise non-adjacent blocks that, with the live ones, tile the heap |
| Heap.SplitOk | ulibc/src/stdlib/malloc_free.c:53-57 | cutting the tail off a block keeps all of that |
| Heap.TakenOk | ulibc/src/stdlib/malloc_free.c:51-52 | taking a whole block out of the list keeps all of that |
| Heap.GrantedOk | ulibc/src/stdlib/malloc_free.c:28-33 | so does a new region |
| Heap.RequestExact | ulibc/src/stdlib/malloc_free.c:26-44 | what sbrk is asked for is what was meant exactly for requests up to 2^31 - 32 |
| Heap.RequestShrinks | ulibc/src/stdlib/malloc_free.c:26-44 | a request for which sbrk is asked to shrink the heap |
| Heap.PlaceExists | ulibc/src/stdlib/malloc_free.c:73-75 | every live block has a place in the list |
| Heap.PlaceUnique | ulibc/src/stdlib/malloc_free.c:73-75 | and only one |
| Paging.RoundUpExactly | kernel/arch/riscv.h:196-199 | rounding up is right exactly when the result is below 2^32 |
| Paging.RoundDownExactly | kernel/arch/riscv.h:200-203 | the same for rounding down |
| Paging.RoundUpWraps | kernel/arch/riscv.h:196-199 | an address that is rounded to 0 |
| Paging.PageInjective | kernel/arch/riscv.h:219-228 | the three table indices determine the page number of every address that walk accepts |
| Paging.PteRoundTrip | kernel/arch/riscv.h:205-217 | an entry gives back the frame and flags it was made of |
| Vm.Memory.Kalloc | kernel/vm.cpp:44-56 | takes the head of the free list; nothing exactly when it is empty |
| Vm.Memory.Kfree | kernel/vm.cpp:35-42 | puts the frame at the head of the free list |
| Vm.Memory.constructor | kernel/vm.cpp:28-33 | exactly the whole frames between the end of the kernel and the end of memory are free, and there is no table |
| Vm.Memory.Walk | kernel/vm.cpp:99-125 | finds or makes the lowest-level entry, taking a frame for exactly the tables that were missing; every translation in every space stays the same |
| Vm.Memory.WalkAddr | kernel/vm.cpp:127-146 | the frame of a page exactly when it is valid and a user page |
| Vm.Memory.MapPages | kernel/vm.cpp:162-194 | adds exactly the pages va + 4096 k with frames pa + 4096 k and the flags and changes no other translation; panics exactly on bad alignment or size 0; stops after m pages when memory runs out or page m is mapped already or out of range |
| Vm.Memory.UvmCreate | kernel/vm.cpp:202-210 | an empty space in a frame that was free |
| Vm.Memory.UvmUnmap | kernel/vm.cpp:223-247 | unmaps exactly the mapped pages of the range and frees exactly their frames; gets through exactly if the address is aligned and no page of the range is out of range, without a table or no leaf |
| Vm.Memory.UvmDealloc | kernel/vm.cpp:282-294 | unmaps exactly the pages between the two sizes, as the kernel rounds them |
| Vm.Memory.UvmAlloc | kernel/vm.cpp:256-280 | new zeroed pages with the flags in frames that were free; succeeds exactly when there are free frames for the pages and the missing tables; on failure every translation is as before |
| Vm.Memory.FreeWalk | kernel/vm.cpp:148-160 | frees exactly the tables at and below a table; gets through exactly if no page is mapped below it |
| Vm.Memory.UvmFree | kernel/vm.cpp:249-254 | every table and user page of the space is on the free list once, and nothing else has changed; panics exactly where uvm_unmap does or if a page is mapped above the size |
| Vm.Memory.UvmCopy | kernel/vm.cpp:296-326 | each mapped page gets a copy with the same contents and flags in a frame of its own; succeeds exactly when every source page has a table and there are frames for pages and missing tables; out of memory, which page it stops at, which pages stay mapped, and whether a frame is lost |
| Vm.Memory.Copyout | kernel/vm.cpp:337-370 | writes exactly the bytes, up to the first page that is not writable, and no other byte of any space |
| Vm.Memory.Copyin | kernel/vm.cpp:372-400 | reads exactly the bytes; fails exactly if one is not mapped for the program |
| Vm.Memory.Copyinstr | kernel/vm.cpp:402-435 | succeeds exactly if a NUL comes before the end and before an unmapped byte, with what precedes it |
| Tables.GrownOk | kernel/vm.cpp:110-120 | adding a table keeps the tree unshared, every frame owned once, and every translation |
| Tables.MappedOk | kernel/vm.cpp:180-186 | mapping a page keeps every frame owned once |
| Tables.UnmappedOk | kernel/vm.cpp:236-245 | so does unmapping |
| Tables.PrunedOk | kernel/vm.cpp:150-159 | so does taking an empty table out of the tree |
| Tables.TakenOk | kernel/vm.cpp:44-56 | so does kalloc |
| Tables.GivenOk | kernel/vm.cpp:35-42 | so does kfree |
| Tables.SetLeafSlots | kernel/vm.cpp:186-186 | writing one entry changes one translation of one space |
| Spaces.MappedOne | kernel/vm.cpp:176-192 | one round of map_pages adds exactly one page |
| Spaces.UnmapStepOk | kernel/vm.cpp:229-246 | one round of uvm_unmap removes exactly one page |
| Spaces.AllocStep | kernel/vm.cpp:263-278 | one round of uvm_alloc or uvm_copy adds exactly one new page |
| Spaces.AllocUndo | kernel/vm.cpp:265-277 | unmapping what was added restores every translation and every frame |
| Spaces.ClearAll | kernel/vm.cpp:148-160 | after all 512 entries without a leaf, no page is mapped below a table |
| Budget.SpentIs | kernel/vm.cpp:256-326 | what has been taken from the free list is the cost of the pages made so far |
| Budget.PaidFor | kernel/vm.cpp:263-278 | a round of uvm_alloc or uvm_copy pays for its page and the tables missing on the way; if it cannot, there were fewer frames than the whole call costs |
| Budget.StaysMapped | kernel/vm.cpp:313-323 | the unmapping that follows a failed copy leaves exactly the copied pages mapped, with their flags |
| Budget.MadeSome | kernel/vm.cpp:313-323 | a copy that stops at page m has made a page exactly if there were frames for the first mapped one |
| Budget.LosesLast | kernel/vm.cpp:313-323 | a failed copy loses a frame exactly if one was left for the page it stopped at |
| Spaces.DownAll | kernel/vm.cpp:148-160 | freeing the children and then the table takes down exactly that part of the tree |
| Spaces.ReleasedAll | kernel/vm.cpp:249-254 | unmapping everything and freeing the tables releases the whole space |
| Spaces.ClearKeeps | kernel/vm.cpp:328-335 | uvm_clear keeps every frame accounted for exactly when no user page was mapped there |
| UserMem.ReadsBack | kernel/vm.cpp:337-400 | what copyout wrote can be read by copyin and is the same |
| UserMem.Unshared | kernel/vm.cpp:127-146 | two addresses with the same frame are on the same page of the same space |
| UserMem.OneText | kernel/vm.cpp:402-435 | there is only one string that copyinstr can return |
| UserMem.AllocBacked | kernel/vm.cpp:256-326 | the pages made by uvm_alloc and uvm_copy have their bytes |
| UserMem.UnmapBacked | kernel/vm.cpp:223-247 | what uvm_unmap leaves mapped keeps its bytes |
| Pagetable.AllocPagetable | kernel/proc.cpp:105-123 | a space with exactly the trampoline and the trapframe in three frames; nothing taken exactly when there are fewer |
| Pagetable.FreePagetable | kernel/proc.cpp:125-129 | gets through exactly if both pages at the end and the first sz bytes can be unmapped and no other page is mapped |
| Pagetable.ForkCopy | kernel/proc.cpp:363-367 | a child exactly if the copy can be paid for; an error, with every other space as before, exactly if the parent's page 0 is mapped and fewer than three frames are free; else a panic |
| Pagetable.ForkPanics | kernel/proc.cpp:355-367 | on a machine with twelve frames, fork of a process with two pages panics |
| VirtioQueue.RunSafe | kernel/virtio_disk.cpp:115-254 | for any device order and any status, each descriptor is free or in exactly one chain of three, and every used entry is a finished chain of a waiting, non-null buffer; no buffer is recorded for a head that is not in flight |
| VirtioQueue.RunOk | kernel/virtio_disk.cpp:115-254 | the queue invariant holds in every run |
| VirtioQueue.SubmittedOk | kernel/virtio_disk.cpp:179-216 | a new chain keeps the invariant, by which a chain carries its request, and never overwrites a pending ring slot |
| VirtioQueue.RunServes | kernel/virtio_disk.cpp:166-220 | in every run, a device that follows a chain in flight as the standard says writes the 1024 bytes of its buffer to its block, or reads its block into its buffer, and changes nothing else, for every block below 2^31 |
| VirtioQueue.RunSectors | kernel/virtio_disk.cpp:166-185 | in every run, a request names the sectors of its block exactly if the block is below 2^31, and requests for different such blocks name disjoint ranges |
| VirtioQueue.SectorExactly | kernel/virtio_disk.cpp:166-170 | the 32-bit sector is where the block starts exactly for blocks below 2^31 |
| VirtioQueue.NoticedOk | kernel/virtio_disk.cpp:238-251 | the entry the handler looks at is the right one through 16-bit wrap-around |
| VirtioQueue.FreedOk | kernel/virtio_disk.cpp:226-227 | freeing a finished chain keeps the invariant |
| VirtioQueue.Room | kernel/virtio_disk.cpp:212-216 | positions that hold different heads cannot fill a ring while a head is left |
| Virtio.Disk.constructor | kernel/virtio_disk.cpp:86-110 | all descriptors free and clear, nothing in flight |
| Virtio.Disk.AllocDesc | kernel/virtio_disk.cpp:115-123 | takes the least free descriptor; fails exactly when there is none |
| Virtio.Disk.FreeDesc | kernel/virtio_disk.cpp:125-138 | clears and frees a used descriptor; anything else is a panic |
| Virtio.Disk.Alloc3Desc | kernel/virtio_disk.cpp:140-151 | three different free descriptors, or, exactly when fewer are free, nothing changed |
| Virtio.Disk.FreeChain | kernel/virtio_disk.cpp:153-164 | frees exactly the three descriptors of the chain, without a panic |
| Virtio.Disk.Begin | kernel/virtio_disk.cpp:166-220 | submits the request, with its direction, and with the sector of its block exactly if that is below 2^31; must sleep, with nothing changed, exactly when fewer than three descriptors are free |
| Virtio.Disk.End | kernel/virtio_disk.cpp:222-228 | frees exactly its own chain |
| Virtio.Disk.Intr | kernel/virtio_disk.cpp:231-254 | every completed request, and no other, is marked done; the status panic comes exactly when a completed request has a nonzero status |
| Fs.Files.Balloc | kernel/fs.cpp:44-61 | the least free block is marked and zeroed; 0 exactly when there is none |
| Fs.Files.constructor | mkfs/mkfs.cpp:119-140 | an empty formatted disk: exactly the metadata blocks are marked |
| Fs.Files.Bmap | kernel/fs.cpp:223-260 | the block in one of the thirteen pointers, allocated when missing, 0 when the disk is full; past them, which branch the code takes |
| FsFormat.LookupExactly | kernel/fs.cpp:226-259 | which block numbers bmap looks up in the array, past its end, or not at all; its indirect branch takes none |
| Fs.Files.Readi | kernel/fs.cpp:300-327 | exactly the slice of the file |
| Fs.Files.Writei | kernel/fs.cpp:329-364 | the file is spliced with exactly the first tot bytes, all of them unless every block is used; other files are untouched; refused exactly by offset and length; a write beyond thirteen blocks strays past the pointers unless every block is used first |
| Fs.AllocatedUsed | kernel/fs.cpp:48-53 | balloc sets one bit and no other |
| Fs.GrownBytes | kernel/fs.cpp:226-234 | giving a file a block changes no byte of any file |
| Fs.PatchedBytes | kernel/fs.cpp:345-354 | writing into a block changes only those bytes of that file |
| Fs.SplicedContent | kernel/fs.cpp:357-361 | after the size update the file is the splice |
| Fs.Unshared | kernel/fs.cpp:223-235 | no two file blocks share a disk block |
| Fs.Files.Bfree | kernel/fs.cpp:63-75 | panics exactly when the block whose bit is tested is free; else clears exactly the bit of b, which keeps the disk sound exactly when b is a data block of no file |
| Fs.ClearedOk | kernel/fs.cpp:70-73 | clearing a bit keeps the disk sound exactly for a data block of no file |
| Fs.BfreeOnImage | kernel/fs.cpp:66-69 | on the layout that mkfs makes, the test passes for block b exactly when b % 8 is not 7 or block 63 is used |
| Fs.BfreeFails | kernel/fs.cpp:63-75 | sound disks on which freeing a used block panics and on which a double free passes |
| Mkfs.Image.constructor | mkfs/mkfs.cpp:119-140 | an image of zeroed blocks and empty inodes |
| Mkfs.Image.Iappend | mkfs/mkfs.cpp:269-309 | the file is longer by exactly the bytes, through direct and indirect pointers; other files are untouched; succeeds if there are blocks for the bytes and the indirect block, and only then when files have no spare blocks, which it keeps |
| Mkfs.Image.Build | mkfs/mkfs.cpp:269-309 | after any appends to any files each file is the concatenation of its appends; succeeds if there are blocks for all files, and on a new image only then |
| Mkfs.Image.Locate | mkfs/mkfs.cpp:280-297 | the block for a block number, taken from the free ones when missing; fails only when there is none |
| Mkfs.Balloc | mkfs/mkfs.cpp:256-267 | the bitmap marks exactly the blocks below `used` |
| Mkfs.Image.MakeImage | mkfs/mkfs.cpp:195-201 | succeeds if there are blocks for all files, and on a new image only then; exactly the data blocks in use are marked; the image is sound for the kernel exactly if every file has at most twelve blocks, and then the kernel reads the same files |
| Mkfs.KernelOk | kernel/fs.cpp:223-327 | with files of at most twelve blocks, an image the builder made is sound for the kernel and holds the same files there |
| Mkfs.KernelOkExactly | kernel/fs.cpp:223-235 | an image the builder made is sound for the kernel exactly if every file has at most twelve blocks |
| Mkfs.NextTotal | mkfs/mkfs.cpp:269-309 | an append adds to the blocks needed exactly what its file grows by |
| Mkfs.PointDirectOk | mkfs/mkfs.cpp:282-286 | a new direct block is used for nothing else |
| Mkfs.PointIndirectOk | mkfs/mkfs.cpp:288-290 | a new indirect block points at nothing yet |
| Mkfs.PointWordOk | mkfs/mkfs.cpp:291-296 | a new block behind the indirect one is used for nothing else |
| Mkfs.KernelReads | kernel/fs.cpp:226-261 | for every block number the builder accepts: the kernel finds the builder's block exactly for direct numbers, and which failure there is for the others |
| Console.RunDelivers | kernel/console.cpp:49-133 | in every interleaving of keys and reads, what the reads delivered is exactly what was committed and taken, without the consumed ^D bytes; committed bytes are never altered; the line being typed holds no newline and no ^D |
| Console.StepTakes | kernel/console.cpp:49-133 | one key or read delivers exactly the bytes it takes from the committed ones |
| Console.ReadTakes | kernel/console.cpp:49-92 | a read delivers what is next in the committed stream; a ^D is consumed only by a read that delivered nothing |
| Console.ReadStops | kernel/console.cpp:52-88 | a read stops at n bytes, after a newline, at a ^D, or waits at the end of what is committed |
| Console.Cons.Intr | kernel/console.cpp:94-133 | r <= w <= e <= r + 128 through 32-bit wrap-around, and the stream changes as the key says |
| Console.TypesEnter | kernel/console.cpp:112-128 | any keys without editing that there is room for enter the stream in order, with carriage returns as newlines; a line end commits all of it, and nothing else does |
| Console.LastByteCommits | kernel/console.cpp:113-127 | the last byte of room commits the line whatever it is, and a full buffer ignores keys |
| Console.Rubout | kernel/console.cpp:105-111 | a key followed by DEL or ^H leaves the console as it was |
| Console.LineKilled | kernel/console.cpp:98-104 | ^U after any keys of a line, edits included, leaves the console as it was before the line |
| Console.TypedIsRead | kernel/console.cpp:49-133 | a line typed on a console that has been read to its end is what the next read receives |
| Console.EndOfInput | kernel/console.cpp:62-72 | a ^D ends a read with nothing, used up by a read that has delivered nothing and kept for the next by one that has |
| Console.Cons.KillLine | kernel/console.cpp:98-104 | ^U erases back to exactly w |
| Console.Cons.Store | kernel/console.cpp:112-128 | the byte is stored, and the line committed when it ends or the buffer is full |
| Console.Cons.Read | kernel/console.cpp:49-92 | the loop over the ring delivers exactly what the stream has |
| Pipe.RunFifo | kernel/pipe.cpp:50-120 | in every interleaving at sleep points, the bytes that were in the pipe and those written are, in order, those taken and those still there |
| Pipe.RunDelivers | kernel/pipe.cpp:50-120 | while copies succeed, what readers received is a prefix of what went in |
| Pipe.OpenExactly | kernel/pipe.cpp:50-93 | in every run an end is open exactly if nobody has closed it, and nothing goes into a pipe whose read end is closed |
| Pipe.ActConserves | kernel/pipe.cpp:67-120 | one leg of a write or a read puts in and takes out exactly what it says, at most 512 bytes are in the pipe |
| Pipe.LostByte | kernel/pipe.cpp:113-118 | a read whose copy fails delivers the bytes before and loses exactly the next one |
| Pipe.Pipe.Write | kernel/pipe.cpp:67-93 | one leg of a write: how far it gets, when it sleeps and when it fails, through 32-bit wrap-around; it ends early only where the copy from the user fails |
| Pipe.Pipe.Read | kernel/pipe.cpp:95-120 | one leg of a read: sleeps exactly when the pipe is empty and open for writing, else delivers the next bytes; with copies succeeding, nothing exactly at end of file |
| Pipe.Pipe.Close | kernel/pipe.cpp:50-65 | closes one end; the pipe is freed exactly when both are closed |
| Wrap.SubLow | kernel/console.cpp:113-122 | differences and equality of close positions survive the 32-bit wrap-around |

## Left out

- Steps are sequentially consistent, and the lookup of the current process is one step: memory ordering and the
  unprotected CPU lookup are not modelled.
- `swtch`, interrupts, device registers, the UART, the PLIC, traps and start-up code: a switch is one step, and whether
  pop_off finds interrupts enabled is free.
- Process ids, the killed flag, exit status and the saved intena: kill is modelled by its effect on any process, and
  the killed test of wait answers either way.
- Sleep locks: the cache has a `locked` field; their own code is not modelled.
- Kernel code outside these routines takes no lock twice, releases only locks it holds, sleeps holding only the lock it
  passes, and calls fork, exit and wait without a lock: other calls are refused, not modelled.
- One device number; block numbers and counters of the log and the cache are unbounded integers.
- Log.Log.Recover: the cache is fresh, as at boot, and the header is one that commit can have left.
- Log.Log.Commit: it runs as one sequence; the blocks that others hold stay the same while it does.
- Bio.Bcache.Bread: for a block that no other caller holds, where the source sleeps until it is released.
- Bio.Bcache.Bupin: nothing in the source calls it; its precondition is what keeps a change from being lost.
- Heap.Allocator.Malloc: for requests up to 2^31 - 32 bytes, and sbrk regions above everything obtained before.
- Vm.Memory.UvmAlloc: for sizes whose rounding is in range, and for a range in which nothing is mapped.
- Vm.Memory.UvmUnmap: frames are freed only in ranges that hold user pages, as its callers ask.
- Vm.Memory.UvmFree: pages below the size are user pages. What a panic leaves behind is not described.
- Vm.Memory.FreeWalk: a page mapped without PTE_R, PTE_W and PTE_X, which the source would take for a table, is only
  said to be met.
- Vm.Memory.UvmDealloc: the pages between the two sizes are user pages.
- Pagetable.ForkCopy: the copy and the page table only; the release of the trapframe and of the slot is left out.
- A wakeup by an interrupt handler is a step in a process's own kernel code and in the idle loop, not inside fork or
  sleep, where only a yield is.
- Vm.Memory.UvmCopy: for sizes whose rounding is in range, an empty new space and user pages in the old one.
- Vm.Memory.Copyout: for ranges below 2^32, where rounding down is right.
- Vm.Memory.Copyin: for ranges below 2^32, where rounding down is right.
- Vm.Memory.Copyinstr: for ranges below 2^32, where rounding down is right.
- Vm.Memory.MapPages: physical addresses are aligned and in range, which the source does not test.
- The free list is a sequence and not a list threaded through the free pages; kvm_make and uvm_first only call what is
  modelled.
- Fs.Files.Bmap: where the source reads past the pointers of an inode, only that it does so is said; its indirect branch
  is never reached.
- Fs.Files.Writei: kernel buffers; nothing is said of a write that strays past the thirteen pointers. The cache under it
  is taken as the plain block map that BioRun.CacheRefinesMap shows it to be.
- itrunc, bfree's caller, directories, path lookup and the inode table.
- Mkfs.Image.Iappend: the contents after running out of blocks, where the source exits, are not described. The inode
  table is an array, not its serialised blocks; the root directory's size rounding is left out.
- Console.Cons.Read: the copy to the reader never fails, as the source's comparison makes it; echo is left out.
- pipealloc, the file table, system calls, the program loader, formatting, string functions and user programs.
