# A verified model of the K439 kernel

K439 is a small teaching kernel with its own heap, virtual memory, scheduler, file system,
resource tables and formatted output. This project models those six parts in Dafny and proves
what they are for, for all inputs and all runs. Code that updates memory in place is modelled by
classes over arrays and fields, with loops and invariants; code whose difficulty is interleaving
is modelled as a step machine whose steps are the stretches between two points where somebody
else can come in.

`dafny verify dfyconfig.toml` checks the whole project. `Common` holds the few definitions that several parts share.

| files | part | main results |
|---|---|---|
| `Heap`, `HeapMemory`, `FirstFit` | boundary-tag heap, kernel and user versions, `realloc` | after every run of `malloc` and `free` the blocks tile the array, tags and free list agree with them, available blocks are coalesced; first fit; `free` undoes `malloc`; live payloads never change |
| `Paging`, `Vmm` | frames, page directories and tables | every frame handed out has exactly one use; `fork` copies exactly the user pages into frames of their own; `exec` and destruction give back each frame once; a run that destroys all it created leaves every frame free |
| `Scheduler`, `SchedulerProofs`, `SchedulerRuns`, `LinkedLists`, `QueueTable`, `SchedulerCode` | processes, semaphores, timers, interrupts | every process is in exactly one place that fits its state, disable counts match, the only panic is that of a killed process that waits inside an interrupt, FIFO service counted in context switches, sleepers wake exactly on time; the code over linked queues and timers does in place what the step machine does |
| `Semaphores`, `BoundedBuffer`, `RingBuffer`, `Events` | ring buffer and event over semaphores | no unread item is overwritten, values come out in the order they went in, for any number of threads; the wake-up chain of an event never breaks |
| `BlockDevice`, `FatChains`, `FatLayout`, `Mkfs`, `FatFs`, `FatRoundTrip`, `FatDirectories` | FAT439: image builder, kernel reader, block allocator, `mkdir` | what the image builder writes, under any pattern of short reads, the kernel reads back byte for byte; chains stay disjoint and covering; what `mkdir` does to every later lookup |
| `Refcounts`, `ResourceTable` | reference-counted process lifetime | the count is one until reaped plus the slots naming the process; deletion once, after exit and after the last slot; `join` returns the stored exit code |
| `Formatter` | `snprintf` without floating point | the state machine prints what an item-by-item formatter prints; printed digits stand for the value; exactly when the length is the expected one |

## Assumptions

- The heap has at least 8 ints; physical memory has at most 1024 frames, which is the limit of
  0x400000 that the kernel identity-maps with one table.
- A page fault is taken only on a page that is not mapped.
- Semaphores start at a count of 0 or more, and the idle process never blocks and is not killed.
- Where a killed process runs `exit` inside a dispatch, the model lets it run any ordinary code.
- An image starts zero-filled, has room for its table and one more block, and is below 2 GB; sectors are 512 bytes.
- Code calls `enable` only to match a `disable` of its own.

## Where code and promise part

The model follows the code. Each of these has a counterexample or an exact condition in the project.

- `malloc` serves a request in full exactly when `bytes + 3` does not wrap in 32 bits
  (`Heap.RequestHolds`, `Heap.WrappedRequest`).
- `realloc` takes the size of the whole block, tags included, as the number of bytes it may copy,
  and frees the old block even when no new one was found (`FirstFit.FirstFitHeap.Realloc`).
- `sleepUntil` sleeps until the second asked for exactly when `second * hz` fits 32 bits
  (`SchedulerRuns.SleepTargetExact`); at 1000 ticks a second, second 4294968 is tick 704
  (`SchedulerRuns.SleepWraps`).
- The scheduler is not free of panics: `checkKilled` in `dispatch` makes a killed process run `exit`
  wherever it is resumed, also inside an interrupt, and again when it was in `exit` already. A step
  panics exactly if it waits there (`SchedulerProofs.StepKeepsInv`, `SchedulerRuns.RunKeepsInv`); a
  killed process that is interrupted while `exit` holds its table's mutex does
  (`SchedulerRuns.KilledPanics`), which is reached in six steps (`SchedulerRuns.PanicIsReached`).
  Without `kill` no panic is reachable (`SchedulerRuns.NoKillNoPanic`).
- A file whose bytes end at the end of a block gets one more, empty block
  (`Mkfs.Image.OneFile`, chain length `(length + 16) / 512 + 1`).
- A file name is found exactly when it has at most 11 characters (`FatLayout.NameFound`).
- `OpenFile::readFully` does not advance its offset: it repeats what one read can reach
  (`FatFs.OpenFile.ReadFully`).
- `mkdir("..")` succeeds in the root directory, whose parent is 0, and makes an entry that no
  lookup finds; for every other name the new directory is found (`FatFs.Directory.Mkdir`, `FatFs.DotDotIsLost`).
- With the zero flag, a precision above the digit count and a width above both, an integer comes out
  shorter than its width (`Formatter.IntTextLength`, `Formatter.ZeroFlagMeetsPrecision`).
- A precision cuts the padding of a string along with the string (`Formatter.StrText`).
- `mkdir` stops at 30 entries in the root directory, whose block has room for 31 (`FatFs.MkdirLimits`).
- kernel/fs.h:30 says that type 1 is a directory and type 2 a file; the code uses 2 for directories.

## Model

| member | source | states |
|---|---|---|
| Heap.TilesExactly | kernel/heap.cc:15-21 | in a well-tiled heap every index of the array lies in one block and in one only |
| Heap.AllocateKeeps | kernel/heap.cc:128-167 | `malloc` keeps tiling, coalescing and the exact free list |
| Heap.ReleaseKeeps | kernel/heap.cc:170-201 | `free` of a live block keeps tiling, coalescing and the exact free list |
| Heap.InitialInv | kernel/heap.cc:15-21 | the initialized heap is well tiled with its one free block listed |
| Heap.RunKeepsInv | kernel/heap.cc:128-201 | every state of every run of `malloc` and `free` of live blocks satisfies the heap invariant |
| Heap.NothingLive | kernel/heap.cc:183-199 | a heap with no live block is the initial heap, one free block of `len - 4` ints |
| Heap.RunThatFreesAll | kernel/heap.cc:128-201 | a run that has freed all it took ends in the initial heap |
| Heap.AllocateIsFirstFit | kernel/heap.cc:137-161 | the block handed out is the first in list order that is large enough; none is handed out exactly when no available block is large enough |
| Heap.AllocateIsFresh | kernel/heap.cc:145-157 | the block handed out was not live, exceeds the request by less than 4 ints and lies apart from every live block; live blocks stay as they are |
| Heap.RequestHolds | kernel/heap.cc:128-167 | the payload of the block handed out holds the requested bytes exactly when `bytes + 3` does not wrap |
| Heap.WrappedRequest | kernel/heap.cc:132-133 | the smallest wrapping request is served, with two payload ints, by a heap that has no more |
| Heap.BytesServed | kernel/heap.cc:128-167 | in bytes: a request fails exactly if every available block is too small for it and two tags; otherwise the first listed block that is large enough is handed out, as few ints of it as hold the bytes, or all of it where less than a block would be left |
| Heap.ReleaseKeepsOthers | kernel/heap.cc:183-199 | `free` takes away the block named and no other live block |
| Heap.ReleaseUndoesAllocate | kernel/heap.cc:142-199 | `free` after `malloc` restores every block and its availability, and the same set of listed blocks |
| HeapMemory.BypassRepresented | kernel/heap.cc:87-101 | relinking the neighbours of a listed block represents the list without it |
| HeapMemory.TakeRepresented | kernel/heap.cc:146-157 | the words written by `malloc` represent the block view after it, and touch no live payload |
| HeapMemory.ReleaseRepresented | kernel/heap.cc:183-199 | the words written by `free` represent the block view after it, and touch no other live payload |
| HeapMemory.PayloadWrites | kernel/heap.cc:157 | stores into the payload of a live block disturb no tag, no link and no other payload |
| HeapMemory.MovedBytes | user/heap.c:208-216 | the bytes of the old block arrive in the new one over copy and release |
| FirstFit.FirstFitHeap.constructor | kernel/heap.cc:15-21 | initialization sets up the words that represent the initial heap |
| FirstFit.FirstFitHeap.Sanity | kernel/heap.cc:39-61 | returns its index; no panic of the check can happen in a consistent heap |
| FirstFit.FirstFitHeap.LeftOf | kernel/heap.cc:63-65 | the block that ends where this one starts |
| FirstFit.FirstFitHeap.RightOf | kernel/heap.cc:67-69 | the block that starts where this one ends |
| FirstFit.FirstFitHeap.Remove | kernel/heap.cc:87-101 | takes one block off the list that the words represent, keeps order, tags and live payloads |
| FirstFit.FirstFitHeap.MakeAvail | kernel/heap.cc:103-112 | tags and list links written for a block put in front of the list |
| FirstFit.FirstFitHeap.MakeTaken | kernel/heap.cc:114-117 | tags written for a taken block |
| FirstFit.FirstFitHeap.Search | kernel/heap.cc:137-161 | the loop ends at the first listed block that is large enough, or at the end of the list |
| FirstFit.FirstFitHeap.Malloc | kernel/heap.cc:128-167 | the words afterwards represent the first-fit allocation on blocks; null exactly if every available block is too small for the bytes and two tags, and otherwise the fewest ints that hold them; live payloads unchanged |
| FirstFit.FirstFitHeap.Free | kernel/heap.cc:170-201 | the words afterwards represent the coalescing release on blocks; panics exactly on an available block; other live payloads unchanged |
| FirstFit.FirstFitHeap.Store | kernel/heap.cc:157 | a client's store into its block keeps the heap and every other payload |
| FirstFit.FirstFitHeap.Realloc | user/heap.c:193-218 | all cases of `realloc`: block view, result, and the bytes carried over, up to the smaller of the two payloads |
| Paging.OneUse | kernel/vmm.cc:23-84 | a frame handed out is on the free list, or the table of one directory entry, or the page of one table entry, exclusively |
| Paging.DataWriteTranslates | kernel/vmm.cc:104-111 | writes to pages and loose frames change no translation of any address space |
| Paging.PagesApart | kernel/vmm.cc:148-166 | one frame is mapped for the user at one place of one address space only, so stores stay private |
| Paging.SplitOf | kernel/vmm.cc:104-111 | a 32-bit address is one byte of one page of one region, in one way |
| Paging.UserWalks | kernel/vmm.cc:120-126 | as the processor reads the words: every user page is present, writable and open to the user in both levels, and every other user address faults |
| Paging.KernelWalks | kernel/vmm.cc:55-64 | as the processor reads the words: below the user addresses exactly the pages from 1 up to the end of memory are there, each at its own address, closed to the user |
| Paging.AdoptDir | kernel/vmm.cc:55-64 | a built directory with its kernel table joins the ownership invariant |
| Paging.TearTable | kernel/vmm.cc:66-84 | what the destructor's scan frees next is owned by this address space and not yet freed |
| Paging.OtherSpaceKept | kernel/vmm.cc:120-126 | while one address space grows, every other keeps its translations and page contents |
| Paging.OthersKeptSpaces | kernel/vmm.cc:66-84 | while one address space shrinks or goes, every other maps the same pages with the same contents |
| Paging.MirrorComplete | kernel/vmm.cc:148-166 | a finished copy maps exactly the parent's user pages, with equal contents, in frames of its own |
| Paging.AllBack | kernel/vmm.cc:66-84 | with no address space left and nothing loose, every frame handed out is free |
| Vmm.PhysMem.constructor | kernel/vmm.cc:14-21 | no frame is handed out at first |
| Vmm.PhysMem.Alloc | kernel/vmm.cc:23-42 | a zeroed frame that was free or never handed out; fails exactly when the list is empty and memory used up |
| Vmm.PhysMem.FreeFrame | kernel/vmm.cc:44-52 | the frame is on the free list; no other frame is written |
| Vmm.PhysMem.GetPTE | kernel/vmm.cc:104-111 | the table of the address, allocated empty if there was none |
| Vmm.IndicesSplit | kernel/vmm.cc:104-111 | directory and table index are region and page of the address |
| Vmm.PhysMem.MapUser | kernel/vmm.cc:120-126 | maps the frame there and nothing else; every frame in use keeps its use |
| Vmm.PhysMem.HandlePageFault | kernel/vmm.cc:134-146 | kills below 0x1000, panics below 0x80000000 or with memory used up, else the page in which the address lies is there, user-writable and zeroed, and no other mapping changes |
| Vmm.PhysMem.NewSpace | kernel/vmm.cc:55-64 | a directory with the kernel identity map and no user page; all other frames keep their use |
| Vmm.PhysMem.CopyPage | kernel/vmm.cc:157-161 | one page copied and mapped at the same place of the child |
| Vmm.PhysMem.Fork | kernel/vmm.cc:148-166 | the child mirrors the parent's user pages; the parent keeps pages and contents; nothing stays loose |
| Vmm.PhysMem.Exec | kernel/vmm.cc:168-186 | no user page is left, exactly the page frames are freed, all other spaces are as they were |
| Vmm.PhysMem.Destroy | kernel/vmm.cc:66-84 | exactly the frames of this address space become free, each once; all others are as they were |
| Vmm.PhysMem.StoreWord | kernel/vmm.cc:104-111 | a user store changes the word at its address and no translation; nothing outside the address space changes |
| Vmm.PhysMem.ServeOne | kernel/vmm.cc:55-186 | creation, fault, fork, exec, destruction and a user store each do what is asked of the address space named (no user page, a page there, a twin, ...), leave every other address space with the same pages and contents, and leave nothing loose; panics only on a kernel-range fault or with memory used up |
| Vmm.PhysMem.Serve | kernel/vmm.cc:14-186 | the same for every run from a fresh machine; once all address spaces are destroyed every frame is on the free list |
| SchedulerProofs.OnePlace | kernel/process.cc:257-333 | a process is current exactly if running, is in at most one queue and once there, in the ready queue if ready, in a semaphore or timer queue if blocked; the idle process is never in the ready queue |
| SchedulerProofs.MakeReadyIsReadied | kernel/process.cc:215-222 | `makeReady` leaves disable counts and the interrupt flag as they were |
| SchedulerProofs.DispatchSound | kernel/process.cc:279-300 | after a dispatch one process runs, and interrupts are on exactly if it holds no disable |
| SchedulerProofs.YieldSound | kernel/process.cc:302-333 | `yield` leaves every process in one place that fits its state |
| SchedulerProofs.YieldEffect | kernel/process.cc:319-331 | `yield` picks the head of the ready queue, or the idle process if there is none |
| SchedulerProofs.YieldQueue | kernel/process.cc:302-333 | `yield` adds the caller to the queue named and to no other |
| SchedulerProofs.WakeAllEffect | kernel/process.cc:397-400 | everyone waiting on a timer goes to the ready queue in order |
| SchedulerProofs.InsertTimerOk | kernel/process.cc:355-373 | insertion keeps the timer list strictly ascending and above the clock |
| SchedulerProofs.ClockAdvances | kernel/pit.cc:34-37 | one tick passes no timer, also when the 32-bit clock wraps; only the first timer can be due |
| SchedulerProofs.TickEffect | kernel/process.cc:385-405 | `tick` makes ready the sleepers of the timer that is due and nobody else |
| SchedulerProofs.SemStep | kernel/semaphore.cc:14-36 | `down` and `up` keep the count and the waiter list in step with the calls so far |
| SchedulerProofs.DownKeeps | kernel/semaphore.cc:14-25 | `down` keeps the scheduler invariant, or panics: exactly if it has to wait inside an interrupt |
| SchedulerProofs.UpKeeps | kernel/semaphore.cc:27-36 | `up` with direct hand-off keeps the scheduler invariant |
| SchedulerProofs.SleepKeeps | kernel/process.cc:350-378 | `sleepUntil` keeps the scheduler invariant, or panics: exactly if it has to wait inside an interrupt |
| SchedulerProofs.KillIs | kernel/process.cc:119-128 | `kill` marks the process and leaves no other trace |
| SchedulerProofs.ExitKeeps | kernel/process.cc:257-276 | `exit` keeps the scheduler invariant |
| SchedulerProofs.ReapIs | kernel/process.cc:33-44 | the reaper's own disable and enable leave no trace, in ordinary code and inside every dispatch |
| SchedulerProofs.ReapKeeps | kernel/process.cc:33-44 | a round of `checkReaper` keeps the scheduler invariant, wherever it runs |
| SchedulerProofs.StartIrqSound | kernel/process.cc:432-444 | an interrupt comes only with no disable outstanding, so `startIrq` does not panic |
| SchedulerProofs.InterruptKeeps | kernel/pic.cc:91-104 | an interrupt, timer included, keeps the scheduler invariant up to its context switch |
| SchedulerProofs.EndIrqKeeps | kernel/process.cc:446-456 | an interrupt ends with its own disable as the only one, so `endIrq` does not panic |
| SchedulerProofs.OnlyKilledWait | kernel/process.cc:46-55 | only a killed process can come to wait inside an interrupt |
| SchedulerProofs.StepKeepsInv | kernel/process.cc:33-456 | every step, kill and the exit of killed processes included, keeps the invariant or panics: the latter exactly if it waits inside an interrupt |
| SchedulerRuns.RunKeepsInv | kernel/process.cc:33-456 | every reachable state satisfies the invariant, except that a step waiting inside an interrupt ends the run with a panic |
| SchedulerRuns.NoKillNoPanic | kernel/process.cc:215-456 | in a run without `kill` no panic is reachable |
| SchedulerRuns.KilledPanics | kernel/process.cc:46-55 | a killed process interrupted while it holds a semaphore in `exit`, with nobody else ready, begins `exit` again inside the interrupt and panics on that semaphore |
| SchedulerRuns.PanicIsReached | kernel/process.cc:257-300 | such a panic is reached from a booted machine with one process |
| SchedulerRuns.SemCounts | kernel/semaphore.cc:14-36 | the count is max(0, init + ups - downs), the number of waiters max(0, downs - init - ups), and waiters are released in arrival order |
| SchedulerRuns.SemaphoreOverRun | kernel/semaphore.cc:14-36 | over a run: a semaphore made with count n has, after d downs and u ups, the count max(0, n + u - d) and max(0, d - n - u) waiters |
| SchedulerRuns.StepTurn | kernel/process.cc:302-333 | every step appends to the ready queue and takes its head exactly on a context switch |
| SchedulerRuns.PickedInTurn | kernel/process.cc:302-333 | a process at index k of the ready queue is picked by exactly the (k+1)-th context switch, whatever arrives |
| SchedulerRuns.StepSleepers | kernel/process.cc:385-405 | the sleepers of a target all leave when the clock reaches it and stay until then |
| SchedulerRuns.SleeperWakesOnTime | kernel/process.cc:350-405 | a sleeper is made ready exactly by the tick that brings the clock to its target |
| SchedulerRuns.SleepsUntilTarget | kernel/process.cc:350-405 | over a run, a sleeper stays until the first state whose clock shows its target, and is ready or running there |
| SchedulerRuns.ClockCounts | kernel/pit.cc:34-37 | over a run the clock advances by the number of timer interrupts, modulo 2 to the 32 |
| SchedulerRuns.WakesAfterTicks | kernel/process.cc:350-405 | a sleeper of x sleeps through fewer than x - jiffies timer interrupts and is ready or running right after that many |
| SchedulerRuns.SleepLasts | kernel/process.cc:350-405 | whoever asks for a second n ticks ahead is made ready by exactly the n-th timer interrupt that follows |
| SchedulerRuns.SleepTargetExact | kernel/process.cc:350-378 | after `sleepUntil` of a second to come, the caller sleeps until that second exactly when the product fits 32 bits |
| SchedulerRuns.SleepWraps | kernel/process.cc:353 | an input that does not fit: second 4294968 at 1000 ticks a second is tick 704 |
| SchedulerRuns.DownIsDown | kernel/semaphore.cc:14-25 | the scheduler's `down` is that of a semaphore on its own, as buffer and event use it |
| SchedulerRuns.UpIsUp | kernel/semaphore.cc:27-36 | the scheduler's `up` is that of a semaphore on its own |
| QueueTables.QueueTable.AddTail | kernel/queue.h:24-36 | among all linked queues of the kernel, the value is behind one and no other list changes |
| QueueTables.QueueTable.RemoveHead | kernel/queue.h:40-51 | the first value comes off one linked queue and no other list changes |
| SchedulerCode.Kernel.constructor | kernel/process.cc:26-31 | linked queues, timer list and records at boot stand for the machine's first state, with its invariant |
| SchedulerCode.Kernel.WakeAll | kernel/process.cc:397-400 | the loop over the linked queue of a timer makes everyone in it ready in order |
| SchedulerCode.Kernel.Fire | kernel/process.cc:393-402 | the first timer leaves the linked list and its sleepers become ready |
| SchedulerCode.Kernel.Sleep | kernel/process.cc:350-378 | walk and splice in the linked timer list, and the wait, are the sorted insertion and wait of the machine |
| SchedulerCode.Kernel.Perform | kernel/process.cc:215-456 | every step that can happen, carried out on linked queues, linked timers and plain records, is the machine's step; all lists stay sound, nobody is in two of them, nothing panics but a killed process that waits inside an interrupt |
| SchedulerCode.Kernel.Run | kernel/process.cc:215-456 | the same for every run, so that all run theorems of the machine hold of the linked structure |
| LinkedLists.SimpleQueue.AddTail | kernel/queue.h:24-36 | the linked nodes hold the old sequence with the value at its end |
| LinkedLists.SimpleQueue.IsEmpty | kernel/queue.h:37-39 | true exactly for the empty sequence |
| LinkedLists.SimpleQueue.RemoveHead | kernel/queue.h:40-51 | gives the first value; the nodes hold the rest |
| LinkedLists.TimerList.TimerFor | kernel/process.cc:355-373 | the pointer walk finds the timer of the target or splices one in where the sorted insertion puts it |
| LinkedLists.InsertWalk | kernel/process.cc:355-373 | walking past the smaller targets and inserting there is the sorted insertion |
| BoundedBuffer.StoreIsSafe | kernel/bb.h:22-29 | a producer about to store has a slot that holds no unread item |
| BoundedBuffer.LoadIsSafe | kernel/bb.h:31-39 | a consumer about to load finds the oldest value not yet taken |
| BoundedBuffer.RunKeeps | kernel/bb.h:22-39 | every action of every thread keeps semaphore units, waiters, indices and contents in step |
| BoundedBuffer.RunKeepsInv | kernel/bb.h:19-39 | the invariant holds in every state of every interleaving |
| BoundedBuffer.TakenInOrder | kernel/bb.h:19-39 | the values taken are a prefix of the values put, at most n behind |
| RingBuffer.Ring.Put | kernel/bb.h:25-26 | with a free slot, the value joins those put and no unread value is lost |
| RingBuffer.Ring.Get | kernel/bb.h:34-35 | with an item there, the oldest value not yet taken |
| Events.RunKeeps | kernel/semaphore.h:26-37 | one unit per signal, in the semaphore or with a thread that has yet to pass it on, in every run |
| Events.NobodyEarly | kernel/semaphore.h:30-33 | nobody gets through a wait before the signal |
| Events.ChainHolds | kernel/semaphore.h:26-37 | after a signal, somebody waits only while somebody is about to pass the unit on |
| Events.PassesDrain | kernel/semaphore.h:30-33 | each pass brings one of those waiting or passing out |
| BlockDevices.FlatPatch | kernel/block.cc:24-35 | replacing part of a sector replaces that part of the flat array and nothing else |
| BlockDevices.BlockDevice.Read | kernel/block.cc:13-22 | the bytes of the flat array from the offset on, up to the end of the sector |
| BlockDevices.BlockDevice.Write | kernel/block.cc:24-35 | overwrites those bytes of the flat array, up to the end of the sector |
| BlockDevices.BlockDevice.ReadFully | kernel/block.cc:37-47 | exactly the slice asked for, for every offset and length in range |
| BlockDevices.BlockDevice.WriteFully | kernel/block.cc:49-59 | exactly the slice given is overwritten and no other byte |
| FatChains.GrowKeeps | fat439/mkfs.c:28-37 | taking a free block, for a new chain or the end of one, keeps all chains linked, disjoint and covering |
| FatChains.FreeKeeps | kernel/fs.cc:446-454 | putting a whole chain in front of the free chain keeps all chains linked, disjoint and covering |
| FatChains.EndOfChain | kernel/fs.cc:446-454 | an entry of 0 marks exactly the last block of a chain |
| FatChains.Allocator.RemNextAvail | kernel/fs.cc:456-463 | the first free block as a chain of its own; 0 exactly when there is none |
| FatChains.Allocator.AddAvailBlk | kernel/fs.cc:446-454 | the walk to the end of the chain terminates; the chain is in front of the free chain |
| FatLayout.SuperRoundTrip | fat439/mkfs.c:134-148 | the first 16 bytes of an image give magic, block count, first free block and root back |
| FatLayout.FatRoundTrip | fat439/mkfs.c:131-145 | the table region of an image gives the allocation table back |
| FatLayout.SuperBytes | fat439/mkfs.c:134-148 | the first bytes of an image: "F439", then block count, first free block and root, least significant byte first |
| FatLayout.TableEntryBytes | fat439/mkfs.c:131-145 | entry i of the table is in the four bytes from 512 + 4 i on, least significant first |
| FatLayout.NameFound | kernel/fs.cc:320-327 | a stored name is found under exactly itself, and only with at most 11 characters |
| Mkfs.Image.GetBlock | fat439/mkfs.c:28-37 | unlinks the first free block; fails exactly when there is none |
| Mkfs.Image.OneFile | fat439/mkfs.c:47-93 | under any short reads: a chain of `(length + 16) / 512 + 1` free blocks holds header and bytes of the file, nothing else changes; fails exactly when so many blocks are not free |
| Mkfs.Image.Format | fat439/mkfs.c:132-145 | all blocks behind the table are in one free chain |
| Mkfs.Image.MakeRoot | fat439/mkfs.c:148-154 | the root directory takes a block of its own, with its header |
| Mkfs.Image.AddFile | fat439/mkfs.c:157-164 | the next file is in and named in the root directory; the ones before stay in place |
| Mkfs.MakeImage | fat439/mkfs.c:95-169 | the image holds every file in a chain of its own and names each in the root directory; made exactly if superblock, table of 4 bytes a block, root directory and the blocks of the files fit into the block count |
| Mkfs.RootBytes | fat439/mkfs.c:148-153 | the header words of the root directory in bytes |
| Mkfs.PlacedBytes | fat439/mkfs.c:47-93 | the bytes of a file's directory entry and header: name cut off or filled up to 12 bytes, first block; type 1, length, 1023, own block |
| FatFs.Mount | kernel/fs.cc:407-420 | refuses exactly a wrong magic number; else superblock words and table entries are those on the device |
| FatFs.OpenFile.Open | kernel/fs.cc:38-42 | the four header words of the block |
| FatFs.OpenFile.Read | kernel/fs.cc:52-72 | the bytes of the file at the offset, up to the length asked for, the end of the file and the end of the block; error beyond the end |
| FatFs.ReachStops | kernel/fs.cc:52-72 | one read stops only at the end of the file or of a block, and crosses no block |
| FatFs.OpenFile.ReadFully | kernel/fs.cc:74-85 | what one read can reach, repeated until the length asked for |
| FatFs.OpenFile.Resize | kernel/fs.cc:100-103 | length in memory and header on disk |
| FatFs.OpenFile.Append | kernel/fs.cc:129-173 | bytes put at the end of a file that stays in its first block, and the new length |
| FatFs.File.Seek | kernel/fs.h:34-36 | sets the offset |
| FatFs.File.Read | kernel/fs.cc:199-203 | reads at the offset and advances it by what was read |
| FatFs.File.ReadFully | kernel/fs.h:54-67 | all bytes from the offset on, up to the length asked for or the end of the file |
| FatFs.FirstMatchAt | kernel/fs.cc:316-330 | the lookup result is the start block of the first matching entry |
| FatFs.Directory.ReadEntry | kernel/fs.cc:318 | an entry lies inside one block, so that one read gives all of it |
| FatFs.Directory.SameName | kernel/fs.cc:320-327 | the comparison loop decides whether names match |
| FatFs.Directory.Lookup | kernel/fs.cc:305-331 | own block for ".", parent for "..", else the start block of the first entry of that name, 0 if none |
| FatFs.LookupAfter | kernel/fs.cc:285-301 | a new entry leads its name to the new block and leaves every other lookup as it was |
| FatFs.DotDotIsLost | kernel/fs.cc:252-331 | any directory with parent 0 accepts ".." exactly when it has room and a block is free, and never finds it |
| FatFs.MkdirLimits | kernel/fs.cc:252-264 | a name is refused for its length exactly if no lookup could match its entry; the root directory is full at 30 entries |
| FatFs.Directory.TakeBlock | kernel/fs.cc:266-268 | a free block, never the directory's own |
| FatFs.Directory.MakeField | kernel/fs.cc:290-294 | the field holds the name and its terminator, whatever the stack held |
| FatFs.Directory.Mkdir | kernel/fs.cc:252-303 | every error answer in order, with nothing changed; on success the new block has its header, lookups of the new name (unless "..") lead there, all other lookups and all other blocks are as before |
| FatRoundTrip.FileOnDisk | fat439/mkfs.c:47-93 | each file of an image is in the sectors of the device |
| FatRoundTrip.RootLookup | kernel/fs.cc:305-331 | a lookup in the root directory of an image finds the first file of that name, and nothing if there is none |
| FatRoundTrip.ReadBack | kernel/fs.cc:305-420 | mount, look up, open, seek and read give the bytes of that file |
| FatRoundTrip.RoundTrip | fat439/mkfs.c:95-169 | for every set of at most 31 files: build, mount, look up, seek to s and read n bytes gives bytes s to s + min(n, length - s), an error beyond the length, and no file under any other name |
| FatDirectories.OpenRoot | kernel/fs.cc:206-215 | the root directory of a mounted image meets all that `mkdir` relies on |
| FatDirectories.RootLeads | kernel/fs.cc:305-331 | where a name leads in the root of an image, in terms of the files it was built from |
| FatDirectories.MakeAndLookUp | kernel/fs.cc:252-331 | mount an image, make a directory, look a name up: the answer in terms of files and free blocks, the new block behind the new name unless it is "..", every other name as before |
| FatDirectories.MakeAndEnter | kernel/fs.cc:252-331 | make a directory, look its name up, open the block found: there "." is that block, ".." is the directory it was made in, and nothing else is found |
| Refcounts.NamedPut | kernel/resource.h:18-33 | a slot that changes leaves the slots of one object and joins those of another |
| Refcounts.FillKeeps | kernel/table.cc:44-57 | a slot filled with a reference keeps counts equal to slots |
| Refcounts.DropKeeps | kernel/table.cc:59-69 | a slot closed, with deletion at the last reference, leaves no dangling slot |
| Refcounts.ReapKeeps | kernel/process.cc:33-44 | the reaper's unref keeps counts equal to slots |
| Refcounts.StepKeeps | kernel/process.cc:98-101 | every step keeps the lifetime invariant |
| Refcounts.RunInv | kernel/process.cc:257-276 | every reachable state satisfies the lifetime invariant |
| Refcounts.ProcessExists | kernel/process.cc:98-113 | a process exists exactly while it is not reaped or some slot names it; its count is one until reaped plus the number of those slots |
| Refcounts.DeletedIsOver | kernel/process.cc:104-113 | a deleted process was reaped after its exit, is not current, holds no reference and is named by no slot |
| Refcounts.StepDeletes | kernel/resource.h:24-33 | only an unref of the last reference deletes, and a deleted object stays deleted |
| Refcounts.DeletedForGood | kernel/resource.h:24-33 | an object is deleted at most once in a run |
| Refcounts.JoinReturnsExitCode | kernel/syscall.cc:59-68 | a join returns the code that the joined process gave to its own exit, and the process still exists then |
| ResourceTables.Table.Open | kernel/table.cc:44-57 | the first empty slot from 2 on takes a reference; an error exactly when there is none |
| ResourceTables.Table.Close | kernel/table.cc:59-69 | errors for bad indices and slot 1, else the slot is emptied and its reference let go |
| ResourceTables.Table.CloseAll | kernel/table.cc:71-78 | slots from 2 on are empty; every count drops by the slots that named the object, and what has none left is deleted |
| ResourceTables.Table.CloseFrom | kernel/table.cc:10-17 | the same loop from any slot on, as the destructor runs it from 0 |
| ResourceTables.Table.ForkMe | kernel/table.cc:81-91 | the child inherits everything but processes, with one more reference per inherited slot |
| ResourceTables.Table.AddWorkingDir | kernel/table.cc:19-30 | slot 1 changes from the old directory to the new one, with their counts, and every slot still has its reference |
| ResourceTables.Table.CloseWorkingDir | kernel/table.cc:32-42 | slot 1 is emptied and its reference let go |
| ResourceTables.UnrefSlotsMinus | kernel/table.cc:73-76 | unreferencing slots one after the other lowers each count by the occurrences in them |
| ResourceTables.InvCovers | kernel/table.cc:71-78 | in every reachable state a table owns one reference per slot |
| ResourceTables.CloseAllIsDrops | kernel/table.cc:71-78 | the loop of `closeAll` is a run of single closing steps |
| Formatter.DigitsDecode | kernel/snprintf.cc:432-437 | the digits of a number stand for it, in every base |
| Formatter.WordDigits | kernel/snprintf.cc:432-439 | a 32-bit value has at most 11 digits, so the array of 20 never overflows |
| Formatter.IntTextDecodes | kernel/snprintf.cc:441-481 | whatever flags, width and precision, the digits printed stand for the value |
| Formatter.IntTextLength | kernel/snprintf.cc:441-448 | the length is max(width, sign + max(precision, digits)) exactly unless the zero flag meets a precision above the digits and a width above sign and precision |
| Formatter.ZeroFlagMeetsPrecision | kernel/snprintf.cc:445-449 | `%08.5d` of 42 prints 5 characters |
| Formatter.DigitsDenote | kernel/snprintf.cc:432-437 | the digits are letters of the alphabet of their base, weigh as powers of it, and begin with no superfluous 0 |
| Formatter.IntegerPrinted | kernel/snprintf.cc:234-286 | which base, letters, sign and padding each of `d i o u x X` gives a word under any flags, width and precision |
| Formatter.StringPadded | kernel/snprintf.cc:361-396 | character by character: the string, spaces on the side the flag says, cut at the precision |
| Formatter.FormatPrints | kernel/snprintf.cc:112-359 | the item-by-item formatter prints, for every list of items, what each directive has to print |
| Formatter.ReadDirective | kernel/snprintf.cc:144-351 | the state machine reads a directive from end to end and prints its conversion |
| Formatter.MachineFormats | kernel/snprintf.cc:130-358 | for every list of items, the state machine prints what the item-by-item formatter prints for items begun before `maxlen` |
| Formatter.Printer.MakeDigits | kernel/snprintf.cc:432-439 | the digit loop fills the array with the digits, least significant first |
| Formatter.Printer.FmtInt | kernel/snprintf.cc:400-488 | prints the integer text: spaces, sign, zeros, digits, spaces |
| Formatter.Printer.FmtStr | kernel/snprintf.cc:361-396 | prints the padded string, cut off after the precision |
| Formatter.Printer.Dopr | kernel/snprintf.cc:112-359 | the loop terminates and prints what the state machine has pending from the start |
| Formatter.Printer.Vsnprintf | kernel/snprintf.cc:670-673 | for a format made of items, each prints in turn what it has to: integers in the base, letters, sign and padding of their directive, strings, characters |

## Left out

- Formatter.Printer.Dopr: treats `%f`, `%e`, `%g`, `%p`, `%n` and `%w` like unknown conversions and reads a missing argument as 0; widths and precisions do not wrap.
- FatFs.OpenFile.Append: appends within the first block only; `OpenFile::write` past it links blocks wrongly (kernel/fs.cc:136, 170, 469-471).
- FatFs.Directory.Mkdir: covers directories whose first block has room, and the root; a full sub-directory needs the write just named. FAT and superblock changes stay in memory, as in the code.
- FirstFit.FirstFitHeap.Realloc: a pointer that came from `malloc(0)` is not passed to it, since the code then reads the word before the array; sizes above 0x7FFFFFFC are not asked for.
- Mkfs.MakeImage: file names come without directories and files can be opened and read; errors of `open` and `read` end the program.
- Refcounts.StepKeeps: processes, semaphores and directories; files are left out, since `Fat439File::forkMe` copies the count of the original. Counts do not wrap.
- ResourceTables.Table.CloseWorkingDir: the slot is not empty, which the code does not check; likewise `Table::get` on an empty slot.
- Interleaving is stated on step machines over values; `SchedulerCode.Kernel` and `RingBuffer.Ring` carry the same steps out in place. A queue object is made when it is first used.
- Frames are named by number and table entries are numbers; bit masks appear as division and remainder.
- Vmm.PhysMem.GetPTE: user addresses of a finished directory, and all addresses of one under construction; the code maps no others.
- Vmm.PhysMem.MapUser: an address that is not mapped; faults and `fork` map no other, and mapping one again would lose its page.
- ResourceTables.Table.AddWorkingDir: the directory installed already is asked for only while another reference keeps it; with the last one the code would use it after deletion.
- The cache of open files (`openFile`, `closeFile`) and stale entry counts of several directory objects for one block.
- `Fat439Directory::remove`, `lookupEntry`, `remFromOffset` and paths of several components, which do not do what they are for.
- A semaphore created with a negative count.
- Floating-point output, ELF loading and argument stacks, system-call dispatch, shell and user commands.
- Devices, interrupt controller programming, TLB, context-switch assembly, descriptor tables, random numbers: hardware or easy members.
