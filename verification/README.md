# A verified model of the kernel

This project models the parts of a small 32-bit x86 kernel whose invariants span whole runs, and
proves them in Dafny 4.11. `dafny verify dfyconfig.toml` checks everything.

- **Paging** (`PageSpec`, `PageMachine`, `PageMemory`, `PageSteps`, `PageFork`, `PageRun`, `PageFacts`, `PageCode`,
  `RefCount`). Frames, reference counts, page tables and every address space form one machine. Each
  routine of `src/mem/page.c` is a function on it, the class `Pager` runs the same routines in place,
  and a simulation relates the machine to one in which fork copies every page at once.
- **Kernel heap** (`HeapSpec` to `HeapRun`, `OrderedArray`, `HeapCode`, `HeapAlloc`, `HeapKfree`,
  `KernelHeap`, `HeapWitness`). Blocks that tile the heap and a size-ordered index of holes, first as
  values and then as header and footer bytes in one memory array.
- **Threads and processes** (`TaskSpec` to `TaskFair`, `TaskKeys`, `TaskEffects`, `TaskLedger`, `TaskWitness`, `TaskCode`, `KeyQueue`). The
  scheduler, the condition variable, the keyboard wait list and the fork/exec/wait/exit protocol are one
  state machine; a step is one section that runs with interrupts off or under a lock. The class `Kernel`
  runs the sections in place.
- **File system** (`FsSpec`, `FsWrite`, `FsRead`, `FsRun`, `Disk`). The image writers of the host tools
  and the kernel's reader, over the bytes of the disk.
- **Containers and small algorithms** (`HashTable`, `LinkedList`, `Bitmap`, `Bits`, `UserStack`,
  `Bytes`, `Wrappers`).

Specification functions work on values. The methods of the classes `Pager`, `KHeap`, `Kernel`,
`OrderedArray`, `Table`, `List`, `Ring`, `Bits32` and `Stacks` update fields and arrays as the source
does, and their contracts equate the new state with a specification function of the old one.

## Model

| member | source | states |
|---|---|---|
| PageRun.CowIsTransparent | src/mem/page.c:332-571 | For every run of loads, stores, mappings, forks, range releases, exits and reaps, what every address space sees and every byte read equal those of a machine in which fork copies all pages and spaces own private pages; no Assert fails on the way, and a run ends early exactly when some operation in it finds fewer free frames than it needs |
| PageRun.StepRefines | src/mem/page.c:99-151 | One operation keeps the reference-count invariant, acts on the views as the eager machine's operation does, and stops for want of memory exactly when fewer frames are free than it needs |
| PageRun.StepTakes | src/mem/page.c:269-289 | Each operation that goes through takes exactly the frames it needs: a load or store none to two, a fork one and one per user table |
| PageRun.FreshPagesAreZero | src/mem/page.c:307-311 | A load from a page never touched reads 0, and every byte of a newly mapped page is 0 |
| PageFacts.ReachableInv | src/mem/page.c:153-207 | Every state of every run from the boot state satisfies the invariant |
| PageFacts.CountedIffReachable | src/mem/page.c:291-302 | A frame's count is nonzero exactly when some directory, table, user page or kernel mapping refers to it |
| PageMachine.CountBounded | src/mem/page.c:29 | A shared frame's count is at most the number of live address spaces, which is below 2^16 |
| PageMachine.SpacesBounded | src/mem/page.c:460-470 | There are never more address spaces than frames, since each owns its directory frame |
| PageFork.IncIsExact | src/mem/page.c:575-580 | The unchecked 16-bit increment never wraps in a state that satisfies the invariant |
| PageFork.KeepClone | src/mem/page.c:460-571 | Fork keeps the invariant, leaves every existing view alone and gives the child the parent's view |
| PageFork.ForkTakes | src/mem/page.c:460-571 | Fork panics exactly when fewer frames are free than a directory and a table for each present user table of the parent, and otherwise takes just those |
| PageSteps.KeepMapPage | src/mem/page.c:332-400 | Mapping keeps the invariant and makes a missing page appear as zeroes in one space only |
| PageMemory.MapTakes | src/mem/page.c:332-400 | Mapping needs one frame for a missing page and one more for a missing table, and panics exactly when fewer are free |
| PageMemory.MapRights | src/mem/page.c:334-391 | What mapping adds is accessible to user code exactly below 0xC0000000 |
| PageSteps.KeepCow | src/mem/page.c:403-457 | The fault handler fails no Assert, makes the page writable, keeps the invariant and changes no view; it panics exactly when the frame is shared and none is free |
| PageMemory.CowTakes | src/mem/page.c:420-455 | The handler takes one frame exactly when the old one is shared, and none otherwise |
| PageSteps.KeepTouch | src/mem/page.c:114-145 | After at most one fault an access hits; after a store fault the frame is private; it panics exactly when fewer frames are free than it needs |
| PageRun.KeepReleaseRange | src/mem/page.c:217-267 | Releasing a range fails no Assert, keeps the invariant and clears exactly the present entries of the range |
| PageRun.ReleasedViews | src/mem/page.c:246-267 | The view afterwards is the view before without the range |
| PageRun.KeepReleaseUserSpace | src/task/process.c:275-279 | Exit leaves a space with no user page and no user table, and all other views as they were |
| PageRun.KeepDestroy | src/task/process.c:294-301 | Reaping gives back the directory frame and removes exactly that space |
| PageMemory.ScanIsNextFit | src/mem/page.c:269-289 | The scan finds the first free frame from the cursor on, cyclically |
| PageMemory.NoMemoryIffFull | src/mem/page.c:283-289 | Allocation fails exactly when every count is nonzero |
| PageMemory.AllocIsNextFit | src/mem/page.c:269-289 | The first free frame from the cursor on is taken, and the cursor stays on it |
| PageFacts.WritableIsCountedOnce | src/mem/page.c:527-537 | A writable user page has count 1 |
| PageFacts.ForkExitReapRestores | src/mem/page.c:582-592 | Fork, then exit and reap of the child, restores every reference count |
| PageFacts.KernelStoreIsPrivateIff | src/boot/loader.asm:340-343 | With CR0.WP clear, a kernel-mode store stays invisible to other spaces exactly when the frame is unshared or the byte does not change |
| PageFacts.KernelStoreLeaks | src/boot/loader.asm:335-343 | The failing input: after any fork, a kernel-mode store by the parent of a different byte is read by the child |
| PageCode.Pager.AllocPhyFrame | src/mem/page.c:269-289 | The cursor loop computes the specified allocation |
| PageCode.Pager.ReleasePhyFrame | src/mem/page.c:291-298 | The count falls by one; false where the source asserts |
| PageCode.Pager.IncCowRef | src/mem/page.c:575-580 | The count rises by one modulo 2^16 |
| PageCode.Pager.MapPage | src/mem/page.c:316-400 | Table and entry half together compute the specified mapping in place |
| PageCode.Pager.HandleCowFault | src/mem/page.c:403-457 | The in-place handler computes the specified fault, including its Asserts and the out-of-memory stop |
| PageCode.Pager.ReleasePages | src/mem/page.c:246-267 | The nested directory and table loops release exactly the pages of the range, each once |
| PageCode.Pager.ReleasePageTables | src/mem/page.c:582-592 | The loop releases exactly the present tables of the range |
| PageCode.Pager.CloneCrtPageDir | src/mem/page.c:460-571 | The nested copy loops compute the specified clone of parent, child and counts |
| HeapRun.StepKeeps | src/mem/kheap.c:236-267 | Each kmalloc, kmalloc_align and kfree keeps the heap well formed: blocks tile it, no two holes touch, the index holds exactly the holes by size |
| HeapRun.InitWF | src/mem/kheap.c:33-65 | The initial heap is well formed |
| HeapRun.KmallocAlign | src/mem/kheap.c:252-257 | Wherever an aligned request succeeds it yields a page-aligned block inside a hole and keeps the heap well formed |
| HeapRun.RunCoalesces | src/mem/kheap.c:199-234 | After any run that has freed everything, in any order, one hole spans the heap and the index has one entry |
| HeapMalloc.Kmalloc | src/mem/kheap.c:124-197 | An unaligned request is refused exactly when no hole has room and the heap cannot grow by it; otherwise it yields one new live block of its size up to 17 bytes more, with one expansion exactly when no hole has room |
| HeapMalloc.BestFit | src/mem/kheap.c:83-110 | Whenever some hole has room, aligned or not, the heap does not grow and the request gets the lowest fitting place of a smallest fitting hole |
| HeapMalloc.FitIsLowest | src/mem/kheap.c:88-107 | The search inside a block misses no place where the request fits with a front part that can be a block, and yields the lowest |
| HeapMalloc.FoundIffRoom | src/mem/kheap.c:83-110 | The search through the index succeeds exactly when some hole of the heap has room |
| HeapMalloc.AlignOnFreeTail | src/mem/kheap.c:83-122 | With a free tail an aligned request needs at most two expansions |
| HeapMalloc.TakeStray | src/mem/kheap.c:143-149 | The used block that expansion puts into the index is consumed by the request that caused it |
| HeapMalloc.AlignPanics | src/mem/kheap.c:112-122 | After a used tail, an aligned request of an unlucky size expands until the size Assert |
| HeapMalloc.AlignOnUsedTail | src/mem/kheap.c:124-150 | With a used tail and no fitting hole an aligned request succeeds exactly when the page-rounded extension leaves room for an aligned block, and the limit allows it |
| HeapWitness.AlignPanicsExample | src/mem/kheap.c:143-147 | From boot: kmalloc of the whole first hole succeeds, then a 64-byte kmalloc_align panics with 496 MB left |
| HeapFree.Kfree | src/mem/kheap.c:199-231 | Freeing a live block keeps the heap well formed and removes that block from the live ones |
| HeapFree.KfreeKeepsIff | src/mem/kheap.c:231 | Free keeps the heap well formed exactly when the index has room or a neighbour is merged |
| HeapWitness.FullIndexLosesHole | src/utils/ordered_array.c:13-16 | The failing input: with 4096 holes and three used blocks in a row, freeing the middle one leaves a hole in no index entry |
| HeapFree.LiveDisjoint | src/mem/kheap.c:178-195 | Live blocks are pairwise disjoint and inside the heap |
| HeapFree.AllFreed | src/mem/kheap.c:210-229 | A well-formed heap without live blocks is one hole |
| HeapCode.MakeBlock | src/mem/kheap.c:68-81 | Nine header and eight footer bytes are written, and no other |
| HeapCode.FindHoleIn | src/mem/kheap.c:83-110 | The search through the index and the headers in memory finds what the specification finds |
| HeapCode.InsertBySize | src/mem/kheap.c:27-31 | Insertion with sizes read through the headers keeps the index the image of the specified one |
| HeapCode.GrowLast | src/mem/kheap.c:136-141 | A free last block is resized while it is in the index and then re-inserted, as specified |
| HeapAlloc.AllocIn | src/mem/kheap.c:124-197 | The code on bytes computes the specified allocation and writes no payload byte of a live block |
| HeapKfree.FreeIn | src/mem/kheap.c:199-234 | The code on bytes computes the specified free and writes no payload byte of another live block |
| KernelHeap.KHeap.constructor | src/mem/kheap.c:38-65 | The new heap represents one hole behind the index array |
| KernelHeap.KHeap.Kmalloc | src/mem/kheap.c:245-257 | Served requests return a new disjoint live block at the best place, page aligned if asked for, and leave other payloads alone; an unaligned request fails exactly when no hole has room and the limit is reached; an aligned one behind a used tail exactly for the unlucky sizes |
| KernelHeap.KHeap.Kfree | src/mem/kheap.c:259-267 | A live pointer is freed and every other live payload keeps its bytes |
| KernelHeap.PayloadWrite | src/mem/kheap.c:178-195 | Writes into the payload of a live block leave all of the heap's own data intact |
| OrderedArray.OrderedArray.Insert | src/utils/ordered_array.c:13-31 | The shifting loop inserts at the first larger element; a full array drops the item |
| OrderedArray.OrderedArray.RemoveElement | src/utils/ordered_array.c:50-75 | The first equal element goes, and the result says whether there was one |
| TaskRun.RunSafe | src/task/scheduler.c:172-226 | Every state of every run from boot, whatever the interleaving of sections, satisfies the whole invariant |
| TaskRun.StepKeeps | src/task/scheduler.c:257-334 | Each section keeps the invariant and fails no internal Assert |
| TaskRun.NeverFails | src/task/process.c:303-408 | In no run does an Assert of process_wait, process_exit or the killing loop fail |
| TaskRun.NoLostWakeUp | src/sync/cond_var.c:10-42 | A blocked reader means no key, a blocked clean thread nothing dead, a thread blocked in process_wait(pid) a present child that has not exited, one in process_wait(0) children but no exited one |
| TaskRun.StatusIsPlace | src/task/scheduler.c:257-311 | A thread is READY exactly when in ready_tasks, DEAD exactly when with the clean thread, RUNNING exactly when in no queue |
| TaskRun.LinkedOnce | src/task/scheduler.c:279-295 | No thread is linked twice, in one queue or in two |
| TaskRun.OneParent | src/task/process.c:269-273 | A process is in a children table exactly when it is unreaped, the table is its parent's and the key its id; exited children are children |
| TaskRun.ReapedOnce | src/task/process.c:390-402 | In a run each process is reported by process_wait at most once, and with the code it exited with |
| TaskRun.KeepExitStep | src/task/process.c:410-507 | process_exit keeps the invariant and panics exactly for init, with threads of its own inside process_wait, or with another thread that records no queue |
| TaskEffects.ExitLeavesBehind | src/task/process.c:430-503 | Behind an exit the children belong to init, exited ones also to its exited table, the process is in its parent's exited table with its code, all other entries are as before, and nobody sleeps on it or on its parent's any-child queue |
| TaskRun.IdleLast | src/task/scheduler.c:174-207 | The idle thread is chosen exactly when the ready queue was empty, and is never left in a queue |
| TaskKeys.PressesConserved | src/driver/kerboard.c:25-47 | In every run the presses accepted are, in order, those handed to readers and those still in the buffer; at most 1024 events wait |
| TaskSteps.KeyOrder | src/driver/kerboard.c:59-87 | The new event is the last one, or dropped by a full buffer; the readers woken come before all ready threads, the last to block first |
| TaskFair.BoundedWaiting | src/task/scheduler.c:195-218 | Without insertions at the head, a thread at place k of the ready queue runs within k + 1 switches, unless its process kills it |
| TaskLink.KeepSwitch | src/task/scheduler.c:172-226 | A context switch keeps the links, also out of a thread that has just died or was woken before it yielded |
| TaskExit.KeepKillOthers | src/task/process.c:512-549 | Killing the other threads keeps the invariant and stops exactly at a thread without a queue |
| TaskExitTail.KeepExitTail | src/task/process.c:430-503 | Reparenting, marking, waking and dying together keep the invariant |
| TaskCalls.KeepWaitStep | src/task/process.c:322-408 | Every turn of process_wait keeps the invariant, whatever it finds |
| TaskCalls.KeepReapStep | src/task/process.c:341-398 | A collected child was unreported, leaves both tables, and its exit code is what is reported |
| TaskCalls.KeepForkStep | src/task/process.c:83-102 | Fork under a fresh id keeps the invariant |
| TaskTree.KeepReparent | src/task/process.c:435-456 | Moving the children to init keeps the process tree |
| TaskCrew.KeepReapTurn | src/task/process.c:393-400 | A reaped child is in one thread's hands only, and the waiter counter stays at least the number of waiters |
| TaskLedger.StepSettles | src/task/process.c:512-549 | Each section raises the excess of a waiter counter by exactly the waiters it kills, and loses exactly the children whose reapers it kills |
| TaskLedger.RunSettles | src/task/process.c:362-408 | After any run from boot each waiter counter is the number of waiters plus the number killed so far in process_wait; a process is lost exactly if its reaper has been killed |
| TaskLedger.CountsExactIff | src/task/process.c:362-365 | In a run the waiter counter of a process is its number of waiters exactly when none has been killed inside process_wait |
| TaskLedger.NothingLostIff | src/task/process.c:403-405 | In a run a reaped process that still exists is listed for destruction or in a live thread's hands exactly when no reaper of it has been killed |
| TaskLedger.LostStays | src/task/process.c:294-301 | A lost process is never destroyed |
| TaskLedger.LeakedCounterPanics | src/task/process.c:421-423 | Once a waiter of p has been killed inside process_wait, p never exits: its process_exit panics |
| TaskWitness.KilledWaiterExample | src/task/process.c:512-549 | A run from boot whose last exec kills a woken waiter: the counter stays 1 with no waiter, and process_exit panics |
| TaskWitness.KilledReaperExample | src/task/process.c:393-408 | A run from boot whose last exec kills a thread between reaping and add_dead_process: the child is lost |
| TaskCode.Kernel.DoContextSwitch | src/task/scheduler.c:172-226 | The in-place switch computes the specified one, with the idle thread passing through the queue |
| TaskCode.Kernel.Schedule | src/task/scheduler.c:257-277 | A thread becomes ready at the tail or the head of the queue |
| TaskCode.Kernel.CleanThreadTurn | src/task/scheduler.c:124-141 | The clean thread blocks exactly when both dead lists are empty and otherwise takes over both |
| TaskCode.Kernel.AddDeadTask | src/task/scheduler.c:297-304 | A thread joins dead_tasks and the clean thread is notified |
| TaskCode.Kernel.AddDeadProcess | src/task/scheduler.c:306-311 | A reaped process joins dead_processes and the clean thread is notified |
| TaskCode.Kernel.CondVarNotify | src/sync/cond_var.c:32-42 | The first waiter goes to the end of the ready queue, the others keep their order |
| TaskCode.Kernel.KeyboardInterrupt | src/driver/kerboard.c:59-87 | The key is queued unless the buffer is full, and all readers go to the head of the ready queue, last first |
| TaskCode.Kernel.ReadKeyTurn | src/driver/kerboard.c:90-157 | The result is the character of the oldest press; it and all events before it leave the buffer. Without a press the buffer is emptied and the thread blocks |
| TaskCode.Kernel.PollKeyTurn | src/driver/kerboard.c:118-127 | The oldest event, pressed or released, leaves the buffer; nothing exactly when it is empty |
| TaskCode.Kernel.WakeQueue | src/task/process.c:458-462 | A wait queue is emptied to the end of the ready queue, in its order |
| TaskCode.Kernel.ProcessFork | src/task/process.c:83-102 | Child structure, table entry and thread appear as specified |
| TaskCode.Kernel.ClearOtherThreads | src/task/process.c:512-549 | The loop over the thread table computes the specified killing in the order it visits |
| TaskCode.Kernel.MoveGone | src/task/process.c:445-456 | Both reparenting loops together compute the specified tables, in whatever order the entries come |
| TaskCode.Kernel.ProcessWaitTurn | src/task/process.c:322-408 | A turn gives up exactly when there is no such child, collects exactly when a child it asks for has exited and then reports the code of that child once, and otherwise puts the thread to sleep in front of the right queue |
| TaskCode.Kernel.ProcessExit | src/task/process.c:410-507 | The whole exit computes the specified one and panics exactly in the listed cases |
| KeyQueue.Ring.Enqueue | src/driver/kerboard.c:25-34 | The ring appends to the queue it stands for, or refuses when 1024 keys are queued |
| KeyQueue.Ring.Dequeue | src/driver/kerboard.c:36-45 | The oldest key leaves |
| FsWrite.Mkfs | user/fs/mkfs.c:18-71 | Whatever the disk held, the image afterwards holds no file and a valid root directory |
| FsWrite.FindFreeBlocks | user/fs/fs_inject.c:8-29 | The first clear bits are found in order and set, or too few exist |
| FsWrite.GetFreeInodeNum | user/fs/fs_inject.c:31-41 | The least clear bit is set, or all are set |
| FsWrite.AddDirent | user/fs/fs_inject.c:53-86 | The first free directory slot takes the entry; a full directory stays as it is |
| FsWrite.InjectFile | user/fs/fs_inject.c:88-166 | A file of more than 12 blocks is refused without a write; any other is added and no earlier file changes |
| FsRun.BuildImage | user/fs/write_disk_image.c:58-63 | From mkfs, any sequence of injections leaves exactly the files that fit, packed in order |
| FsRun.LayoutHas | user/fs/fs_inject.c:97-103 | Every file of at most twelve blocks is in the image, with its name and bytes |
| FsRun.DisjointBlocks | user/fs/fs_inject.c:120-140 | Distinct files own disjoint blocks, each marked in the data bitmap |
| FsRead.FindFileInDir | src/fs/ext2_fs.c:28-51 | The lookup answers with the entry of that name, or with nothing exactly when there is none |
| FsRead.StatFile | src/fs/ext2_fs.c:53-62 | The size of whatever bears the name; -1 exactly when nothing does |
| FsRead.ReadData | src/fs/ext2_fs.c:89-129 | The bytes from start on are delivered up to the length clipped in 32 bits; the rest of the buffer is untouched |
| FsRun.ReadBack | src/fs/ext2_fs.c:99-101 | A read delivers exactly its slice of the injected bytes unless the 32-bit sum wraps inside a file whose last block is partial |
| FsRun.WrapExample | src/fs/ext2_fs.c:101 | The failing input: start 1, length 2^32 - 1 on a two-byte file delivers 4095 bytes instead of one |
| Disk.ReadHardDisk | src/driver/hard_disk.c:39-58 | The buffer equals the disk bytes of any unaligned range |
| Disk.ReadBlock | src/driver/hard_disk.c:29-36 | Eight sectors make the block |
| HashTable.Table.constructor | src/utils/hash_table.c:22-29 | The new table is the empty map |
| HashTable.Table.Get | src/utils/hash_table.c:46-54 | The value the map has for the key |
| HashTable.Table.Put | src/utils/hash_table.c:56-79 | The map gains or changes the key, the old value is returned, and at most three quarters of the buckets' number are nodes |
| HashTable.Table.Expand | src/utils/hash_table.c:82-108 | Moving every node to twice the buckets preserves the map and restores the load bound |
| HashTable.Table.Remove | src/utils/hash_table.c:110-125 | The map loses the key and its value is returned |
| HashTable.Table.GetFirst | src/utils/hash_table.c:145-158 | Some entry of the map, or nothing exactly when it is empty |
| LinkedList.List.Append | src/utils/linked_list.c:19-33 | The node joins at the end and all links stay consistent both ways |
| LinkedList.List.Insert | src/utils/linked_list.c:36-64 | The node joins behind the given one, or at the head |
| LinkedList.List.Remove | src/utils/linked_list.c:66-90 | The node leaves and its own links are cleared |
| LinkedList.List.MoveFrom | src/utils/linked_list.c:92-98 | The list takes over all nodes of another, which becomes empty |
| Bitmap.Bits32.SetAt | src/utils/bit_map.c:50-57 | The set gains the index if it is in range |
| Bitmap.Bits32.ClearAt | src/utils/bit_map.c:59-66 | The set loses the index |
| Bitmap.Bits32.Test | src/utils/bit_map.c:68-76 | Membership |
| Bitmap.Bits32.FindFirstFree | src/utils/bit_map.c:78-97 | The word-wise search finds the least free index among those it looks at |
| Bitmap.Bits32.AllocFirstFree | src/utils/bit_map.c:99-106 | The least free index searched joins the set, and only it |
| Bitmap.FailsOnlyWhenFull | src/utils/bit_map.c:90-96 | "Fails only when full" holds exactly when the number of bits is no multiple of 32 |
| Bitmap.KernelPools | src/task/process.c:22-24 | The last 32 process ids, thread ids and user stacks can never be handed out; every kernel stack slot can |
| Bitmap.StacksApart | src/include/task/thread.h:11-16 | Kernel stacks of different slots are disjoint, inside their area, and no guard page overlaps one |
| Bitmap.StackPages | src/task/thread.c:43-47 | A stack is its two pages, byte for byte |
| Bitmap.PagesCover | src/task/thread.c:43-61 | The pages of a set of slots cover exactly their stacks, and no guard page of any slot |
| Bitmap.Stacks.Alloc | src/task/thread.c:35-50 | A free slot is taken; afterwards exactly the stacks of the taken slots are mapped and no guard page is; fails exactly when all slots are taken |
| Bitmap.Stacks.Release | src/task/thread.c:52-64 | The slot is given back; afterwards exactly the stacks of the slots still taken are mapped |
| UserStack.PrepareUserStack | src/task/thread.c:162-211 | A panic exactly when the aligned top less the strings, the pointers and three words falls below the guard end; otherwise the pointer is that address, argc and argv read back to the original strings, packed below the top, and a NULL, and only bytes between pointer and top are written |
| UserStack.StringUnique | src/common/stdlib.c:17-26 | At most one string can be read at an address |

## Findings

Properties that the code does not have, each with its exact condition.

- **Aligned allocation behind a used tail** (`src/mem/kheap.c:143-147`). The appended block is marked in
  use, so a further expansion appends another block instead of growing it. `HeapMalloc.AlignOnUsedTail`
  gives the sizes that succeed; `HeapWitness.AlignPanicsExample` reaches the panic from boot with two calls.
- **A full hole index** (`src/mem/kheap.c:231`, `src/utils/ordered_array.c:13-16`). The result of the
  insertion is ignored, so a free that merges with nothing loses its hole. Condition:
  `HeapFree.KfreeKeepsIff`; input: `HeapWitness.FullIndexLosesHole`.
- **Kernel-mode stores** (`src/boot/loader.asm:340-343`). CR0.WP is never set, so the kernel writes through
  read-only user pages without a copy-on-write fault. Condition: `PageFacts.KernelStoreIsPrivateIff`;
  input: `PageFacts.KernelStoreLeaks`.
- **Clipping a read** (`src/fs/ext2_fs.c:101`). The 32-bit sum of start and length can wrap; bytes behind
  the end of the file are then delivered. Condition: `FsRun.ReadBack`; input: `FsRun.WrapExample`.
- **The last bitmap word** (`src/utils/bit_map.c:80-96`). It is not searched when the number of bits is a
  multiple of 32. Condition: `Bitmap.FailsOnlyWhenFull`; the pools concerned: `Bitmap.KernelPools`.
- **Panics of process_exit** (`src/task/process.c:421-427`). Exactly those of `TaskRun.ExitPanics`, by
  `TaskRun.KeepExitStep`.
- **Killed waiters and killed reapers** (`src/task/process.c:512-549`). An exec that kills a woken waiter
  leaves `waiting_threads_count` too high for good, and a later exit panics; a thread killed between
  reaping and `add_dead_process` takes its child along, which is never destroyed. Conditions:
  `TaskLedger.CountsExactIff` and `TaskLedger.NothingLostIff`; inputs: `TaskWitness.KilledWaiterExample`
  and `TaskWitness.KilledReaperExample`.

## Left out

- The TLB (taken as coherent), the temporary COPIED_* mappings and the locks of `src/mem/page.c`: one page operation is one step.
- PDE 0, which the clone copies by reference: the user range is directory entries 1 to 767.
- Stack guard panics and the null-page panic of the page-fault handler.
- 32-bit wrap-around in heap sums: request sizes and addresses are taken small enough that no sum wraps.
- HeapRun.Step: stops before the hole index can overflow; `HeapFree.KfreeKeepsIff` covers what happens there.
- Frees of pointers that are not live, except NULL.
- Preemption inside process_exit, process_fork and exec: each is one step. In particular `process_exit` reads `parent` before it disables interrupts (`src/task/process.c:413`); a parent that exited in between would leave a stale pointer, which the model cannot see.
- Mutual exclusion of spin locks and yield locks is assumed; liveness under preemption is not claimed beyond `TaskFair.BoundedWaiting`.
- Which free id or address an allocation picks for a new thread or process: any fresh one. Exhausted id pools and memory are not modelled there.
- The loading part of exec (ELF, trap frame); of exec only the killing of the other threads is a step.
- Composition of the containers: `TaskCode.Kernel` keeps process tables, queues and keys as maps and sequences, and the buckets of `HashTable.Table` are sequences; `HashTable`, `LinkedList` and `KeyQueue` prove separately that the C structures behave as such maps and sequences.
- `hash_table_destroy` and the freeing of table and list nodes.
- Decoding of key scancodes: a decoded event is an input.
- Files of size 0, names over 27 bytes, duplicate names, a full root directory, indirect blocks: preconditions of `FsWrite.InjectFile`.
- Argument lists so long that 32-bit sums wrap below the stack top.
- `src/fs/simple_fs.c`, `src/fs/vfs.c`, video, monitor, boot, interrupt set-up, ELF loading and user programs.
