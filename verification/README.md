# xv6 kernel and user cores, proved in Dafny

Models of the parts of xv6 (the `xv6-labs-2023` tree) whose correctness rests on a protocol, on a
global invariant or on a rollback path, with proofs of what they promise. Each module follows one
source file or one protocol:

- `LogProtocol`, `LogInvariant`, `LogSafety`, `Log`: the redo log of `kernel/log.c` over the buffer
  cache. The protocol is a state machine over disk, cache, running operations and the thread that
  commits or recovers, with a crash possible between any two disk writes. The class in `Log` has the
  loops of log.c and records which protocol actions its calls take, so that what is proved of all
  runs holds of every disk the loops pass through.
- `BufferCache`: the buffer list of `kernel/bio.c`, linked by indices in one array.
- `Sv39`, `UserMemory`, `ProcMemory`, `ExecMemory`: `kernel/kalloc.c`, `kernel/vm.c`, the memory side
  of `kernel/proc.c` and `kernel/exec.c`. Page tables, user pages and the free list live in the frames
  of one memory, and a ghost value names the frames of each table by their place in the tree.
  `ProcMemory.Owners` says that each frame is free, the kernel's, or held by one process. Every
  operation keeps it with kalloc failing anywhere, so it holds over every run of them.
- `FrameBytes`, `UserCopy`: copyout, copyin and copyinstr byte by byte, over the same memory.
- `ProcessView`: what the process functions promise, as a user program finds it: which bytes it can
  read, write and execute, and what it loads from them.
- `InodeData`: bitmap, block map and byte loops of `kernel/fs.c`, with file contents as byte sequences
  and a ghost owner for each block.
- `ProcLife`, `SleepLock`: fork, exit, wait, sleep, wakeup and kill of `kernel/proc.c`, and
  `kernel/sleeplock.c`, as interleaved steps. Taking and releasing wait_lock, a process's own lock and
  a new child's lock are steps, and scans of the process table go on slot by slot; what is done to one
  slot under its lock is one step.
- `Umalloc`, `GrepMatch`, `ShellParser`, `ShellPrecedence`: `user/umalloc.c`, the matcher of
  `user/grep.c` and the parser of `user/sh.c`.
- `VirtioRing`: the descriptor ring of `kernel/virtio_disk.c` with the device as two more steps, which
  move data between a disk of sectors and the buffers by what the ring says.

`dafny verify dfyconfig.toml` checks everything.

## What the proofs turned up

- log_write panics before it looks for a block to absorb. An operation that keeps to its reservation
  in blocks can therefore meet the panic with a log region of any size, by logging a listed block
  again when the log is full (`LogSafety.ReservationDoesNotSuffice`). If operations keep to
  MAXOPBLOCKS calls instead, the panic is out of reach exactly when the region has more than LOGSIZE
  blocks (`LogSafety.FewCallsNeverPanicIffRoomy`), and mkfs makes it LOGSIZE blocks, header included.
- The comment on uvmdealloc allows oldsz to exceed the process size, but uvmunmap panics on a page that
  is not mapped. `ProcMemory.SpaceDeallocPanicsIff` says for every process and any sizes exactly when
  uvmdealloc panics, `UserMemory.DeallocPanicsIff` says it for tables in general, and
  `UserMemory.DeallocPastSizePanics` gives an input. Above the user pages it can also free a page that
  the process still points to, without a panic (`ProcMemory.DeallocFreesHeldIff`,
  `ProcMemory.UsyscallPageFreed`). growproc never passes such sizes.
- growproc has no bound check. That user pages never reach the fixed pages rests on the size of RAM
  (`ProcMemory.PagesAndFree`, from PHYSTOP). A negative growth larger than the size wraps around to a
  huge size, and uvmdealloc then does nothing while growproc reports success.
- uvmalloc reports a success that ends at size 0 as 0, so exec refuses a program of good headers exactly
  when its first loadable segment ends at address 0 (`ExecMemory.EmptySegmentRefusedIff`).
- exec lets exactly MAXARG arguments through its check, and when they fit on the stack page by
  themselves, the 0 that ends the array of pointers is written past ustack (`ExecMemory.PushArgs`,
  `ExecMemory.ShortStringsOverrun`, and `ExecMemory.Exec` for the whole call). sys_exec hands over at
  most MAXARG - 1 (sysfile.c:446-456).
- From 2^31 - 31 bytes on malloc asks sbrk, whose argument is an int, for a negative number of bytes
  (`Umalloc.SbrkArgIff`, `Umalloc.Allocator.Malloc`). growproc reports success for a decrement past zero
  and does nothing (`ProcMemory.ProcTable.Growproc`), so malloc goes on as if it had been given memory.
- When the copy from user memory fails inside writei, bytes of the file can have changed that writei
  does not report and that no log_write covers (`InodeData.FileSystem.Writei`).

## Model

| member | source | states |
|---|---|---|
| LogSafety.RecoveredIsCommittedGroups | xv6-labs-2023/kernel/log.c:67-235 | In every state of every run, between any two disk writes as well, recovery would yield the mounted file system plus exactly the groups committed so far; groups hold only writes of their own operations, share none, and no running operation is in one |
| LogSafety.CommitIsAtomic | xv6-labs-2023/kernel/log.c:67-203 | From the start of a commit on, through any number of crashes at any write and any recoveries, the committed file system is the one before the transaction or all of the one after it, and which is decided by whether the header write happened; a completed commit or recovery leaves it in the home blocks |
| LogSafety.RecoveryRestores | xv6-labs-2023/kernel/log.c:116-123 | Recovery from a crash in any state, interrupted any number of times, ends with the home blocks that were committed at the crash |
| LogSafety.OnlySealCommits | xv6-labs-2023/kernel/log.c:192-203 | Only the header write adds to the committed groups, never while an operation is running, and then it adds the whole open transaction |
| LogSafety.Reservation | xv6-labs-2023/kernel/log.c:125-144 | Whatever operations do, the log stays within LOGSIZE blocks and within its region; while each keeps to its reservation, logged blocks plus unused budgets stay within LOGSIZE |
| LogSafety.ReservationDoesNotSuffice | xv6-labs-2023/kernel/log.c:214-235 | With the reservation counted in new blocks, as begin_op counts it, some run panics in log_write whatever the size of the log region: the check comes before absorption |
| LogSafety.FewCallsNeverPanicIffRoomy | xv6-labs-2023/kernel/log.c:214-215 | If every operation makes at most MAXOPBLOCKS calls of log_write, absorbed ones included, no run meets the first panic if and only if the log region has more than LOGSIZE blocks; mkfs.c:25 gives it LOGSIZE |
| LogSafety.NewBlocksNeverPanicIffRoomy | xv6-labs-2023/kernel/log.c:214-235 | The same condition decides whether a call that adds a block within its reservation can panic, so in a larger log only a block that is already listed can |
| LogSafety.SleeperHasWaker | xv6-labs-2023/kernel/log.c:125-175 | A process asleep in begin_op always has an operation outstanding or a commit running |
| LogSafety.RecyclingIsInvisible | xv6-labs-2023/kernel/bio.c:58-89 | Filling, recycling and releasing buffers never changes what bread returns; a buffer that differs from disk is pinned or held by a running operation |
| LogSafety.RunInv | xv6-labs-2023/kernel/log.c:67-235 | The protocol invariant holds in every state of every run |
| LogInvariant.NextInv | xv6-labs-2023/kernel/log.c:67-235 | Every action of any process, of the committing thread, of recovery and of a crash keeps the protocol invariant |
| LogInvariant.RedoUnchanged | xv6-labs-2023/kernel/log.c:67-83 | A write to a free log slot or to a listed home block does not change what recovery would yield |
| LogInvariant.SealMeaning | xv6-labs-2023/kernel/log.c:99-114 | Writing the header of a fully copied log changes what recovery would yield from the old file system to the whole new one |
| LogInvariant.EraseMeaning | xv6-labs-2023/kernel/log.c:200-201 | Clearing the header of a fully installed log changes nothing that recovery would yield |
| Log.LogSystem.Commit | xv6-labs-2023/kernel/log.c:192-203 | Every disk that commit passes through stands for the file system without the transaction up to the header write and with all of it afterwards; at the end the home blocks hold it |
| Log.LogSystem.WriteLog | xv6-labs-2023/kernel/log.c:177-191 | One protocol action per logged block, each copying the cached block to its slot |
| Log.LogSystem.WriteHead | xv6-labs-2023/kernel/log.c:99-114 | The header block on disk lists exactly the entries of the log in memory |
| Log.LogSystem.InstallTrans | xv6-labs-2023/kernel/log.c:67-83 | One protocol action per entry; the pins of installed blocks go, except in recovery |
| Log.LogSystem.ReadLogHead | xv6-labs-2023/kernel/log.c:85-97 | The log in memory becomes the one the header lists |
| Log.LogSystem.RecoverFromLog | xv6-labs-2023/kernel/log.c:116-123 | Ends with an empty log and with home blocks equal to the file system the disk stood for |
| Log.LogSystem.TryBeginOp | xv6-labs-2023/kernel/log.c:125-142 | One turn of begin_op starts an operation exactly when no commit runs and its reservation fits, and otherwise sleeps |
| Log.LogSystem.EndOp | xv6-labs-2023/kernel/log.c:144-175 | The last end_op of a transaction commits it and wakes every sleeper; an earlier one only leaves and wakes them |
| Log.LogSystem.LogWriteBuf | xv6-labs-2023/kernel/log.c:205-235 | Absorbs a listed block or appends and pins a new one; panics when the log is full, even for a block it would absorb, and otherwise exactly when no operation is running |
| BufferCache.Cache.constructor | xv6-labs-2023/kernel/bio.c:36-53 | The list is one cycle through all buffers and the head, and no buffer stands for a block |
| BufferCache.Cache.Bget | xv6-labs-2023/kernel/bio.c:58-89 | Returns the one buffer of the block, or recycles the least recently used unreferenced one; either way exactly that buffer has one more reference than before and no other changes; panics exactly when all are referenced; no logical value changes |
| BufferCache.Cache.FindUnused | xv6-labs-2023/kernel/bio.c:75-87 | Finds the least recently used unreferenced buffer if there is one |
| BufferCache.Cache.Bread | xv6-labs-2023/kernel/bio.c:91-103 | The buffer is valid and holds the logical value of the block, which it does not change; it has one reference more, and no other buffer changes |
| BufferCache.Cache.Bwrite | xv6-labs-2023/kernel/bio.c:105-112 | The disk takes the buffer's data at its block alone, and no logical value changes |
| BufferCache.Cache.Brelse | xv6-labs-2023/kernel/bio.c:114-137 | Drops one reference; the last one moves the buffer to the front of a list that is still one cycle through all buffers; no logical value changes, and the cache stays sound exactly when that buffer agrees with the disk |
| BufferCache.Cache.Bpin | xv6-labs-2023/kernel/bio.c:139-144 | One more reference and nothing else |
| BufferCache.Cache.Bunpin | xv6-labs-2023/kernel/bio.c:146-151 | Undoes a pin; no logical value changes, and the cache stays sound unless it was the last reference to a buffer that differs from the disk |
| BufferCache.UnlinkKeeps | xv6-labs-2023/kernel/bio.c:128-129 | Taking a buffer out leaves one cycle through the others, and no other field changed |
| BufferCache.LinkFrontKeeps | xv6-labs-2023/kernel/bio.c:130-133 | Putting a buffer behind the head gives one cycle with it in front |
| BufferCache.RecycleSound | xv6-labs-2023/kernel/bio.c:78-82 | Recycling an unreferenced buffer keeps one buffer to a block and every logical value |
| Sv39.WordsArePtes | xv6-labs-2023/kernel/riscv.h:341-353 | Words correspond one to one to page-table entries, with PTE2PA and PTE_FLAGS selecting their parts |
| Sv39.TranslateIsEntry | xv6-labs-2023/kernel/vm.c:73-103 | In a well-formed tree the hardware's three-level walk, which goes by memory alone, yields the bottom entry that the tree gives a page, or faults |
| Sv39.PhysMem.FreeRange | xv6-labs-2023/kernel/kalloc.c:33-40 | Each whole frame between the two addresses joins the free list once; panics exactly when one of them is not kalloc's to give |
| Sv39.PhysMem.Kalloc | xv6-labs-2023/kernel/kalloc.c:65-82 | Takes the first free frame and fills it with junk, or returns 0 exactly when there is none; no other frame is written |
| Sv39.PhysMem.Kfree | xv6-labs-2023/kernel/kalloc.c:42-63 | Panics exactly on an address that is not page-aligned or not in the memory from end to PHYSTOP; otherwise the frame becomes the first free one, filled with junk behind its link, and no other frame is written |
| Sv39.PhysMem.Walk | xv6-labs-2023/kernel/vm.c:85-103 | Finds the bottom page of an address; translations of all pages stay; pages it makes come from the free list, and it fails only when that runs out |
| Sv39.PhysMem.MapPages | xv6-labs-2023/kernel/vm.c:138-172 | Success maps exactly the requested pages to consecutive frames; otherwise exactly a prefix is mapped. It panics exactly when asked for no page or when memory lasts up to a page that is mapped already or past MAXVA, and fails only for lack of memory before that; two free frames a page always suffice; every other translation stays |
| Sv39.PhysMem.Unmap | xv6-labs-2023/kernel/vm.c:174-199 | Panics exactly when a page of the range is missing or, with do_free, has a frame that kfree refuses; exactly the pages before the first such one lose their translations, and with do_free exactly their frames become free; only the table and those frames are written; a range that wraps around 64 bits ends where the code ends it |
| Sv39.AddChild | xv6-labs-2023/kernel/vm.c:96-99 | Linking in a zeroed page keeps the tree well formed and every translation |
| Sv39.SetLeaf | xv6-labs-2023/kernel/vm.c:165 | Writing a bottom entry changes the translation of its page and of no other |
| Sv39.Framing | xv6-labs-2023/kernel/vm.c:85-103 | A table depends on its own frames alone, although tables, data and free list share one memory |
| UserMemory.UvmCreate | xv6-labs-2023/kernel/vm.c:201-212 | An empty table in one frame from the free list, or nothing |
| UserMemory.UvmAlloc | xv6-labs-2023/kernel/vm.c:230-256 | All pages up to newsz are mapped, zeroed and with the given rights in frames that were free, or no translation changes and every frame is a table page or free again; never fails with three free frames a page; a success that ends at size 0 also returns 0 |
| UserMemory.UvmDealloc | xv6-labs-2023/kernel/vm.c:258-274 | Exactly the pages past newsz, as many as int npages makes of them, are unmapped and freed; or, exactly when one of them is missing or not kalloc's to give, a panic once those before it are gone |
| UserMemory.ThroughIntIs | xv6-labs-2023/kernel/vm.c:269-270 | What int npages makes of a page count keeps its low 32 bits and is in the range of a sign-extended int |
| UserMemory.DeallocPanicsIff | xv6-labs-2023/kernel/vm.c:258-274 | With the pages before n there to be freed and none up to MAXVA, uvmdealloc panics if and only if it has a page unmapped and reaches past page n, whatever the sizes; the same with none up to a lower page top when it starts below n or ends by top |
| UserMemory.DeallocPastSizePanics | xv6-labs-2023/kernel/vm.c:258-262 | An input that the comment allows and that panics: an empty table, oldsz 4096, newsz 0 |
| ProcMemory.SpaceDeallocPanicsIff | xv6-labs-2023/kernel/vm.c:258-274 | uvmdealloc can be called on a process with any sizes, and panics if and only if it has a page to free and either reaches the trampoline, whose frame kfree refuses, or comes upon the gap between the user pages and the usyscall page |
| ProcMemory.DeallocFreesHeldIff | xv6-labs-2023/kernel/vm.c:258-274 | uvmdealloc frees the page that p->usyscall points to if and only if it reaches it from there on or without a gap below, and the trapframe likewise |
| ProcMemory.UsyscallPageFreed | xv6-labs-2023/kernel/vm.c:258-274 | One such input for every process: from one page past USYSCALL down to USYSCALL nothing panics and exactly the usyscall page is freed |
| UserMemory.Freewalk | xv6-labs-2023/kernel/vm.c:276-294 | Frees exactly the pages of the subtree; without leaves its panic is unreachable |
| UserMemory.UvmFree | xv6-labs-2023/kernel/vm.c:296-304 | User pages and table pages become free and nothing else does |
| UserMemory.UvmCopy | xv6-labs-2023/kernel/vm.c:306-340 | On success the child has the parent's rights and bytes page by page in frames that were free; on failure its translations are as before and every copied frame is free; the parent's translations and bytes stay in both cases |
| UserMemory.UvmClear | xv6-labs-2023/kernel/vm.c:342-353 | One page loses the user bit, nothing else changes |
| UserMemory.WalkAddr | xv6-labs-2023/kernel/vm.c:105-126 | The frame of a page that is valid and accessible to the user, otherwise 0 |
| UserMemory.GrewUndone | xv6-labs-2023/kernel/vm.c:263-274 | Mapping fresh pages and unmapping them again restores every translation and loses no frame |
| UserMemory.MapFresh | xv6-labs-2023/kernel/vm.c:243-253 | kalloc, fill, mappages and the kfree of a failed mappages: one fresh page or no change of translations, with no frame lost |
| ProcMemory.ProcPagetable | xv6-labs-2023/kernel/proc.c:184-224 | A space with the three fixed pages and no user page, or every frame free again after each of its failing paths; who can read, write and execute the fixed pages is in ProcessView.FixedPagesSeen |
| ProcMemory.ProcFreepagetable | xv6-labs-2023/kernel/proc.c:226-235 | Table pages and user pages become free, the frames under the fixed pages do not; its panics are unreachable |
| ProcMemory.ProcTable.constructor | xv6-labs-2023/kernel/proc.c:46-59 | With every slot empty each frame is free or the kernel's |
| ProcMemory.ProcTable.Allocproc | xv6-labs-2023/kernel/proc.c:105-156 | A process with its own space and its pid on its usyscall page, which ProcessView.FixedPagesSeen shows the user can read; or nothing changed and every frame free again; fails only when the table is full or fewer than nine frames are free |
| ProcMemory.ProcTable.Freeproc | xv6-labs-2023/kernel/proc.c:158-182 | Everything the process holds becomes free, whichever of its parts are missing, and the slot is empty |
| ProcMemory.ProcTable.Growproc | xv6-labs-2023/kernel/proc.c:276-294 | Pages below both sizes keep frames, rights and bytes; added pages are zeroed and writable; given-up frames become free; failure changes no translation; a decrement past zero wraps around and does nothing |
| ProcMemory.ProcTable.Fork | xv6-labs-2023/kernel/proc.c:296-345 | The child has the parent's size, rights and bytes in frames of its own, its registers with a0 cleared, and its own pid; or nothing changed but the next pid; every other process keeps what it has; fails only when the table is full or memory is short |
| ProcMemory.SlotStep | xv6-labs-2023/kernel/proc.c:109-345 | If one process exchanges frames with the free list and writes nothing else, every frame again has exactly one owner and all other processes are untouched |
| ProcMemory.GrewSpace | xv6-labs-2023/kernel/vm.c:230-256 | Growing a space keeps its layout and conserves frames |
| ProcMemory.CutSpace | xv6-labs-2023/kernel/vm.c:258-274 | Shrinking a space keeps its layout, the pages below the cut, and conserves frames |
| ProcMemory.PagesAndFree | xv6-labs-2023/kernel/memlayout.h:52-53 | User pages and free frames together are at most the frames of RAM, so memory runs out before a process reaches its fixed pages |
| ExecMemory.Exec | xv6-labs-2023/kernel/exec.c:22-143 | Succeeds only for a good file whose segments load and arguments that fit, and fails only for want of one of these or of memory; exactly MAXARG arguments that fit by themselves overrun ustack. Success: the image the program headers describe, the size, the guard page, the arguments on the stack; in the trapframe epc is the entry address, sp and a1 point at the arguments, and every other word is as before; the old image is freed, frames conserved. Failure: all processes unchanged and every frame free again |
| ExecMemory.LoadAll | xv6-labs-2023/kernel/exec.c:52-71 | Every page of the image has the bytes of the last segment that covers it, zeros elsewhere, and the rights of the segment that reached it first (spelled out in ProcessView.ProgramRightsSeen and ProcessView.ProgramBytesSeen); fails only for a bad header or segment, or for want of memory |
| ExecMemory.LoadOne | xv6-labs-2023/kernel/exec.c:58-69 | A segment passes exactly these checks, grows the image to its end or leaves a larger size, and adds its bytes and rights (spelled out in ProcessView.ProgramRightsSeen) |
| ExecMemory.LoadSeg | xv6-labs-2023/kernel/exec.c:145-168 | Adds exactly the bytes of the segment and succeeds exactly when the file has them; the panic "address should exist" is unreachable |
| ExecMemory.EmptySegmentRefusedIff | xv6-labs-2023/kernel/exec.c:52-67 | With good headers a program is refused if and only if its first loadable segment, wherever it stands, ends at address 0, since uvmalloc reports that success as 0 |
| ExecMemory.PushArgs | xv6-labs-2023/kernel/exec.c:87-110 | Succeeds exactly when there are fewer than MAXARG strings and they fit on the page with the array of pointers, each rounded up to 16 bytes; writes past ustack exactly when there are MAXARG strings that fit by themselves; fails otherwise. On success sp is aligned, every string reads back at its pointer, and the array ends in 0; no page but the stack page changes |
| ExecMemory.ShortStringsOverrun | xv6-labs-2023/kernel/exec.c:91-102 | Any MAXARG strings of at most fifteen bytes each get through the check and overrun ustack |
| ExecMemory.BuildStack | xv6-labs-2023/kernel/exec.c:77-110 | Two more pages, the lower one closed to the user, the upper one with the arguments; the program below stays; fails only for arguments that do not fit or for want of memory, and overruns ustack only for MAXARG of them |
| ExecMemory.Commit | xv6-labs-2023/kernel/exec.c:112-131 | The new image replaces the old one, whose frames become free; epc is the entry address, sp and a1 the stack pointer, and no other word of the trapframe changes |
| ProcessView.FixedPagesSeen | xv6-labs-2023/kernel/proc.c:184-224 | In every process between calls, however it came about: the user can read the page at USYSCALL and not write it, and its first four bytes are the pid; the trapframe and the trampoline are closed to the user; and the hardware finds the three pages in their frames with rights R U, R W and R X |
| ProcessView.ProgramRightsSeen | xv6-labs-2023/kernel/exec.c:12-20 | A page of the new image is open to the user for reading, for execution if and only if bit 0 of the flags of the segment that brought it is set, and for writing if and only if bit 1 is |
| ProcessView.PageIsBrought | xv6-labs-2023/kernel/exec.c:52-67 | Every page of the new image has been brought by some loadable segment |
| ProcessView.ProgramBytesSeen | xv6-labs-2023/kernel/exec.c:52-71 | The user can read every byte of the new image, and finds what the last segment that has the byte has in the file, or 0 where none has it |
| ProcessView.ImageSize | xv6-labs-2023/kernel/exec.c:65-67 | The image reaches the end of every loadable segment and no further |
| ProcessView.StackSeen | xv6-labs-2023/kernel/exec.c:78-118 | Above the program a page closed to the user, then one to read and write but not to execute; loading argc + 1 eight-byte numbers from sp on gives the addresses of the strings and a 0, and loading from each address gives its string; sp is 16-byte aligned |
| ProcessView.GrownPagesSeen | xv6-labs-2023/kernel/proc.c:276-294 | The user can read and write every byte of the pages that growproc added, not execute them, and finds 0 |
| ProcessView.CopySeen | xv6-labs-2023/kernel/proc.c:296-345 | Below its size the child of a fork reads what the parent reads, and can write where the parent can |
| ProcessView.RegistersSeen | xv6-labs-2023/kernel/proc.c:318-322 | The child of a fork has every saved register of its parent, but a0, which is 0 |
| ProcessView.BitsAndPlaces | xv6-labs-2023/kernel/riscv.h:341-363 | The bits PTE_V to PTE_U, the three nine-bit indices of a virtual page, the addresses of the fixed pages, and the free list's link as an address |
| FrameBytes.FillBytes | xv6-labs-2023/kernel/kalloc.c:54-80 | The junk that kalloc and kfree write is the same byte, 5 or 1, everywhere in the frame |
| FrameBytes.FrameHasData | xv6-labs-2023/kernel/vm.c:376 | The words of a frame and its 4096 bytes, least significant first, are two views of the same data |
| UserCopy.Copyout | xv6-labs-2023/kernel/vm.c:355-383 | Stores exactly the bytes before the first address that is not user-writable, each at its own translation and no other byte; succeeds exactly when that is all of them; no translation changes, and no frame but those under the bytes |
| UserCopy.Copyin | xv6-labs-2023/kernel/vm.c:385-408 | Returns the bytes before the first address that is not mapped for the user; succeeds exactly when that is all of them; changes nothing |
| UserCopy.Copyinstr | xv6-labs-2023/kernel/vm.c:410-451 | Succeeds exactly when the first NUL among max bytes is reached through mapped user pages, with the string up to it |
| UserCopy.CopyBack | xv6-labs-2023/kernel/vm.c:355-408 | What copyout stored is what copyin of the range returns |
| UserCopy.CopyoutTo | xv6-labs-2023/kernel/vm.c:355-383 | copyout to a process keeps the owner of every frame, and nothing of any other process changes |
| UserCopy.SpaceUserOk | xv6-labs-2023/kernel/proc.c:184-224 | In a process's layout the pages the user can write are user pages alone, and the frames the user can reach are distinct |
| InodeData.FileSystem.Balloc | xv6-labs-2023/kernel/fs.c:63-88 | A zeroed block that nobody references, now in use, or 0 exactly when all data blocks are in use; nothing else changes |
| InodeData.FileSystem.Bfree | xv6-labs-2023/kernel/fs.c:90-105 | Clears the bit of its block alone; "freeing free block" is unreachable |
| InodeData.FileSystem.Bmap | xv6-labs-2023/kernel/fs.c:379-421 | The address a block had, or a zeroed block of its own: entry bn of the inode below 12, and otherwise the four bytes, lowest first, at 4 (bn - 12) of its indirect block; every other reference and the bytes of every data block stay; 0 only when all blocks are in use |
| InodeData.FileSystem.Itrunc | xv6-labs-2023/kernel/fs.c:423-453 | Exactly the bits of the file's blocks are cleared, it is empty, and every other file keeps its contents |
| InodeData.FileSystem.Readi | xv6-labs-2023/kernel/fs.c:467-496 | The slice of the file's bytes, cut at its end; nothing for a range past the end or wrapping; -1 exactly when the destination cannot take them all; never allocates |
| InodeData.FileSystem.Writei | xv6-labs-2023/kernel/fs.c:498-539 | Returning r it has replaced exactly bytes off to off + r and grown the file if they pass its end, also when blocks run out on the way; when the copy from the source fails in a chunk, the bytes of that chunk that were copied have changed as well, though they are not reported, not logged and do not grow the file; -1 exactly for the three bad ranges, changing nothing; other files keep their contents |
| InodeData.ReadBack | xv6-labs-2023/kernel/fs.c:467-539 | From a file written at off, any slice reads back the new bytes inside the write and the old ones outside |
| InodeData.Attach | xv6-labs-2023/kernel/fs.c:389-415 | A fresh block put into an empty address is referenced there and nowhere else |
| InodeData.EntryPut | xv6-labs-2023/kernel/fs.c:408-413 | Storing one indirect entry changes that entry alone |
| InodeData.BitPut | xv6-labs-2023/kernel/fs.c:75-77 | Setting or clearing one bitmap bit changes that bit alone |
| InodeData.BitmapFormat | xv6-labs-2023/kernel/fs.c:73-77 | A block is in use when bit b % 8, counted from the lowest, of byte b / 8 of the bitmap is set |
| ProcLife.NoLostExit | xv6-labs-2023/kernel/proc.c:362-454 | Over all interleavings, whenever wait_lock is free no process asleep in wait has a ZOMBIE child |
| ProcLife.ParentsLive | xv6-labs-2023/kernel/proc.c:347-405 | Over all interleavings every parent is alive, neither ZOMBIE nor UNUSED, and every started process but the first has one |
| ProcLife.WaitIsRight | xv6-labs-2023/kernel/proc.c:418-449 | At the end of wait's scan havekids says exactly whether the caller has a child |
| ProcLife.WaitAnswers | xv6-labs-2023/kernel/proc.c:418-454 | At every step of every run: at a zombie child wait answers its pid and empties its slot, or -1 when the status cannot be copied out; at the end of the scan -1 if and only if the caller has no child or is killed; otherwise it goes to sleep, and then no child is a zombie |
| ProcLife.Lifecycle | xv6-labs-2023/kernel/proc.c:105-628 | Which state can follow which, by whose step: a slot is taken by a fork, which gives it up or starts it with 0 as its answer and the pid as its parent's; a process becomes a zombie by its own exit and has no children from then on; only its parent's wait empties it. Parents change only by fork, by reparent to the first process and by reaping. Being killed lasts and rouses a sleeper |
| ProcLife.WaitLockExcludes | xv6-labs-2023/kernel/proc.c:336-454 | At most one process executes code that wait_lock protects |
| ProcLife.NextInv | xv6-labs-2023/kernel/proc.c:298-628 | Every step of fork, exit, reparent, wait, sleep, wakeup, kill and the scheduler keeps the invariant |
| ProcLife.ReWakeSlot | xv6-labs-2023/kernel/proc.c:354-358 | One slot of the wakeup of initproc keeps what is known about any other process |
| SleepLock.AtMostOneInside | xv6-labs-2023/kernel/sleeplock.c:21-41 | At most one process is between acquiresleep and releasesleep, and then locked and pid name it |
| SleepLock.SleeperHasWaker | xv6-labs-2023/kernel/sleeplock.c:21-41 | A process asleep in acquiresleep means the lock is held or a releaser with the inner lock has yet to reach it |
| SleepLock.HoldingIsInside | xv6-labs-2023/kernel/sleeplock.c:43-52 | For a process outside the two calls, locked and its own pid mean exactly that it holds the lock |
| SleepLock.NextInv | xv6-labs-2023/kernel/sleeplock.c:21-41 | Every interleaved step, of the two calls and of sleeping on other channels with the lock or without, keeps the invariant |
| Umalloc.Allocator.Malloc | xv6-labs-2023/user/umalloc.c:63-90 | A new block of nbytes rounded up to whole units, apart from all others; morecore is called at most once and exactly when no free block is large enough; 0 exactly when that call fails; sbrk is asked for a wrong number of bytes exactly when that call is for MAXUNITS units or more |
| Umalloc.Allocator.Free | xv6-labs-2023/user/umalloc.c:24-44 | Exactly the block's units become free; the list stays one address-ordered cycle in which no two blocks touch |
| Umalloc.Allocator.FindPlace | xv6-labs-2023/user/umalloc.c:30-32 | The search ends, at the block that the freed one goes behind |
| Umalloc.Allocator.Morecore | xv6-labs-2023/user/umalloc.c:46-61 | At least 4096 new units become free, or nothing changes; the number of bytes for sbrk is wrong exactly from MAXUNITS units on |
| Umalloc.SbrkArgIff | xv6-labs-2023/user/umalloc.c:52-54 | The int that sbrk is given is the number of bytes of the new block if and only if it has fewer than 2^27 units, that is for requests below 2^31 - 31 bytes; from there on it is too small, and at first negative |
| Umalloc.Allocator.Take | xv6-labs-2023/user/umalloc.c:75-84 | The block handed out is a whole free block or the top of one, and freep stays in the list |
| Umalloc.Allocator.UserWrite | xv6-labs-2023/user/umalloc.c:84 | Whatever the owner of a block writes into it, the allocator's invariant holds |
| Umalloc.ReleaseOrdered | xv6-labs-2023/user/umalloc.c:33-42 | Coalescing keeps the list in address order with gaps between its blocks |
| Umalloc.ReleaseUnits | xv6-labs-2023/user/umalloc.c:33-42 | Coalescing neither loses nor invents a unit |
| Umalloc.RingRelease | xv6-labs-2023/user/umalloc.c:33-42 | The writes of free to ptr and size produce the header ring of the new list |
| GrepMatch.Match | xv6-labs-2023/user/grep.c:72-82 | True exactly when some suffix of the text, or the whole text after a leading ^, has a prefix in the language of the pattern |
| GrepMatch.MatchHere | xv6-labs-2023/user/grep.c:84-96 | True exactly when a prefix of the text is in the language of the pattern; the recursion ends |
| GrepMatch.MatchStar | xv6-labs-2023/user/grep.c:98-106 | True exactly when some number of fitting characters is followed by a match of the rest |
| VirtioRing.Disk.Submit | xv6-labs-2023/kernel/virtio_disk.c:215-281 | A chain of three descriptors for the request, which the device will serve as VirtioRing.ServeMoves says, offered in the ring entry that avail->idx names, with avail->idx one further in 16 bits; or fewer than three descriptors are free and the free set is as before |
| VirtioRing.Disk.Finish | xv6-labs-2023/kernel/virtio_disk.c:184-291 | Frees exactly the chain of the request, its descriptors cleared, and forgets the buffer |
| VirtioRing.Disk.FreeChain | xv6-labs-2023/kernel/virtio_disk.c:184-197 | Exactly the descriptors of the chain become free; the panic is unreachable |
| VirtioRing.Disk.Alloc3 | xv6-labs-2023/kernel/virtio_disk.c:199-213 | Three distinct free descriptors, or the free set restored and fewer than three free |
| VirtioRing.Disk.Intr | xv6-labs-2023/kernel/virtio_disk.c:294-327 | With the device taking and completing requests while the loop runs: the loop ends, no completion is left unseen, and exactly the buffers of the requests that became done are released, also across the wrap of the 16-bit indices; its panic is unreachable |
| VirtioRing.Disk.SeeOne | xv6-labs-2023/kernel/virtio_disk.c:312-324 | One used entry names the oldest unseen completion |
| VirtioRing.Disk.DeviceTake | xv6-labs-2023/kernel/virtio_disk.c:271-277 | The device reads the oldest head offered, at its own 16-bit index, which nothing has overwritten |
| VirtioRing.Disk.DeviceComplete | xv6-labs-2023/kernel/virtio_disk.c:215-314 | Serving a taken chain by what the ring says moves the block of the request: a write makes it the buffer's bytes and changes no other byte of the disk, a read makes the buffer the block's bytes and changes nothing else; the completion goes into a used entry the driver has consumed |
| VirtioRing.ServeMoves | xv6-labs-2023/kernel/virtio_disk.c:215-264 | A device that follows section 5.2.6 of VIRTIO 1.1 from the ring alone, on a disk of 512-byte sectors, moves exactly bytes 1024 n to 1024 n + 1023 for a request for block n |
| VirtioRing.AtMostTwo | xv6-labs-2023/kernel/virtio_disk.c:199-213 | At most two heads are pending, so no ring entry is overrun |
| ShellParser.RoundTrip | xv6-labs-2023/user/sh.c:328-447 | The fully parenthesised text of every command over EXEC (at most nine arguments), REDIR, PIPE, LIST and BACK parses to that command, each redirection with the descriptor and the mode of its sign |
| ShellPrecedence.LeastParens | xv6-labs-2023/user/sh.c:328-447 | Every such command written with parentheses only where it needs them parses to itself, descriptors and modes included: | binds tighter than &, & tighter than ;, redirections belong to the program or block before them, | and ; group to the right |
| ShellPrecedence.ShowReads | xv6-labs-2023/user/sh.c:345-447 | The same at every level of the grammar, up to a character that stops a command of that level |
| ShellParser.LineOf | xv6-labs-2023/user/sh.c:345-447 | The same wherever the text stands in a line, up to the end or a closing parenthesis |
| ShellParser.ReadsBack | xv6-labs-2023/user/sh.c:449-494 | After nulterminate every argument and file name reads back as exactly its token |
| ShellParser.LineWords | xv6-labs-2023/user/sh.c:345-447 | On every line each argument and file name of the result is a maximal run of word characters, each program has at most nine arguments, and each redirection goes by the sign before its file name: < opens it for reading as 0, > for writing as 1, made and emptied, >> for writing as 1, made but not emptied |
| ShellParser.Parser.Parsecmd | xv6-labs-2023/user/sh.c:328-343 | The command if the whole line is one, otherwise the error; descriptors and modes of redirections go by their signs; argument strings then read back as their tokens |
| ShellParser.Parser.Parseline | xv6-labs-2023/user/sh.c:345-360 | Ends on every line and yields what the grammar says, with the cursor behind it |
| ShellParser.Parser.Parseexec | xv6-labs-2023/user/sh.c:416-447 | The arguments in order, with the redirections around them, or the block |
| ShellParser.Parser.Parseredirs | xv6-labs-2023/user/sh.c:375-398 | The redirections in order, or the missing file; what each is by its sign is in ShellParser.NextFits |
| ShellParser.NextFits | xv6-labs-2023/user/sh.c:382-395 | The redirection read at a sign has the descriptor and the open mode of that sign, and a word behind it as its file |
| ShellParser.CharCodes | xv6-labs-2023/user/sh.c:263-264 | White space and symbols are exactly the characters of the two strings |
| ShellParser.Parser.Gettoken | xv6-labs-2023/user/sh.c:266-309 | The next token, its ends and the cursor behind the white space after it |
| ShellParser.Parser.Nulterminate | xv6-labs-2023/user/sh.c:449-494 | NULs at exactly the ends of the command's tokens |

## Left out

- Trap entry, swtch, CSR access, PLIC, UART, TLB flushes and virtio_disk_init: hardware and assembly. A spinlock acquire or release is one atomic step and a completed block write one atomic update.
- pipe.c, console.c, sys_pgaccess, vmprint, string.c, printf.c: bounded queues between a reader and a writer, single loops over a table or a string, and output.
- System-call arguments, path lookup, directories, inode allocation, runcmd and grep's read loop: mostly I/O and wrappers.
- ELF parsing: the fields of the program headers and the bytes the file holds for each are parameters of ExecMemory.Exec; a read that fails part way through a page is taken to write nothing.
- ExecMemory.Exec, ExecMemory.BuildStack, ExecMemory.PushArgs: what happens after a write past ustack is undefined in C and not modelled; a string is shorter than 2^63 bytes.
- vmprint for the first process at the end of exec, and the name exec keeps for debugging.
- iupdate: the copy of an inode on disk is not modelled, only the one in memory.
- InodeData.FileSystem.Writei: after a failing copy the block is taken to stay in its buffer; that a buffer written without log_write may be recycled and lose the bytes is not modelled.
- The fields parent, chan, name, killed, xstate, ofile, cwd and context in ProcMemory: they hold no frames; parent, chan and killed are modelled in ProcLife.
- userinit and uvmfirst: the first process is the initial state of ProcLife and is not built in ProcMemory.
- Interleaving inside the memory operations: each runs as a whole, since kalloc and kfree take kmem.lock and a process under construction is seen by nobody else.
- Data words in Sv39 are as wide as their number: the 64-bit bound on a stored word plays no part in the proofs.
- The second name of the EXEC node inside the redirections that wrap it (sh.c:427-446): the parser collects the redirections in a list and wraps them at the end, so the aliasing is not modelled.
- Several devices, and the sleep locks of buffers: LogProtocol has one device and keeps the holder of each buffer in its state.
- A fork that finds no free slot: in ProcLife it is no step, since it changes nothing but its answer; ProcMemory.ProcTable.Fork has it.
- kill by pid: ProcLife takes the process to be killed by its slot; pids are unique and never reused.
- sbrk: a parameter of Umalloc.Allocator.Malloc, with aligned results above base; what the heap is once sbrk has been asked for a wrong number of bytes is left open.
- Sv39.PhysMem.Kfree: asks for a frame that is not free already, which kfree cannot check.
- The device of VirtioRing completes each head it has taken once, with status 0.
