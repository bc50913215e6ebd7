# Verified model of the xv6 lab kernels

This project models, in Dafny, four parts of the xv6 lab repository and proves what they promise:

1. **Memory**: the physical page allocator, Sv39 page tables, user address spaces, the copies between kernel and user memory, the page side of process creation, `exec` and `sys_pgaccess`.
2. **Processes**: `fork`, `exit`, `wait`, `sleep`, `wakeup`, `kill`, the scheduler and the clock interrupt, as steps of any number of CPUs over any number of process slots.
3. **Alarms**: `sigalarm` and `sigreturn`, with the trap code around them.
4. **The prime sieve**: the processes and pipes of `primes.c`.

Run `dafny verify dfyconfig.toml` in this directory to check everything.

## How memory is modelled

Physical memory is an array of frames in the class `Kmem`. A frame is a page-table page (512 structured entries), a data page (4096 bytes) or a free-list node; code that fills a page with `memset` and then uses it as a page table is modelled as writing a frame of the other kind. A page-aligned address `pa` stands as its page number. `Riscv.WordRoundTrip` and `Riscv.FlagPositions` relate the structured entries to the 64-bit words and macros of `riscv.h`; a shift is a division by a power of two, a mask a remainder.

`Kmem` also has a ghost map from frames to owners: the kernel, the free list, a kernel pointer (`Held`), a page-table page of one tree at one level and prefix, or user page `vpn` of one tree. `Phys.Inv` says, frame by frame, that memory agrees with that map. Because each frame has one owner, the frames are partitioned among free list, page tables, user pages and kernel pages: there is no double free, no leak and no aliasing, and every operation is proved to keep it so, on its failure paths too. `Machine` and `History` put the operations together: from start-up on, through any sequence of calls by any processes, every call has exactly its effect (`History.Served`), every frame beyond the kernel is free or belongs to exactly one live process, and when no process is left all of them are free. This holds up to the first call that runs into one of the two defects described below; `History.Fatal` says, from the state before the call, exactly which calls those are. Every condition under which the source panics is a `requires` with the panic in a comment, or is proved not to arise.

Whether an operation has enough memory is stated by counting. `Tables.Cost` is the number of pages to be added plus the number of distinct page-table pages that the tree lacks on their paths; `uvmalloc`, `uvmcopy` and `growproc` succeed exactly when that many frames are free. A tree that has grown from nothing has taken `Tables.TreeCost` frames, one page-table page for every 512 pages and one for every 512 of those, so that `fork` and `exec` have closed forms.

`Phys.Lookup` is the partial map from page number to entry that a tree stands for. The operations of `vm.c` are specified by what they do to it, with everything else unchanged. The user bytes seen through it are `CopyUser.UByte`.

The lab directories are variants of one kernel, and `ProcMem.Lab` says which: with or without the second trapframe page of the traps lab, with or without the USYSCALL page of the page-table lab. `proc_pagetable`, `allocproc`, `freeproc`, `fork`, `exec`, `userinit` and whole histories are modelled for every variant, with the counts of `ProcMem.ProcCost`: five pages for an empty process in the traps lab (two trapframes, three for the tree) and in the page-table lab (one trapframe, four for the tree), four in the system-call lab. Files that only one directory has are taken to be the same in all: `vm.c`, `exec.c` and `growproc` from the page-table lab, `kalloc.c` with `freemem` from the system-call lab; all of the process protocol and the alarms are those of the traps lab. `memlayout.h`, `param.h`, `elf.h`, `spinlock.c`, `pipe.c` and the file system are not part of this model: the constants needed are given where they are used, locks are atomic, a pipe is a bounded queue, and `readi` is an arbitrary function.

The operations above are proved one at a time. `Smp` is about several CPUs: in every interleaving of their single steps on frames and page tables, where each CPU uses only frames that it holds and trees that it works on, memory stays in order, no frame is with two CPUs, and nothing of one CPU's changes by another's steps.

## How the process protocol is modelled

`Sched.Do` gives the next state when one CPU makes one step, from one lock operation to the next. A critical section in which no other lock is taken is one step; a lock that is held while another is taken, or through `swtch`, stays in the map `held`. A process can be interrupted by the clock and made to yield wherever it holds no lock. `SchedInv.Inv` is the invariant, `SchedSteps` proves that every step keeps it, `SchedSafety` and `SchedSlots` draw the conclusions for every reachable state, `SchedKill` for every continuation of a kill, and `SchedLaws` tells what any step of any CPU does: which step changes which field of which slot and under which lock, and when each system call goes on, sleeps and ends. A clock interrupt that arrives while `tickslock` is held waits, and its CPU does nothing else meanwhile.

The steps and their source in `Lab_traps/proc.c`: `SchedSkip`, `SchedPick`, `SchedBack` (scheduler, 452-480), `Resume` (507, 523-527, 561-569), `Yield` (511-518), `Swtch` (490-507), `AllocLook`, `AllocSetPid`, `AllocPages` (88-155, 293-308), `Link`, `Ready` (325-331), `Reparent`, `WakeNext`, `Zombie` (339-394), `WaitLook`, `WaitReap` (399-443), `FallAsleep` (544-562), `KillLook` (594-612); in `Lab_traps/trap.c`: `TickBegin`, `TickTake`, `TickNext` (171-178); in `Lab_traps/sysproc.c`: `TickTest` (56-78).

## What the proofs found

- `proc_pagetable` of the page-table lab lacks a `return 0` after its two USYSCALL failure paths. The first is reached exactly when three frames are free, and then the code writes to physical address 0; `exec` reaches it with three free frames and `fork` with four (`ProcMem.ProcPagetable`, `Exec.Exec`, `ProcAlloc.Fork`). The kernels of the other labs never do. The second can never be reached, since the three top pages share one level-0 page-table page.
- `exec` with exactly 32 arguments that fit on the stack stores a null pointer one word past the end of `ustack`. It happens exactly when the file can be loaded, the memory for it is free and all 32 strings fit (`Exec.Exec`); 32 empty strings always do (`Exec.EmptyStringsSmash`). With fewer, argv is read back exactly. The caller `sys_exec`, which collects the strings, is not part of this model.
- `userinit` tests neither `allocproc`'s answer nor, in `uvminit`, those of `kalloc` and `mappages`. In the traps and the page-table lab the first process needs eight pages beyond the kernel; with six or seven its page 0 is taken but not mapped, although its size says so. With five something is written to address 0, in the page-table lab also with four, and with fewer a null process is used (`History.Boot`).
- `copyout` tests PTE_U but not PTE_W, so a system call that fills a user buffer can write the page that is mapped read-only at USYSCALL. The bytes written include one that the process itself may not write exactly when they meet that page (`History.WritesReadOnly`); in the other labs they never do.
- `exec` treats the answer 0 of `uvmalloc` as failure, so a file whose first loadable segment ends at address 0 is refused although memory is not short (`ExecImage.HeaderOk`).
- `growproc` takes its sums modulo 2^32, so a shrink by more than the size leaves the size unchanged (`ProcMem.ShrinkTooFar`).
- The result of `sys_sigreturn` overwrites the restored `a0` with 0; every other register and the pc are restored (`Alarm.SigreturnRestores`). After `sigalarm(n)` the handler is entered on counted timer trap n + 1, and the counter comes round every 2^32 traps (`Alarm.FiresExactly`).
- `kill` holds only the victim's lock. From a kill until the victim is next outside this code, the victim goes to sleep if and only if the kill hit it between its test of `killed` and `sleep`'s taking of its lock (`SchedKill.KillPreventsSleep`, for every reachable state and every continuation; `SchedKill.LateKillHappens` is a run in which it does). In any other place the kill prevents every later sleep (`SchedKill.StaysAwake`).
- A kill hits an unused slot exactly when its argument is 0. The mark is then never taken off until a process has lived and died in the slot, so that the next process there is born killed (`SchedKill.KillZero`; `SchedKill.KillZeroHappens` is such a run).
- After the handler is entered, `sigreturn` resumes whatever was saved last; this is the interrupted state when the handler was not entered again, which without alarm calls takes 2^32 more timer traps (`Alarm.SigreturnExact`, `Alarm.ReenteredExactly`), but with a `sigalarm` in the handler only two (`Alarm.NestedAlarm`).
- `freeproc` leaves `original_trapframe` dangling, but it is never freed twice, because `allocproc` overwrites it before any `freeproc` can read it (`ProcAlloc.Allocproc` holds for any stale value).

## Model

| member | source | states |
|---|---|---|
| Riscv.PgRoundUp | Lab_page_tables/riscv.h:338 | the result is the only multiple of the page size in the page above, reached from below |
| Riscv.PgRoundDown | Lab_page_tables/riscv.h:339 | the result is the only multiple of the page size in the page below |
| Riscv.AddressParts | Lab_page_tables/riscv.h:356-364 | an address below MAXVA is made up of the three indices that PX takes from it and the offset, and uses the lower half of the root page |
| Riscv.WordRoundTrip | Lab_page_tables/riscv.h:341-353 | PTE2PA undoes PA2PTE, PTE_FLAGS reads back the flags that were packed, and 44-bit page numbers fit |
| Riscv.FlagPositions | Lab_page_tables/riscv.h:341-346 | each flag is the binary digit of the word at its own position, spelled out: V 0, R 1, W 2, X 3, U 4, G 5, A 6, D 7, and the two software bits |
| Phys.TableAtOwner | Lab_page_tables/vm.c:80-98 | a walk from a root stays in that root's own page-table pages, each with the prefix of the address |
| Phys.OwnerTableAt | Lab_page_tables/vm.c:80-98 | conversely every page-table page lies on the path of exactly the addresses with its prefix |
| Phys.UserIsMapped | Lab_page_tables/vm.c:103-121 | the one mapping that the owner of a user frame names is really there |
| Phys.NoAliasing | Lab_page_tables/vm.c:80-187 | two user-accessible mappings lead to one frame only if they are the same page of the same space; such a frame is not free |
| Phys.Sv39IsLookup | Lab_page_tables/vm.c:68-98 | the hardware translation of section 4.3.2 of the RISC-V Privileged Architecture yields a 4 KB leaf exactly where the map has an entry, and the same entry |
| PhysUpdate.MapKeeps | Lab_page_tables/vm.c:147-155 | writing a leaf entry for a held or borrowed frame keeps the ownership invariant |
| PhysUpdate.UnmapKeeps | Lab_page_tables/vm.c:173-186 | clearing a leaf entry keeps the ownership invariant |
| PhysUpdate.InstallKeeps | Lab_page_tables/vm.c:89-95 | hanging an empty page-table page below an invalid entry keeps the invariant and every address map |
| PhysUpdate.LeafWrite | Lab_page_tables/vm.c:153 | writing one level-0 entry changes exactly one page of exactly one address map |
| PhysUpdate.PopList | Lab_syscall/kalloc.c:73-77 | unlinking the head of the free list leaves a well-formed list of the remaining free frames |
| PhysUpdate.PushList | Lab_syscall/kalloc.c:57-62 | linking a frame that is not free gives a well-formed list |
| Kalloc.Kmem.Kfree | Lab_syscall/kalloc.c:46-63 | the frame becomes the head of the free list and nothing else changes; callers must not free a free frame |
| Kalloc.Kmem.Kalloc | Lab_syscall/kalloc.c:68-82 | 0 exactly when nothing is free, else the head of the list, full of bytes 5, which now belongs to the caller alone |
| Kalloc.Kmem.Freerange | Lab_syscall/kalloc.c:33-40 | exactly the whole pages inside the range become free |
| Kalloc.Kinit | Lab_syscall/kalloc.c:26-31 | after start-up exactly the pages beyond the kernel are free, and the ownership invariant holds |
| Kalloc.Kmem.Freemem | Lab_syscall/kalloc.c:85-96 | 4096 times the number of frames whose owner is the free list |
| Kalloc.SameFree | Lab_syscall/kalloc.c:21-24 | the same owners mean the same free frames, as a multiset |
| Tables.NewAtDistinct | Lab_page_tables/vm.c:80-98 | the page-table pages of a level counted for a range are the distinct ones that the tree lacks on the paths of its pages |
| Tables.CostTidy | Lab_page_tables/vm.c:220-244 | a tree that has grown from nothing has one page-table page for every 512 pages and one for every 512 of those, and growing it further takes exactly the difference |
| Vm.AddTable | Lab_page_tables/vm.c:87-96 | one new page-table page leaves one page fewer missing on the path and serves exactly the addresses with its prefix, takes one free frame and changes no map |
| Vm.Walk | Lab_page_tables/vm.c:80-98 | finds the level-0 entry of the page; with alloc it fails exactly when fewer frames are free than page-table pages missing, takes just those, and changes no map |
| Vm.Walkaddr | Lab_page_tables/vm.c:103-121 | the frame that user mode reaches at the address, 0 exactly if there is none |
| Vm.UserPageOwned | Lab_page_tables/vm.c:103-121 | what walkaddr finds is a data frame that this page of this tree owns |
| Vm.Mappages | Lab_page_tables/vm.c:137-160 | inserts exactly the pages of the range, to consecutive frames with the given permissions; it fails exactly when fewer frames are free than distinct page-table pages missing, and then a prefix is inserted and no frame is left free |
| Vm.Uvmunmap | Lab_page_tables/vm.c:165-187 | deletes exactly the pages of the range; their frames become free, or are handed back |
| UserVm.OwnedBound | Lab_page_tables/vm.c:220-244 | a process has no more pages than there are frames |
| UserVm.OthersUnchanged | Lab_page_tables/vm.c:220-328 | an isolated operation on one tree leaves the map and the page contents of every other tree alone |
| UserVm.Uvmcreate | Lab_page_tables/vm.c:191-200 | an empty tree on a frame that was free, or 0 exactly when none is |
| UserVm.Uvmdealloc | Lab_page_tables/vm.c:250-262 | removes and frees exactly the pages that the smaller size does not need; a larger size does nothing |
| UserVm.Uvmalloc | Lab_page_tables/vm.c:220-244 | for any sizes: adds exactly the new pages, zeroed, on frames that were free, or none at all; it succeeds exactly when the frames for them and for the distinct missing page-table pages are free, and takes just those; no panic is reached |
| CopyUser.ZeroPagesSeen | Lab_page_tables/vm.c:220-244 | what user code and the hardware find in the new pages: zeros, readable, writable and executable |
| UserVm.AddedUndone | Lab_page_tables/vm.c:231-240 | adding pages and then removing them changes no map and leaves at most page-table pages behind |
| UserVm.Uvmcopy | Lab_page_tables/vm.c:300-328 | same pages, same flags, equal contents on frames that were free, exactly when the frames for them and for the missing page-table pages are free; otherwise none of the pages |
| CopyUser.CopySeen | Lab_page_tables/vm.c:300-328 | what that means for user code: at every address of the copy the byte that the original has there, and for every page a translation with the same rights |
| UserVm.Uvminit | Lab_page_tables/vm.c:205-216 | page 0 holds the code and then zeros exactly when a page and the missing page-table pages are free; with less the page is lost unmapped, with none address 0 is written |
| CopyUser.InitPageSeen | Lab_page_tables/vm.c:205-216 | what they find in page 0: the code byte by byte, then zeros, and it can be executed |
| UserVm.Uvmclear | Lab_page_tables/vm.c:332-341 | takes PTE_U away from one page and changes nothing else |
| Freewalk.Freewalk | Lab_page_tables/vm.c:266-282 | frees each page-table page below and including its argument exactly once and never meets a leaf |
| Freewalk.EmptyFreeable | Lab_page_tables/vm.c:264-282 | a tree that maps nothing meets freewalk's condition, and the pages under its root are all the tree has |
| Freewalk.Uvmfree | Lab_page_tables/vm.c:286-292 | every frame of the tree becomes free and no other changes |
| CopyUser.Copyout | Lab_page_tables/vm.c:346-366 | byte by byte: writes exactly the bytes up to the first address that user mode cannot access, and succeeds exactly if there is none |
| CopyUser.Copyin | Lab_page_tables/vm.c:371-391 | byte by byte: reads exactly the bytes up to the first inaccessible address, and succeeds exactly if there is none |
| CopyUser.OutThenIn | Lab_page_tables/vm.c:346-391 | copyin after copyout of the same range returns what was sent |
| CopyUser.Copyinstr | Lab_page_tables/vm.c:397-434 | succeeds exactly when a NUL occurs within max bytes, all accessible up to it, and then returns the string; nothing after the NUL matters |
| CopyUser.UNumIs | Lab_page_tables/exec.c:97 | a number stored little-endian in user memory is read back |
| ProcMem.ProcPagetable | Lab_page_tables/proc.c:171-219 | succeeds exactly when four frames are free (three in a lab without USYSCALL), mapping the trampoline, the process's own trapframe and the page at USYSCALL, where user code reads the pid as a 32-bit number and zeros after it; fails cleanly with fewer than three, writes to address 0 with exactly three in the page-table lab; on every failure all frames are as before |
| ProcMem.PidShown | Lab_page_tables/proc.c:207-210 | the four user bytes at USYSCALL, read as a number, are the pid, and the rest of that page is zero |
| ProcMem.TopPagesSeen | Lab_page_tables/proc.c:179-216 | the hardware translation of the three top pages: trampoline executable and not writable, trapframe not executable, neither accessible to the user, and the page at USYSCALL for the user to read only |
| ProcMem.LeafTargets | Lab_page_tables/proc.c:179-216 | every leaf of a process's tree leads to the trampoline, its own trapframe or a frame that the tree owns for that page, never to a free frame |
| ProcMem.MapTop | Lab_syscall/proc.c:174-203 | without the USYSCALL page: succeeds exactly when at least three frames are free, mapping the trampoline and the process's own trapframe and nothing else; a failure leaves every frame as before |
| ProcMem.FreePlain | Lab_syscall/proc.c:207-213 | every frame of such a tree becomes free, trampoline and trapframe do not |
| ProcMem.SharedTable | Lab_page_tables/proc.c:179-216 | once one of the top three pages is mapped, mapping another needs no memory |
| ProcMem.ProcFreepagetable | Lab_page_tables/proc.c:223-230 | in every lab: every frame of the process's tree becomes free, the borrowed trampoline and trapframe frames do not |
| ProcMem.StartedAndGone | Lab_page_tables/proc.c:171-230 | a tree that was started on a free frame and taken apart leaves every owner and every frame in use as before |
| ProcMem.Growproc | Lab_page_tables/proc.c:272-288 | the address space is exactly the pages below the size, new pages are zero; it fails exactly when it asks for more frames than are free, and then changes no map; sizes modulo 2^32 |
| ProcMem.ResizedSeen | Lab_page_tables/proc.c:272-288 | what user code finds afterwards, at any address: the old byte where memory stays, zero with all rights where it is new, nothing from the new end to the top pages, and those as before |
| ProcMem.ShrinkTooFar | Lab_page_tables/proc.c:272-288 | shrinking by more than the size leaves it, by less subtracts |
| ProcMem.GrowTooFar | Lab_page_tables/proc.c:272-288 | growing past 2^32 - 1 bytes leaves the size, by less adds |
| ProcMem.GrowThenShrink | Lab_page_tables/proc.c:272-288 | growing by n and then shrinking by n restores size and map, for unaligned sizes |
| ProcAlloc.Freeproc | Lab_traps/proc.c:160-182 | in every lab: frees exactly the trapframe pages and the address space of the slot, each once |
| ProcAlloc.Allocproc | Lab_traps/proc.c:104-155 | traps lab: succeeds exactly when at least five frames are free and takes five, never crashes, for any stale original_trapframe; page-table lab: five, and crashes exactly with four; any lab: exactly the frames of a new process; the tree maps the slot's own trapframe and, in the page-table lab, shows user code the new pid at USYSCALL; a clean failure leaves every frame as before |
| ProcAlloc.Fork | Lab_page_tables/proc.c:292-325 | the child has the parent's pages, flags and contents on frames that were free, reads the parent's byte at every address and its own pid at USYSCALL, has its own trapframe and the parent's registers with a0 = 0; it succeeds exactly when the frames of a new process and those of the copied tree are free, crashes exactly with four in the page-table lab and never in the others, and a failure leaves every frame as before |
| ExecImage.SegmentIsSlice | Lab_page_tables/exec.c:137-156 | when readi answers from a file, what loadseg reads page by page is one slice of the file |
| ExecImage.Loadseg | Lab_page_tables/exec.c:137-156 | the bytes at va are the segment's, and it succeeds exactly when the file has them all; the address-should-exist panic is unreachable |
| ExecImage.ZeroAbove | Lab_page_tables/exec.c:41-59 | the image is zero from the end of its segments on |
| ExecImage.ImageIsFile | Lab_page_tables/exec.c:41-59 | byte a of the image is the byte of the file at off + (a - vaddr) for the last header whose part of the file covers a |
| ExecImage.ImageIsZero | Lab_page_tables/exec.c:41-59 | ... and 0 if no header covers a |
| ExecImage.ImageSizeIs | Lab_page_tables/exec.c:41-59 | the image ends where the segment that ends last does, at 0 if there is none |
| ExecImage.LoadHeader | Lab_page_tables/exec.c:44-58 | one program header: the image grows to the segment's end and holds its bytes, exactly when the header is good and the frames of the larger image are free |
| ExecImage.LoadImage | Lab_page_tables/exec.c:40-59 | every byte of the image is that of the last segment that covers it, else zero; it succeeds exactly when all headers are good and the frames of the image are free |
| ExecArgs.StringNul | Lab_page_tables/vm.c:397-434 | a pushed string is what copyinstr finds: its NUL is at its length and nowhere before |
| ExecArgs.StackPointer | Lab_page_tables/exec.c:82-94 | the stack pointer is 16-byte aligned, and the strings lie above the array, in order and without overlap |
| ExecArgs.PointersExact | Lab_page_tables/exec.c:82-94 | each stack pointer is the highest multiple of 16 that leaves room for the string and its NUL, and in the end for the pointers and the null pointer |
| ExecArgs.PushArgs | Lab_page_tables/exec.c:78-98 | the array at sp holds a pointer to each string, in order, then null; it fits exactly when it stays above stackbase; with 32 strings ustack overflows |
| Exec.OtherSpace | Lab_page_tables/exec.c:34-130 | building or freeing one address space leaves another complete |
| Exec.OtherBytes | Lab_page_tables/exec.c:34-130 | ... and its bytes as they were |
| Exec.MakeStack | Lab_page_tables/exec.c:66-76 | two pages on top of the image, the lower one inaccessible, the image's bytes kept, exactly when the frames are free |
| Exec.Commit | Lab_page_tables/exec.c:100-117 | in the bytes of the trapframe page the word at 24 (epc) becomes the entry, those at 48 (sp) and 120 (a1) the stack pointer, and every other byte stays; the process gets the new space; the old space is all free, the new one unharmed |
| Exec.Exec | Lab_page_tables/exec.c:12-131 | all or nothing, each outcome with its exact condition: success when the file is good, the frames of the image are free and the arguments fit, and then the new program's memory, stack and arguments, epc at the entry, sp and a1 at the array of arguments, every other byte of the trapframe kept, and the process's own pid at USYSCALL; the two defects; otherwise every frame and the process as before |
| Exec.RegistersSet | Lab_page_tables/exec.c:103-116 | the words of the trapframe page that exec writes, read back as numbers, and that it writes no other |
| Exec.ExecLimits | Lab_page_tables/exec.c:66-98 | the conditions in numbers: the magic number, the size of image and stack, and fewer than 32 strings on the upper stack page |
| Exec.EmptyStringsSmash | Lab_page_tables/exec.c:78-98 | 32 empty strings fit on every image, so they overflow ustack |
| PgAccess.BitmapBit | Lab_page_tables/sysproc.c:107-114 | bit i of the packed bitmap is the accessed bit of page i, the padding is 0 |
| PgAccess.SysPgaccess | Lab_page_tables/sysproc.c:91-121 | if it returns 0 then for every i below n and 512 the user byte at bitmap + i / 8 is accessible and its bit i % 8 is the old accessed bit of page i of the range; those bits are cleared, also when the copy fails; no user byte outside the report changes |
| PgAccess.SecondReport | Lab_page_tables/sysproc.c:107-120 | asking again at once reports all zeros |
| PgAccess.ClearedBytes | Lab_page_tables/sysproc.c:107-114 | no address becomes accessible, inaccessible or different |
| Machine.LocalKeeps | Lab_syscall/kalloc.c:21-96 | an operation that moves frames only between the free list and one process keeps frames and processes matched up |
| Machine.NothingLost | Lab_syscall/kalloc.c:85-96 | when no process is left every frame beyond the kernel is free again: nothing leaked |
| Machine.LiveLeaves | Lab_page_tables/proc.c:171-219 | no page of any live process leads to a free frame or to a frame of another process |
| History.Userinit | Lab_traps/proc.c:241-263 | the first process is complete, and user code finds and may execute the init code at address 0, with epc 0 and sp 4096, exactly with three free frames more than a new process takes; each smaller number has its own outcome, for every lab |
| History.Boot | Lab_traps/proc.c:241-263 | start-up matches frames and processes up exactly with at least eight pages beyond the kernel; below that, page 0 lost with six or seven, a write to address 0 with five (page-table lab: four or five), else a null process |
| History.Serve | Lab_traps/proc.c:104-182 | fork, sbrk, exec, writes to user memory and reaping by any process: dead exactly for the fatal calls, otherwise exactly the call's effect, success or clean failure, and frames and processes matched up |
| History.History | Lab_traps/proc.c:104-325 | any sequence of such calls passes through states in which frames and processes match up, each the exact effect of its call on the one before; the kernel is dead exactly if a fatal call was reached |
| History.WritesReadOnly | Lab_page_tables/vm.c:346-366 | in every state of a history copyout writes a byte that the process may not write if and only if the bytes written meet the USYSCALL page, which only the page-table lab has |
| History.AllComesBack | Lab_syscall/kalloc.c:85-96 | in every state of every history, once no process is left, all memory beyond the kernel is free |
| Smp.StepKeeps | Lab_syscall/kalloc.c:46-82 | every step of any CPU on frames and trees of its own keeps the ownership invariant and the CPUs apart |
| Smp.StepDoes | Lab_syscall/kalloc.c:46-82 | what each step does: which frame changes hands, what a page holds, and which one page of one map changes |
| Smp.OneOwner | Lab_syscall/kalloc.c:68-82 | a frame is with one CPU at most and then not on the free list: no frame is handed out twice |
| Smp.RunOk | Lab_page_tables/vm.c:80-341 | so it is after every interleaving of the steps of any number of CPUs |
| Smp.Undisturbed | Lab_page_tables/vm.c:80-341 | while a CPU makes no step its frames keep owner and contents, whatever the others do |
| Smp.UndisturbedMap | Lab_page_tables/vm.c:80-341 | ... and its trees map every page as before |
| SchedSteps.StepKeeps | Lab_traps/proc.c:88-612 | every step of every CPU keeps the invariant |
| SchedSteps.RunInv | Lab_traps/proc.c:88-612 | so it holds at the end of every run, for any number of CPUs and slots |
| SchedSteps.AdoptKeeps | Lab_traps/proc.c:338-349 | giving a child to initproc keeps it: a zombie child is covered by the wakeup that follows |
| SchedSteps.FallAsleepRest | Lab_traps/proc.c:437-442 | going to sleep in wait keeps it: no child is a zombie then (SchedLaws.WaitSleeps is a run that gets there) |
| SchedSteps.ZombieKeeps | Lab_traps/proc.c:378-390 | becoming a zombie keeps it: the parent was woken before and cannot have gone back to sleep |
| SchedSafety.NoLostExit | Lab_traps/proc.c:338-443 | while wait_lock is free nobody sleeps in wait with a zombie child, adopted ones included (that processes do sleep in wait is SchedLaws.WaitEnds and WaitSleeps) |
| SchedSafety.NoLostTick | Lab_traps/sysproc.c:55-78 | while tickslock is free a sleeper in sys_sleep still has ticks to go, in 32-bit arithmetic |
| SchedSafety.SkippedRuns | Lab_traps/proc.c:574-588 | the process that the clock's wakeup skips is running |
| SchedSafety.OneCpu | Lab_traps/proc.c:452-480 | a running process is current on exactly one CPU, no process on two |
| SchedSafety.SchedTests | Lab_traps/proc.c:490-507 | none of sched's four panics can happen |
| SchedSafety.HandOff | Lab_traps/proc.c:452-507 | through both swtches the process's lock stays held by that CPU, which holds no other |
| SchedSafety.NobodyInside | Lab_traps/proc.c:399-443 | wait frees, and allocproc fills, only a slot that no CPU executes or is leaving |
| SchedSafety.Ancestors | Lab_traps/proc.c:287-394 | every forked process, zombies included, descends from initproc over living processes only |
| SchedSafety.DistinctPids | Lab_traps/proc.c:88-98 | live pids differ and lie below nextpid |
| SchedSlots.NoSlotLost | Lab_traps/proc.c:104-349 | every slot is unused, or built by exactly one living process, or alive, or a zombie with a living parent |
| SchedSlots.ReapRetires | Lab_traps/proc.c:413-427 | once wait has freed a child no slot has its pid |
| SchedSlots.NeverReused | Lab_traps/proc.c:88-98 | and none ever has again: wait reports each child once |
| SchedSafety.LockOrder | Lab_traps/proc.c:88-612 | wait_lock and tickslock before process locks before pid_lock and kmem.lock, on every path |
| SchedSafety.OneProcLock | Lab_traps/proc.c:88-612 | a CPU holds one process lock at most |
| SchedSafety.Blocked | Lab_traps/proc.c:88-612 | a CPU whose next lock is held makes no progress in its program |
| SchedSafety.Unblocked | Lab_traps/proc.c:88-612 | otherwise it can make a step |
| SchedSafety.NoCycle | Lab_traps/proc.c:88-612 | CPUs waiting for each other's locks form chains of at most four, never a cycle |
| SchedSafety.NoDeadlock | Lab_traps/proc.c:88-612 | every CPU, also one whose clock interrupt waits for tickslock, can make the next step of its program or waits, along such a chain, for one that can; interrupts do not count |
| SchedKill.RightAfter | Lab_traps/proc.c:594-612 | right after a kill the victim is marked and not asleep, and it was an unused slot exactly if the argument was 0 |
| SchedKill.StaysAwake | Lab_traps/proc.c:399-443 | a marked process that is not at the start of sleep never sleeps again while its slot is in use |
| SchedKill.KillPreventsSleep | Lab_traps/proc.c:534-612 | for every reachable kill and continuation: before it is next outside this code the victim sleeps if and only if it was at the start of sleep |
| SchedKill.LateKillHappens | Lab_traps/sysproc.c:66-76 | a run in which a kill comes between sys_sleep's test and sleep, and is lost |
| SchedKill.KillZero | Lab_traps/proc.c:104-182 | kill(0) marks an unused slot; the mark outlasts allocproc, and the next process keeps it until its slot is freed |
| SchedKill.KillZeroHappens | Lab_traps/proc.c:104-182 | a run in which a child is born killed |
| SchedLaws.WaitEnds | Lab_traps/proc.c:399-443 | wait returns exactly if nobody at all has the caller for a parent, the caller was killed, or the status of a zombie child cannot be copied out; it frees exactly a zombie child; it sleeps exactly if it has looked at every slot, has a child and was not killed |
| SchedLaws.WaitSleeps | Lab_traps/proc.c:435-441 | a run in which a process with a runnable child sleeps in wait |
| SchedLaws.SleepGoesOn | Lab_traps/sysproc.c:55-78 | sys_sleep ends exactly if n ticks have gone by since it began, in 32-bit arithmetic, or the caller was killed; otherwise it sleeps on, with the same start and the same n |
| SchedLaws.LifeCycle | Lab_traps/proc.c:88-612 | every change of state of any slot in any step has exactly one cause: nine arrows from UNUSED to UNUSED, each if and only if its code is executed, and no other change |
| SchedLaws.SlotFields | Lab_traps/proc.h:89-102 | what any step makes of the state, parent, killed, pid, chan and CPU of any slot; state, chan, killed and pid change only under the lock of the process, parent only under wait_lock |
| SchedLaws.Globals | Lab_traps/trap.c:171-178 | ticks grows by one modulo 2^32 in the clock interrupt under tickslock and nowhere else, nextpid in allocproc only, and a CPU is switched by its own steps only |
| SchedLaws.CpuSteps | Lab_traps/proc.c:452-518 | exactly when a CPU can do each step of the scheduler, sched and yield: the scheduler passes over no runnable slot and runs no other |
| SchedLaws.TickSteps | Lab_traps/trap.c:171-178 | exactly when it can do each step of the clock interrupt |
| SchedLaws.ProcessSteps | Lab_traps/proc.c:88-612 | exactly when a process can make its next step: it is executing and the lock that the step takes is free |
| SchedLaws.Calls | Lab_traps/proc.c:287-612 | exactly which system calls user code can start, and that starting one changes nothing else |
| SchedLaws.LockPlaces | Lab_traps/proc.c:88-612 | which locks a CPU holds at each place in the code |
| SchedLaws.Movers | Lab_traps/proc.c:88-612 | a process goes on in the code by its own steps only, until its slot is freed |
| SchedLaws.ForkGoesOn | Lab_traps/proc.c:104-155 | fork takes the first slot that is unused when it looks and fails for want of slots only past the last one |
| SchedLaws.ExitGoesOn | Lab_traps/proc.c:338-394 | exit hands over every child and wakes initproc for it, then its own parent, looking at every slot, before it becomes a zombie |
| SchedLaws.KillGoesOn | Lab_traps/proc.c:594-612 | kill passes over exactly the slots with another pid |
| Alarm.Proc.Usertrap | Lab_traps/trap.c:36-93 | one trap of any kind, as the code handles it field by field: the new state, and where user code goes on, spelled out for a timer interrupt and for every system call number |
| Alarm.UserGoesOn | Lab_traps/trap.c:55-93 | where user code goes on after any trap: after a system call at the next instruction with only a0 changed, to the call's result, to 0 by sigalarm, to -1 by an unknown number; after sigreturn at the saved state with 0 in a0; after a timer trap where it was, or in the handler |
| Alarm.AlarmGoesOn | Lab_traps/sysproc.c:103-129 | what any trap does to interval, countdown, handler and saved state: only the two alarm calls and counted timer traps change them |
| Alarm.Rings | Lab_traps/sysproc.c:103-120 | after sigalarm(n, handler) a timer trap goes to the handler, registers unchanged, exactly when n is not 0 and the count of traps is n modulo 2^32; any other goes back where it came from |
| Alarm.Countdown | Lab_traps/trap.c:80-89 | between alarm calls each timer trap counts down by one, modulo 2^32 |
| Alarm.FiresExactly | Lab_traps/trap.c:80-89 | after sigalarm(n) the handler is entered exactly on counted traps n + 1, n + 1 + 2^32, ... |
| Alarm.ReenteredExactly | Lab_traps/trap.c:80-89 | without alarm calls the handler is entered again exactly after 2^32 more timer traps |
| Alarm.SigreturnExact | Lab_traps/sysproc.c:122-129 | whatever happened in the handler, sigreturn resumes at the last saved state, hence at the interrupted one if and only if the two agree apart from a0 |
| Alarm.SigreturnRestores | Lab_traps/sysproc.c:122-129 | user code resumes at the interrupted pc with every register but a0, which is 0; all are restored exactly when a0 was 0 |
| Alarm.NestedAlarm | Lab_traps/trap.c:80-89 | an input where they differ: a sigalarm inside the handler, and the interrupted state is lost |
| Alarm.Disarmed | Lab_traps/trap.c:80-89 | after sigalarm(0) the handler is never entered |
| Alarm.KernelFieldsFresh | Lab_traps/trap.c:98-138 | through any events in the handler and the sigreturn: sigreturn copies back old kernel values, but every return to user mode leaves those of that return for the next trap |
| Sieve.StrainSurvivors | Lab_util/primes.c:32-39 | straining by the prime m turns the numbers free of factors below m into those free of factors below m + 1 |
| Sieve.HeadsArePrimes | Lab_util/primes.c:8-47 | the first numbers of the successive streams are the primes, in order |
| SieveRun.StepKeeps | Lab_util/primes.c:8-76 | every step of every process keeps the invariant of the network |
| SieveResult.SentPrefix | Lab_util/primes.c:32-39 | what a pipe has carried is a prefix of its stream, and all of it once its writer is done |
| SieveResult.PipeBound | Lab_util/primes.c:32-39 | no pipe ever holds more numbers than its capacity |
| SieveResult.OutputIsPrefix | Lab_util/primes.c:19-20 | at any time the output is an initial part of the primes up to n |
| SieveResult.NoDeadlock | Lab_util/primes.c:8-76 | until main exits some process can make a step, for any pipe capacity of at least one number |
| SieveResult.MainExitsLast | Lab_util/primes.c:41-76 | main exits last |
| SieveResult.FinalOutput | Lab_util/primes.c:49-76 | when nothing more can happen the output is exactly the primes up to n in increasing order |
| SieveResult.RunsAreShort | Lab_util/primes.c:8-76 | no run has more than (n + 2)(2n + 7) steps |

## Left out

- Exec.Exec: does not model the file system calls, the program name in p->name and vmprint; the ELF header, program headers and readi are given, and an integer overflow of the header offset is not modelled.
- Exec.Exec: requires each argument string to be shorter than 2^31 - 1 bytes, since strlen returns an int.
- PgAccess.SysPgaccess: requires a page count that is not negative and addresses below MAXVA, beyond which walk panics; accesses by the hardware between two calls are not modelled.
- History.Userinit: leaves out the name and directory of the first process.
- Alarm.Proc.Syscall: takes every other system call to write nothing but a0, so exec's new registers and exit are not modelled.
- SchedSafety.DistinctPids: nextpid is unbounded, so the wrap after 2^31 forks is not modelled.
- Other CPUs: the exact frame counts of the memory operations (Walk to Exec, Fork and Boot) hold when no other CPU allocates or frees during the call; the calls of a history run one after another. In Smp a step is one write; the states inside freewalk, where a freed page-table page still has an entry leading to it, are not among its states.
- sys_exec, which collects argv and bounds it, and sys_sbrk's return value.
- sleep on channels other than wait's and the clock's (pipes, disk, logs, closing files in exit), whose code is not part of this model.
- The exit of initproc, which panics: initproc is taken never to exit.
- Memory and the process protocol are two models; that the allocations of fork may fail at any time is what links them.
- Physical memory is assumed smaller than 255 GB, which keeps every process smaller than the user address space, and for growproc, exec and histories, whose code keeps sizes in 32 bits, smaller than 4 GB (it is 128 MB in the source).
- TLB flushes, satp, the trampoline and swtch assembly, device interrupts other than the clock, kernel page tables, boot code and console output.
- In the process protocol the page allocations of one fork are a single step, which succeeds or fails as a whole; freeproc is one step too.
- Fairness of the scheduler and of locks.
- In the sieve pipe and fork succeed and an int is read or written at once; file descriptors inherited and never closed are not counted.
- find, pingpong, sleep, xargs, trace and the system call tables.
