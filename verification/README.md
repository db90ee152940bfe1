# Mik OS verification project

A Dafny model of the kernels and machines in this repository, with proofs about
whole runs of them.

**The x86-64 kernel** (`PageTables`, `PhysMem`, `RoundRobin`, `InputRing`,
`ProcessView`, `HardwareWalk`, `Kernel`). RAM is a sequence of 4 KiB pages of
64-bit words. The free list is threaded through free frames, page tables live in
frames of the same pool, `fork` shares frames read-only and `exec` swaps the
address space. A ghost ledger gives every frame exactly one role. Ring 3 is a
sequence of loads, stores, register changes, TLB fills, traps and interrupts;
each access goes through the four-level walk or a cached translation, and
through the page-fault handler when it faults. `KernelSpec` is the system the
kernel stands for: every process has a private flat memory and `fork` copies it
at once. `Kernel.Run` proves that every run of the kernel is a run of that
system; `KernelRuns` draws the consequences, and `KernelCalls` says what each
call, interrupt, load and store of that system does in the registers and
addresses a program sees.

**Mik-FS and the file calls** (`MikFsLayout`, `MikFs`, `FileCalls`, `FileTable`,
`FileLaws`). A cached directory and bump-allocated extents over a disk of
512-byte sectors, proved to be operations on a volume of named files; open,
close, fread and fwrite over it, what each of them does to descriptors, files
and disk bytes, and what reading back gives after any interleaving.

**Mik-64** (`Mik64Mmu`, `Mik64Tlb`, `Mik64Rights`, `Mik64Cpu`, `Mik64Encoding`,
`Mik64Bisim`, `Mik64Timer`, `Mik64Vm`). The machine as functions on byte memory,
once with its TLB and once walking every time, the bisimulation between the two,
the timer law, the interpreter as one object proved against those functions, and
what the bits of a page-table entry grant.

**The assemblers and the emitted kernel** (`Mik64Asm`, `MikAsm`, `MikAsmSteps`,
`LoadedCode`, `FlatCode`, `SupervisorCode`, `KernelCode`, `FillPt`,
`BootTables`, `ProcessSpace`, `PagePool`, `BuildTables`, `PteIndex`,
`PageFault`, `FaultRetry`, `KernelPath`, `IdentityMap`, `KernelBuilder`). Label
resolution down to the loaded word that the machine fetches and steps, what each
mnemonic does to the machine, and the Mik-64 kernel's subroutines executed
instruction by instruction with the machine's own step function: filling a page
table, building the boot tables and turning paging on, the page allocator,
building a process's tables and switching to them, the whole page-fault handler,
and the faulting instruction again. `SupervisorCode.Carries` is what makes that
short: code run on a flat machine does the same with paging on, with a TLB or
without, but for accessed and dirty bits. `KernelBuilder` ties the code executed
to what the builder emits.

Assumptions, stated in contracts: E820 entries are disjoint and lie under the 1
GiB identity map; files are created only under names whose NULs, if any, are
trailing; disk operations succeed; handlers run to completion; an image handed
to spawn or exec fits one page; Mik-64 program addresses lie below 2^62. Running
out of frames, a Rust arithmetic overflow (`sbrk`, the rewound `rip`) and a
fatal fault all halt for good.

Where code and documentation differ the code is followed: `sys_read` blocks and
is woken (`docs/architecture.md` has it polling), the image size is the code's,
the code and stack pages of `exec` keep whatever their frames held beyond the
image, and the Mik-64 page-fault handler overwrites x2, which the comment at
mik-os/src/lib.rs:17-18 does not list among the registers a fault may cost
(`PageFault.ContractMet`, `PageFault.ZeroX2Lost`).

Verify with `dafny verify dfyconfig.toml`.

## Model

| member | source | states |
|---|---|---|
| PhysMemory.PhysMem.Init | mik-os-x86/kernel/src/mem.rs:56-77 | seeding leaves a duplicate-free list of exactly the aligned frames wholly inside usable entries, at or above 1 MiB and outside the kernel image, and returns its length |
| PhysMemory.PhysMem.FreeFrame | mik-os-x86/kernel/src/mem.rs:29-32 | the frame becomes the head, its first word the old head; the ledger and every address space survive |
| PhysMemory.PhysMem.AllocFrame | mik-os-x86/kernel/src/mem.rs:35-43 | pops the most recently freed frame, or fails exactly when the list is empty; no frame is handed out twice without a free between |
| PhysMemory.PhysMem.ReuseCheck | mik-os-x86/kernel/src/main.rs:54-59 | the boot-time check always finds the freed frame reused; two frames are used up |
| PhysMemory.PhysMem.FindPte | mik-os-x86/kernel/src/mem.rs:120-130 | the slot of the leaf entry, or nothing when a level is missing |
| PhysMemory.PhysMem.BuildUserTable | mik-os-x86/kernel/src/mem.rs:142-150 | a new well-formed, empty address space that shares only the kernel directory; fails exactly when two frames are not left |
| PhysMemory.PhysMem.Map4k | mik-os-x86/kernel/src/mem.rs:101-115 | the leaf of one address becomes the given frame and flags, missing levels are allocated, every other leaf of every space is kept |
| PhysMemory.PhysMem.CopyLeaf | mik-os-x86/kernel/src/sched.rs:530-543 | the leaf gets a frame of its own with the same bytes, writable; every other leaf and every data frame is kept |
| PhysMemory.PhysMem.CloneUserTable | mik-os-x86/kernel/src/mem.rs:160-188 | parent and child end with the same leaves, none writable, other spaces untouched; takes exactly 3 + present directory entries frames and fails exactly when they are not there |
| PageTables.WritableLeafIsOnlyNamer | mik-os-x86/kernel/src/mem.rs:160-188 | ownership: a present writable leaf is the only leaf of any space that names its frame |
| PageTables.AllocKeeps | mik-os-x86/kernel/src/mem.rs:35-43 | the global invariant (one role a frame, acyclic free list, well-formed disjoint tables) survives a pop |
| PageTables.FreeKeeps | mik-os-x86/kernel/src/mem.rs:29-32 | the invariant survives a push |
| PageTables.NewSpaceKeeps | mik-os-x86/kernel/src/mem.rs:142-150 | the invariant survives a new address space |
| PageTables.NewPdKeeps | mik-os-x86/kernel/src/mem.rs:104-113 | the invariant survives linking a private directory |
| PageTables.NewPtKeeps | mik-os-x86/kernel/src/mem.rs:104-113 | the invariant survives linking a page table |
| PageTables.LeafWriteKeeps | mik-os-x86/kernel/src/mem.rs:114-114 | the invariant survives writing a leaf whose ownership is accounted for |
| HardwareWalk.WalkIsLeaf | mik-os-x86/kernel/src/mem.rs:132-150 | in a well-formed space the processor's walk is decided by the leaf alone, and ring 3 reaches nothing outside the private region |
| HardwareWalk.TlbInvisible | mik-os-x86/kernel/src/sched.rs:266-268 | with a coherent TLB every access ends as a walk would |
| HardwareWalk.AccessMeans | mik-os-x86/kernel/src/sched.rs:505-530 | a ring-3 access in the bits of its leaf: reached, or a page fault with the code pf_handler tests; nothing outside the user region is reached |
| HardwareWalk.TlbAfterSet | mik-os-x86/kernel/src/sched.rs:524-542 | dropping the changed page restores coherence after a leaf changes |
| RoundRobin.PickNearest | mik-os-x86/kernel/src/sched.rs:149-158 | schedule chooses the nearest READY slot ahead, the current one last, and none exactly when no slot is READY |
| RoundRobin.DispatchedWithinNproc | mik-os-x86/kernel/src/sched.rs:145-158 | a process that stays READY is dispatched within NPROC calls, whatever the others do |
| RoundRobin.ChosenAtMostOnce | mik-os-x86/kernel/src/sched.rs:145-158 | until then no other slot is chosen twice |
| Input.InputRing.Push | mik-os-x86/kernel/src/input.rs:13-22 | appends the byte, or drops it when 64 are queued |
| Input.InputRing.Pop | mik-os-x86/kernel/src/input.rs:26-38 | removes and returns the oldest byte, or nothing when empty |
| KernelCore.Kernel.EnterKernel | mik-os-x86/kernel/src/isr.S:119-161 | the saved frame holds exactly the interrupted registers; no page table or other process changes |
| KernelCore.Kernel.LeaveKernel | mik-os-x86/kernel/src/isr.S:137-219 | ring 3 resumes with exactly the saved frame |
| KernelCore.Kernel.NextReady | mik-os-x86/kernel/src/sched.rs:149-152 | the scan finds the slot round robin names, or none |
| KernelCore.Kernel.Schedule | mik-os-x86/kernel/src/sched.rs:145-182 | switches to the specified next process, parks when the rest wait, halts when all are gone; the source's last return is unreachable |
| KernelCore.Kernel.WakeOnInput | mik-os-x86/kernel/src/sched.rs:188-195 | every waiting process becomes READY and nothing else changes |
| KernelCore.Kernel.PushAndWake | mik-os-x86/kernel/src/serial.rs:34-39 | a device byte is queued and every reader wakes, so nobody waits beside a byte |
| KernelCore.Kernel.DrainRx | mik-os-x86/kernel/src/serial.rs:34-39 | a batch of bytes is queued in order |
| KernelCore.Kernel.TickInUser | mik-os-x86/kernel/src/sched.rs:201-217 | a tick drains input and yields |
| KernelCore.Kernel.InterruptInIdle | mik-os-x86/kernel/src/sched.rs:163-172 | an interrupt in the idle loop resumes the lowest READY slot or stays parked |
| KernelCore.Kernel.Spawn | mik-os-x86/kernel/src/sched.rs:105-140 | a new process with its code and stack pages, entry registers and empty heap in the first free slot |
| KernelCore.Kernel.SysExit | mik-os-x86/kernel/src/sched.rs:235-241 | the slot is freed and the next process runs |
| KernelCore.Kernel.SysYield | mik-os-x86/kernel/src/sched.rs:241-241 | the next process runs |
| KernelCore.Kernel.SysFork | mik-os-x86/kernel/src/sched.rs:242-273 | to the abstract system the child is a full copy told apart by rax; uses exactly 4 + present directory entries frames |
| KernelCore.Kernel.ExecImage | mik-os-x86/kernel/src/sched.rs:479-500 | the process has a fresh code and stack page, the image in front, entry registers and no heap; six frames |
| KernelCore.Kernel.SysRead | mik-os-x86/kernel/src/sched.rs:418-435 | delivers the oldest byte to the caller, or blocks it |
| KernelCore.Kernel.BlockOnInput | mik-os-x86/kernel/src/sched.rs:428-434 | the blocked frame differs from the trapping one only by rip - 2 |
| KernelCore.Kernel.SysSbrk | mik-os-x86/kernel/src/sched.rs:436-447 | returns the old break; grows by zero pages unless that passes the cap; halts on overflow |
| KernelCore.Kernel.DemandPage | mik-os-x86/kernel/src/sched.rs:514-525 | the touched heap page becomes a private zero page; one frame |
| KernelCore.Kernel.CopyPage | mik-os-x86/kernel/src/sched.rs:530-543 | the faulting process gets a private writable copy with the same bytes; nobody's memory changes; one frame |
| KernelCore.Kernel.PfHandler | mik-os-x86/kernel/src/sched.rs:508-560 | succeeds exactly on addresses the process may touch, leaving a present writable leaf; anything else halts |
| KernelCore.Kernel.Access | mik-os-x86/kernel/src/sched.rs:508-545 | an access to a mapped or heap address completes after at most one fault |
| KernelCore.Kernel.Load | mik-os-x86/kernel/src/sched.rs:508-545 | a ring-3 load yields the process's own word, or halts on an address it does not have |
| KernelCore.Kernel.Store | mik-os-x86/kernel/src/sched.rs:508-545 | a ring-3 store changes that word of that process and nothing of any other |
| KernelCore.Kernel.SyscallHandler | mik-os-x86/kernel/src/sched.rs:225-449 | each system call does what the abstract system does |
| KernelCore.Kernel.UstrOk | mik-os-x86/kernel/src/sched.rs:456-472 | accepts exactly the non-empty buffers inside the user region all of whose pages are present and user-accessible |
| KernelCore.Kernel.Step | mik-os-x86/kernel/src/sched.rs:145-560 | one event of the kernel is one event of the eager-copy system, or a halt for want of frames |
| KernelCore.Kernel.Run | mik-os-x86/kernel/src/sched.rs:145-560 | every run of the kernel, of any length, is a run of the eager-copy system, with the invariant kept throughout; it halts only where that system stops or where fewer frames are free than the event may need, and no event uses more than it may need |
| KernelCore.Kernel.ReadyStarts | mik-os-x86/kernel/src/sched.rs:565-578 | where the kernel takes events, nobody waits beside a byte, the runner is READY and it is parked only while nobody is: the whole-run properties apply |
| KernelCore.Kernel.Start | mik-os-x86/kernel/src/sched.rs:565-578 | enters the lowest READY slot with its saved frame, or fails when there is none |
| KernelCore.Kernel.SpawnAll | mik-os-x86/kernel/src/main.rs:99-101 | each program lands in its own slot at its entry point; seven frames a program |
| KernelCore.Kernel.Boot | mik-os-x86/kernel/src/main.rs:49-106 | boot succeeds exactly when 2 + 7 a program frames were seeded, and then the first program runs with the invariant every run keeps |
| KernelRuns.StepIsolated | mik-os-x86/kernel/src/sched.rs:145-560 | no event changes the memory or registers of a process that is not current |
| KernelRuns.RunIsolated | mik-os-x86/kernel/src/sched.rs:145-560 | over any stretch of a run in which a process does not run, its memory and registers stay as they were |
| KernelRuns.ForkedCopyKept | mik-os-x86/kernel/src/sched.rs:242-273 | until the child runs it keeps the memory the parent had at the fork, whatever the parent stores |
| KernelRuns.RunInputOk | mik-os-x86/kernel/src/sched.rs:188-195 | no lost wakeup and FIFO delivery over whole runs: in every state nobody waits beside a byte, and delivered bytes are a growing prefix of the accepted ones |
| KernelRuns.StepInputOk | mik-os-x86/kernel/src/sched.rs:188-195 | accepted bytes are delivered bytes followed by the queue, a waiting process means an empty queue, and each byte goes once, in order, to the current process |
| KernelRuns.StepScheduled | mik-os-x86/kernel/src/sched.rs:145-182 | one event either calls schedule, which then picks by round robin, or leaves the runner; the system parks only while nobody is READY |
| KernelRuns.StretchIsRun | mik-os-x86/kernel/src/sched.rs:145-182 | while a process stays READY the idle loop is never entered and the choices made are a run of round robin, over every stretch of every run |
| KernelRuns.ReadyIsDispatched | mik-os-x86/kernel/src/sched.rs:145-158 | in every run of the kernel's system a process that stays READY runs after one of any NPROC calls of schedule |
| KernelRuns.OthersOnceEach | mik-os-x86/kernel/src/sched.rs:145-158 | and until it runs no other slot is switched to twice |
| KernelRuns.RunSettled | mik-os-x86/kernel/src/sched.rs:163-172 | in every state of a run the system is parked only while nobody is READY |
| KernelCalls.ReadBlocks | mik-os-x86/kernel/src/sched.rs:418-434 | read with nothing queued: the caller waits with its pages and registers as they were, but for rip, which is back at the two-byte trap instruction |
| KernelCalls.ReadDelivers | mik-os-x86/kernel/src/sched.rs:423-427 | read with a byte queued: the oldest is in rax and off the queue |
| KernelCalls.BlockedReadRepeats | mik-os-x86/kernel/src/sched.rs:418-434 | in every run: while a blocked reader does not run it keeps pages and registers; when it runs, the trap instruction makes the same call, and a byte queued by then ends up in rax |
| KernelCalls.SbrkMeans | mik-os-x86/kernel/src/sched.rs:436-446 | rax is the first address that was unmapped; a request that fits below the cap maps that many whole zero pages from there and nothing beyond, any other maps none; old pages and the other registers are kept |
| KernelCalls.SbrkStops | mik-os-x86/kernel/src/sched.rs:436-446 | the machine stops exactly when rounding the request up, or adding it to the break, overflows |
| KernelCalls.ForkMeans | mik-os-x86/kernel/src/sched.rs:242-273 | the lowest free slot gets the caller's pages and registers with 0 in rax, the caller 1; with no free slot 2^64 - 1; nothing else changes |
| KernelCalls.ExitMeans | mik-os-x86/kernel/src/sched.rs:235-240 | the caller's slot is free, the nearest READY process runs, nothing else changes |
| KernelCalls.ExitStops | mik-os-x86/kernel/src/sched.rs:174-181 | the machine stops at an exit exactly when that was the last process |
| KernelCalls.YieldMeans | mik-os-x86/kernel/src/sched.rs:241-241 | nothing changes but who runs: the nearest READY process, or nobody while all wait |
| KernelCalls.ExecMeans | mik-os-x86/kernel/src/sched.rs:479-503 | the caller is two pages, the first beginning with the image, and the twenty registers of a fresh process |
| KernelCalls.OtherCalls | mik-os-x86/kernel/src/sched.rs:225-449 | file calls put their result in rax, exec_file of no file -1, an unknown number changes nothing |
| KernelCalls.TrapStops | mik-os-x86/kernel/src/sched.rs:225-449 | in every state of a run a trap stops the machine exactly when the last process exits, sbrk overflows, or a blocking read has rip below 2 |
| KernelCalls.TrapGoes | mik-os-x86/kernel/src/sched.rs:225-449 | every other trap goes on, an exec if its image fits a page |
| KernelCalls.InterruptsGo | mik-os-x86/kernel/src/sched.rs:201-217 | ticks and device interrupts always go on |
| KernelCalls.TickMeans | mik-os-x86/kernel/src/sched.rs:201-217 | the UART's bytes are queued up to 64 and wake every waiting process, then the nearest READY process runs; a parked system resumes the lowest READY slot |
| KernelCalls.DeviceMeans | mik-os-x86/kernel/src/sched.rs:188-195 | a device byte is queued and wakes every waiting process, and whoever runs goes on |
| KernelCalls.AccessStops | mik-os-x86/kernel/src/sched.rs:508-562 | an access is fatal exactly below the code page or from the break on |
| KernelCalls.StoreThenLoad | mik-os-x86/kernel/src/sched.rs:508-562 | after a store, through demand paging and copy-on-write alike, a load gives the word stored if it is of the same aligned word and what it gave before otherwise |
| MikFsLayout.MatchIsName | mik-os-x86/kernel/src/fs.rs:68-73 | for every name, the comparison in find decides equality with the name less its trailing NULs |
| MikFsLayout.NewEntryPadded | mik-os-x86/kernel/src/fs.rs:86-88 | an entry as created is sound exactly when the name, less its trailing NULs, is non-empty and has no NUL |
| MikFsLayout.NewEntryFields | mik-os-x86/kernel/src/fs.rs:86-89 | a created entry has the extent given, length 0, and the name asked for exactly when that has no NUL |
| MikFsLayout.FsOkVol | mik-os-x86/kernel/src/fs.rs:5-14 | live names are distinct and short, lengths fit, and NEXT_FREE = 260 + 8 * live files <= 516 |
| MikFsLayout.FlushSyncs | mik-os-x86/kernel/src/fs.rs:49-53 | writing through the sector of a changed entry keeps directory and disk equal |
| MikFsLayout.ExtentWrite | mik-os-x86/kernel/src/fs.rs:123-131 | a read-modify-write of one sector changes one byte of the extent |
| MikFs.CreateExact | mik-os-x86/kernel/src/fs.rs:82-89 | create makes the file asked for and leaves a sound directory if and only if the name is new and NUL-free |
| MikFs.CreateSound | mik-os-x86/kernel/src/fs.rs:82-89 | for every name, create leaves a sound directory if and only if the name less its trailing NULs is non-empty, has no NUL and is new; that is then the file's name |
| MikFs.NulNamesFail | mik-os-x86/kernel/src/fs.rs:69-83 | concrete names with a NUL that alias another file or leave the slot looking free |
| MikFs.ExtentsWrite | mik-os-x86/kernel/src/fs.rs:123-131 | a sector of one extent shows in no other extent |
| MikFs.CreateEffect | mik-os-x86/kernel/src/fs.rs:78-93 | create on disk and directory is adding a file to the volume, under both exact conditions |
| MikFs.LeftClean | mik-os-x86/kernel/src/fs.rs:200-210 | between operations the disk alone determines the volume, so mounting it again gives the same files |
| MikFs.Fs.Find | mik-os-x86/kernel/src/fs.rs:63-74 | for every name, returns the file called by the name less its trailing NULs; none when that is empty or has a NUL |
| MikFs.Fs.Create | mik-os-x86/kernel/src/fs.rs:78-93 | adds an empty file of that name if and only if the name is new and NUL-free, and leaves a sound volume if and only if the name less trailing NULs is; fails exactly when unmounted, misnamed or full |
| MikFs.Fs.Truncate | mik-os-x86/kernel/src/fs.rs:97-101 | sets one length to zero and changes nothing else of the volume |
| MikFs.Fs.ReadAt | mik-os-x86/kernel/src/fs.rs:104-114 | the byte at a position, nothing at or past the end |
| MikFs.Fs.WriteAt | mik-os-x86/kernel/src/fs.rs:118-137 | sets one byte of one file and grows it to cover the byte; refused exactly past 4096 |
| MikFs.Fs.ReadFile | mik-os-x86/kernel/src/fs.rs:140-154 | the same bytes as successive read_at, as many as fit the buffer, the rest of which is untouched |
| MikFs.Fs.Seed | mik-os-x86/kernel/src/fs.rs:172-178 | a new file with as much of the content as fits; other extents untouched |
| MikFs.Fs.Init | mik-os-x86/kernel/src/fs.rs:183-214 | a disk with the magic is mounted unchanged to exactly its files; any other is formatted to the two seeded files; returns the live count |
| FileCalls.StepOk | mik-os-x86/kernel/src/sched.rs:284-360 | every call keeps names distinct, files within extents and open descriptors on live files |
| FileCalls.FileKept | mik-os-x86/kernel/src/fs.rs:97-137 | a call that does not write or truncate a file leaves its name, length and bytes alone |
| FileCalls.FdKept | mik-os-x86/kernel/src/sched.rs:284-360 | a call leaves every descriptor it is not about alone, including those of other processes |
| FileCalls.NameStep | mik-os-x86/kernel/src/fs.rs:78-137 | no call renames a file or moves it in the directory |
| FileCalls.WritePhase | mik-os-x86/kernel/src/sched.rs:344-360 | after any interleaving, the file holds exactly the bytes written through the descriptor, up to 4096 |
| FileCalls.GapPhase | mik-os-x86/kernel/src/fs.rs:183-210 | a file nobody writes survives forks, exits and remounts |
| FileCalls.ReadPhase | mik-os-x86/kernel/src/sched.rs:328-343 | reads through a descriptor return the content in order, then end of file |
| FileCalls.FdRoundTrip | mik-os-x86/kernel/src/sched.rs:284-360 | open for write, fwrite, close, open for read, fread: the bytes come back in order and then end of file, for every interleaving that leaves the file and the descriptors alone |
| FileTables.FileTable.Open | mik-os-x86/kernel/src/sched.rs:284-316 | open resolves, truncates or creates the file even when no descriptor is free, and returns the first free descriptor |
| FileTables.FileTable.Close | mik-os-x86/kernel/src/sched.rs:317-327 | frees exactly an open descriptor |
| FileTables.FileTable.Fread | mik-os-x86/kernel/src/sched.rs:328-343 | a byte and an advanced cursor, or -1 and no change |
| FileTables.FileTable.Fwrite | mik-os-x86/kernel/src/sched.rs:344-360 | one byte written at the cursor, or -1 and no change |
| FileTables.FileTable.Inherit | mik-os-x86/kernel/src/sched.rs:263-263 | the child starts with the parent's descriptors |
| FileTables.FileTable.Image | mik-os-x86/kernel/src/sched.rs:361-380 | exec_file loads exactly the file's content |
| FileTables.FileTable.Do | mik-os-x86/kernel/src/sched.rs:284-380 | one call, whichever it is, does what the specification says |
| FileTables.FileTable.DoAll | mik-os-x86/kernel/src/sched.rs:284-380 | a whole history of calls by any processes gives the state and every answer of the specification, which FdRoundTrip speaks of |
| FileTables.Remounted | mik-os-x86/kernel/src/fs.rs:183-210 | the disk of a running system, mounted on another machine, gives the same files |
| FileLaws.CloseMeans | mik-os-x86/kernel/src/sched.rs:317-327 | 0 exactly for an open descriptor; afterwards it is not open, reading and writing through it fail, and the volume and every other descriptor are as they were |
| FileLaws.CloseFrees | mik-os-x86/kernel/src/sched.rs:317-327 | after a close that returned 0 an open whose file part can be done succeeds |
| FileLaws.OpenMeans | mik-os-x86/kernel/src/sched.rs:284-316 | success exactly for a name of 1 to 24 bytes whose file part can be done while a descriptor is unused; the lowest one, on the file of that name, at its start |
| FileLaws.OpenFiles | mik-os-x86/kernel/src/sched.rs:296-306 | what open does to the volume: nothing for reading; for writing it empties that file or adds an empty one, and leaves the others alone |
| FileLaws.FreadMeans | mik-os-x86/kernel/src/sched.rs:328-343 | the byte of the content at the cursor, which moves on by one; -1 and no change at the end or through any other descriptor |
| FileLaws.FwriteMeans | mik-os-x86/kernel/src/sched.rs:344-360 | one byte of one file at the cursor, up to 4096, which moves on by one; -1 and no change otherwise |
| FileLaws.TablesMean | mik-os-x86/kernel/src/sched.rs:263-263 | a forked child has its parent's descriptors, a spawned process and a remounted machine none |
| FileLaws.DiskBytes | mik-os-x86/kernel/src/fs.rs:1-60 | a volume on its disk, byte by byte: magic, first free sector, each name, sector, length and content |
| Mik64Mmu.MarkSame | mik-emu/src/lib.rs:222-236 | writing A and D back changes nothing else of an entry |
| Mik64Tlb.MarkedSameTables | mik-emu/src/lib.rs:222-283 | the A/D write-back leaves every table entry the same up to A and D, self-referencing tables included |
| Mik64Tlb.WalkSameTables | mik-emu/src/lib.rs:239-303 | walks through tables that agree up to A and D find the same leaf with the same rights |
| Mik64Tlb.HitAgrees | mik-emu/src/lib.rs:208-237 | a hit under coherence replies and marks exactly as the walk |
| Mik64Tlb.MissAgrees | mik-emu/src/lib.rs:239-303 | a miss walks, marks and fills so that the TLB stays coherent |
| Mik64Tlb.TranslateAgrees | mik-emu/src/lib.rs:194-307 | for every access, mode and address a coherent TLB gives the reply and memory of a pure walk and stays coherent |
| Mik64Rights.WordBytes | mik-emu/src/lib.rs:152-158 | a 64-bit word is its eight bytes, the lowest first |
| Mik64Rights.WalkMeans | mik-emu/src/lib.rs:239-303 | a walk ends at a leaf exactly when bits 39-47, 30-38, 21-29 and 12-20 of the address select four present entries, each in the page the one before names |
| Mik64Rights.Replies | mik-emu/src/lib.rs:194-307 | with a coherent TLB or none: code 4 beyond 48 bits, 1 where no page is, and otherwise 5, 2 or 3 in that order or the page's address, by the leaf's bits |
| Mik64Rights.GoesThrough | mik-emu/src/lib.rs:211-271 | an access goes through exactly when the walk ends at a leaf with U in user mode, W for a store and no NX for a fetch |
| Mik64Rights.Marks | mik-emu/src/lib.rs:220-283 | it sets bit 3 of that leaf, and bit 4 for a store, and changes no other byte; a denied one changes nothing |
| Mik64Rights.UserReach | mik-os/src/lib.rs:527-553 | in a process's space user mode gets code 5 everywhere below 8 MiB, what its entry of PT4 grants up to 10 MiB, and nothing beyond |
| Mik64Bisim.WalkFrame | mik-emu/src/lib.rs:242-303 | a walk depends only on the entries it visits |
| Mik64Bisim.AbsentEntryIsSafe | mik-emu/src/lib.rs:258-260 | filling in an entry whose P bit is clear lies on no cached walk, so demand mapping needs no flush |
| Mik64Bisim.StoreOverLeaf | mik-emu/src/lib.rs:208-237 | a store over a cached page's leaf leaves the cached entry right if and only if it grants the same page with the same rights |
| Mik64Bisim.HarmlessWalk | mik-emu/src/lib.rs:242-303 | a store off the tables, or over an absent last-level entry, leaves every walk that finds a page |
| Mik64Bisim.HarmlessOffWalks | mik-emu/src/lib.rs:204-237 | such a store lies on no cached walk |
| Mik64Bisim.HarmlessTables | mik-emu/src/lib.rs:242-303 | such a store leaves the pages walks look into the same |
| Mik64Bisim.StepAgrees | mik-emu/src/lib.rs:339-578 | one step with a coherent TLB, unless it stores over a cached walk, does what the always-walking machine does |
| Mik64Bisim.RunsAgree | mik-emu/src/lib.rs:339-578 | whole runs: same registers, pc, memory, CSRs, timer, modes and output after every step, or both stop with an error |
| Mik64Bisim.ImageRunsAgree | mik-emu/src/lib.rs:113-141 | the same from reset, for every image |
| Mik64Timer.TimerLaw | mik-emu/src/lib.rs:543-575 | k completed instructions after WRCSR TIMER, n the counter is n - k mod n |
| Mik64Timer.ExpiryLaw | mik-emu/src/lib.rs:568-575 | the tick is raised exactly when the count reaches a multiple of n |
| Mik64Timer.NoTickInHandler | mik-emu/src/lib.rs:343-347 | from a trap, fault or interrupt to the next ERET, IRET or SRET no tick is delivered, and a due one stays pending |
| Mik64Timer.HandlerReturns | mik-emu/src/lib.rs:482-519 | a handler that neither traps nor faults returns to the saved pc and mode |
| Mik64Timer.InterruptReturns | mik-emu/src/lib.rs:311-320 | an interrupt with such a handler is transparent to control flow |
| Mik64Encoding.EncodeSum | mik-emu/src/lib.rs:20-27 | encoded fields never overlap |
| Mik64Encoding.DecodeEncode | mik-emu/src/lib.rs:375-379 | decoding gives back every field, the immediate exactly when it fits 44 signed bits |
| Mik64Encoding.TakenBranch | mik-emu/src/lib.rs:466-481 | a taken branch reaches its target exactly when that is a whole number of words away and in range |
| Mik64Vm.Vm.constructor | mik-emu/src/lib.rs:113-133 | a reset machine |
| Mik64Vm.Vm.FlushTlb | mik-emu/src/lib.rs:182-186 | every entry is emptied, nothing else changes |
| Mik64Vm.Vm.WalkTables | mik-emu/src/lib.rs:239-303 | the level loop finds what the recursive walk finds |
| Mik64Vm.Vm.Translate | mik-emu/src/lib.rs:194-307 | reply, memory and TLB are those of the specification |
| Mik64Vm.Vm.Enter | mik-emu/src/lib.rs:311-320 | entry to a handler through its vector |
| Mik64Vm.Vm.DeliverPageFault | mik-emu/src/lib.rs:325-337 | fault code and address in x10 and x11, entry through the fault vector |
| Mik64Vm.Vm.WriteCsr | mik-emu/src/lib.rs:539-553 | CSR writes with their timer and TLB effects |
| Mik64Vm.Vm.Execute | mik-emu/src/lib.rs:384-561 | every opcode does what the specification's step does |
| Mik64Vm.Vm.Step | mik-emu/src/lib.rs:339-578 | one call is one step of the specification, errors included |
| Mik64Vm.Vm.Run | mik-emu/src/lib.rs:583-590 | the run loop is the specification's run |
| Mik64Asm.WithImmSum | mik-os/src/lib.rs:134-140 | patching keeps the twenty high bits and replaces the immediate |
| Mik64Asm.PatchEncoded | mik-os/src/lib.rs:114-117 | patching an encoded instruction is encoding it with the new immediate |
| Mik64Asm.Asm.Label | mik-os/src/lib.rs:69-71 | the name stands for the next word |
| Mik64Asm.Asm.Emit | mik-os/src/lib.rs:73-75 | appends a word |
| Mik64Asm.Asm.Jmp | mik-os/src/lib.rs:77-81 | appends a jump awaiting its label |
| Mik64Asm.Asm.Beq | mik-os/src/lib.rs:83-87 | appends a branch awaiting its label |
| Mik64Asm.Asm.Bne | mik-os/src/lib.rs:89-93 | appends a branch awaiting its label |
| Mik64Asm.Asm.Li | mik-os/src/lib.rs:95-99 | appends a load awaiting its label |
| Mik64Asm.Asm.PatchImm | mik-os/src/lib.rs:134-140 | replaces one immediate |
| Mik64Asm.Asm.Resolve | mik-os/src/lib.rs:101-119 | every pending instruction gets its label's immediate and no other word changes; fails exactly on an undefined label |
| Mik64Asm.Asm.Binary | mik-os/src/lib.rs:121-128 | the words little-endian, then the tail |
| Mik64Asm.ResolvedBranch | mik-os/src/lib.rs:106-111 | a resolved branch, taken, lands on its label exactly when that is less than 2^43 words away |
| Mik64Asm.ResolvedLi | mik-os/src/lib.rs:112-112 | a resolved li loads its label's address exactly when that is below 2^43 |
| Mik64Asm.StepResolved | mik-os/src/lib.rs:101-128 | resolved, written out, loaded, fetched and stepped, a taken branch lands on its label exactly when that is less than 2^43 words away; a misaligned load address is an error |
| Mik64Asm.StepResolvedLi | mik-os/src/lib.rs:101-128 | the same for li: the loaded word leaves its label's address exactly when that is below 2^43 |
| LoadedCode.StepsWord | mik-emu/src/lib.rs:351-375 | a step executes the word the image has at pc; a pc that is not word-aligned is an error |
| MikAsm.NumberRoundTrip | mik-asm/src/lib.rs:304-326 | reading a written number back gives it, in every base, exactly when it fits 64 signed bits |
| MikAsm.EncodedIsLegal | mik-asm/src/lib.rs:105-196 | every emitted word decodes to a legal opcode and the parsed registers |
| MikAsm.Assemble | mik-asm/src/lib.rs:17-103 | each item's bytes sit at its computed address, encoded for that address; the error and dangling-label cases exactly |
| MikAsm.CollectItems | mik-asm/src/lib.rs:18-71 | the first pass |
| MikAsm.Addresses | mik-asm/src/lib.rs:73-82 | each item's address is the base plus the sizes before it |
| MikAsm.Encode2 | mik-asm/src/lib.rs:90-102 | the second pass, rejecting exactly when some instruction does not encode |
| MikAsm.BranchToLabel | mik-asm/src/lib.rs:250-302 | a taken branch to a label lands on the label's address exactly when it is word-aligned and in range (the division truncates) |
| MikAsm.LoadOfLabel | mik-asm/src/lib.rs:287-293 | li of a label loads its address exactly when that is below 2^43 |
| MikAsm.StepBranch | mik-asm/src/lib.rs:17-103 | for every program assemble accepts: the branch at item k, loaded, fetched and stepped, goes, if taken, to the label's address exactly when that is word-aligned from it and in range, else to the next item; a misaligned item is an error |
| MikAsm.StepLi | mik-asm/src/lib.rs:17-103 | the same for li of a label |
| MikAsm.FlatItem | mik-emu/src/lib.rs:135-141 | an image loaded at its base, paging off, is where these two need it |
| MikAsm.AluMeans | mik-asm/src/lib.rs:198-209 | an assembled arithmetic instruction computes on the registers written, in order |
| MikAsm.LoadMeans | mik-asm/src/lib.rs:211-235 | an assembled load or addi uses its operands in order |
| MikAsm.StoreMeans | mik-asm/src/lib.rs:237-248 | an assembled store uses its operands in order |
| MikAsmSteps.ItemDoes | mik-asm/src/lib.rs:105-196 | a step at an assembled instruction executes the operation its operands parse to |
| MikAsmSteps.AddStep | mik-asm/src/lib.rs:124-124 | `add` leaves the sum on 64 bits in rd, and the whole state besides is given |
| MikAsmSteps.SubStep | mik-asm/src/lib.rs:126-126 | `sub` leaves the difference on 64 bits |
| MikAsmSteps.AddiStep | mik-asm/src/lib.rs:125-125 | `addi` leaves the sum with a signed 44-bit number |
| MikAsmSteps.AndStep | mik-asm/src/lib.rs:127-127 | `and` leaves the word with exactly the bits both operands have |
| MikAsmSteps.OrStep | mik-asm/src/lib.rs:128-128 | `or` leaves the word with exactly the bits either has |
| MikAsmSteps.BitsDetermine | mik-emu/src/lib.rs:406-413 | those bits determine the word |
| MikAsmSteps.LiStep | mik-asm/src/lib.rs:117-122 | `li` of a number leaves it, cut to 44 signed bits |
| MikAsmSteps.Load64Step | mik-asm/src/lib.rs:131-131 | `load64` leaves the eight-byte word at the translated address, or delivers the fault |
| MikAsmSteps.Load8Step | mik-asm/src/lib.rs:130-130 | `load8` leaves the byte there, or what the serial port reads as |
| MikAsmSteps.Store64Step | mik-asm/src/lib.rs:133-133 | `store64` writes eight bytes and no other |
| MikAsmSteps.Store8Step | mik-asm/src/lib.rs:132-132 | `store8` writes the low byte, to memory or out of the serial port |
| MikAsmSteps.HaltStep | mik-asm/src/lib.rs:115-115 | `halt` stops the machine |
| MikAsmSteps.TrapStep | mik-asm/src/lib.rs:146-151 | `trap n`: n in x10, supervisor mode at the handler of 0x2000, epc behind the instruction |
| MikAsmSteps.IntStep | mik-asm/src/lib.rs:185-190 | `int n`: the same at the handler of 0x2020 |
| MikAsmSteps.JmprStep | mik-asm/src/lib.rs:153-158 | `jmpr` jumps to the register |
| MikAsmSteps.EretStep | mik-asm/src/lib.rs:160-160 | `eret` returns to epc in the mode before, interrupts on |
| MikAsmSteps.IretStep | mik-asm/src/lib.rs:192-192 | `iret` does the same |
| MikAsmSteps.SretStep | mik-asm/src/lib.rs:178-183 | `sret` jumps to the register in user mode, interrupts on |
| MikAsmSteps.SfenceStep | mik-asm/src/lib.rs:176-176 | `sfence` empties the TLB |
| MikAsmSteps.RdcsrStep | mik-asm/src/lib.rs:162-167 | `rdcsr` reads the timer's counter, epc, or what was written |
| MikAsmSteps.WrcsrStep | mik-asm/src/lib.rs:169-174 | `wrcsr` writes a CSR, starts the timer through CSR 2 and empties the TLB through CSR 0 or 1 |
| MikAsmSteps.JmpStep | mik-asm/src/lib.rs:138-144 | `jmp` hops towards a label or a number |
| MikAsmSteps.BeqStep | mik-asm/src/lib.rs:135-135 | `beq` does if its registers hold the same |
| MikAsmSteps.BneStep | mik-asm/src/lib.rs:136-136 | `bne` does if they do not |
| MikAsmSteps.HopLands | mik-asm/src/lib.rs:295-302 | a hop lands on its target exactly when that is a whole number of words away and within 2^46 bytes |
| MikAsmSteps.InterruptStep | mik-emu/src/lib.rs:339-347 | a pending interrupt goes to the handler of 0x2020 and is no longer pending |
| MikAsmSteps.FetchFaults | mik-emu/src/lib.rs:352-359 | a fetch that faults leaves code and address in x10 and x11 and goes to the handler of 0x2010 |
| MikAsmSteps.FetchFails | mik-emu/src/lib.rs:361-367 | a fetch beyond RAM or off a word boundary is an error |
| MikAsmSteps.IllegalFails | mik-emu/src/lib.rs:558-560 | a word whose top byte is no operation is an error |
| MikAsmSteps.WordFields | mik-asm/src/lib.rs:105-196 | the word of each mnemonic: its operation number, its registers and 44 bits of immediate |
| MikAsmSteps.EncodesExactly | mik-asm/src/lib.rs:105-248 | an instruction is encoded exactly with the operands its mnemonic takes |
| MikAsmSteps.RegisterNames | mik-asm/src/lib.rs:268-285 | x and a decimal up to 15, or sp |
| MikAsmSteps.NumberNames | mik-asm/src/lib.rs:304-326 | decimal, 0x and 0b numbers read back |
| MikAsmSteps.PassItems | mik-asm/src/lib.rs:18-71 | the first pass keeps the items in order |
| MikAsmSteps.PassLabels | mik-asm/src/lib.rs:40-47 | a label stands for the number of items before the last line it is on |
| FillPt.FillPtRuns | mik-os/src/lib.rs:298-308 | fill_pt ends after 3075 steps at x15, having filled the 512 entries with consecutive pages, all else untouched |
| FillPt.FilledHolds | mik-os/src/lib.rs:301-307 | entry i is page start + 4096 * i with P and W |
| FillPt.FilledApart | mik-os/src/lib.rs:301-307 | no byte outside the table changes |
| KernelBuilder.HoldsStays | mik-os/src/lib.rs:73-75 | what has been emitted stays as it is whatever is emitted next |
| KernelBuilder.AwaitsStays | mik-os/src/lib.rs:77-99 | and goes on awaiting exactly the labels it awaits |
| KernelBuilder.Listed | mik-os/src/lib.rs:101-128 | emitted anywhere in a program, resolved, written out and loaded, instructions lie in memory at the addresses of their words, each with its label's immediate |
| KernelBuilder.EmitBoot | mik-os/src/lib.rs:208-274 | the builder emits the boot code as executed, with its four calls of fill_pt pending |
| KernelBuilder.BootLoaded | mik-os/src/lib.rs:564-569 | resolved and loaded, boot code and fill_pt are in memory as executed |
| KernelBuilder.EmitFillPt | mik-os/src/lib.rs:298-308 | the builder emits exactly those words and one pending branch |
| KernelBuilder.FillPtLoaded | mik-os/src/lib.rs:564-569 | resolved and loaded, they are in memory as their execution needs, at any aligned load address |
| KernelBuilder.EmitAlloc | mik-os/src/lib.rs:279-290 | the builder emits alloc_page as executed, with one pending branch |
| KernelBuilder.EmitFree | mik-os/src/lib.rs:292-296 | the builder emits free_page as executed |
| KernelBuilder.EmitPfHandler | mik-os/src/lib.rs:343-377 | the builder emits the page-fault handler as executed, with its six pending instructions |
| KernelBuilder.EmitBuildTables | mik-os/src/lib.rs:527-553 | the builder emits build_tables as executed |
| KernelBuilder.PoolLoaded | mik-os/src/lib.rs:564-569 | resolved and loaded, alloc_page and free_page are in memory as executed |
| KernelBuilder.HandlerLoaded | mik-os/src/lib.rs:564-569 | the same for the page-fault handler |
| KernelBuilder.BuildTablesLoaded | mik-os/src/lib.rs:564-569 | the same for build_tables |
| IdentityMap.KernelWalk | mik-os/src/lib.rs:217-268 | through the built tables a walk below 8 MiB ends at its own page's leaf |
| IdentityMap.IdentityTranslates | mik-os/src/lib.rs:217-274 | translate(va) = va for every supervisor access below 8 MiB |
| IdentityMap.SwitchKeepsKernel | mik-os/src/lib.rs:412-416 | below 8 MiB the kernel's and every process's tables lead to the same entries |
| IdentityMap.UserWalk | mik-os/src/lib.rs:543-552 | from 8 to 10 MiB a process's walk ends in its own PT4 |
| IdentityMap.UserPageMapped | mik-os/src/lib.rs:548-552 | the first user page is mapped, writable, for the user |
| BootTables.FillCallRuns | mik-os/src/lib.rs:218-221 | a call of fill_pt returns behind the call with the table filled |
| BootTables.BootBuildsIdentity | mik-os/src/lib.rs:208-274 | the boot code ends after 12345 steps with paging on and the identity chain in place |
| BootTables.KernelStarts | mik-os/src/lib.rs:208-275 | built in blank pages, the boot tables map the kernel half and nothing else, and the kernel goes on with paging on, TLB or not |
| ProcessSpace.SpaceTables | mik-os/src/lib.rs:217-268 | every entry any walk of such tables looks at lies in their eight pages |
| ProcessSpace.EntryHarmless | mik-os/src/lib.rs:371-376 | an absent entry of PT4 may be filled in without a walk, cached or not, going wrong |
| BuildTables.BuildTablesRuns | mik-os/src/lib.rs:523-553 | in the running kernel, paging on or off, TLB or not, build_tables returns after thirty steps with its eight entries stored and, but for A and D bits of leaf tables, nothing else; they are the process's chain |
| BuildTables.BuiltElsewhere | mik-os/src/lib.rs:527-553 | every word but those eight is as it was |
| BuildTables.BuiltChain | mik-os/src/lib.rs:527-553 | the kernel's four directory entries are shared, PT4 is fifth and the user page first in it |
| BuildTables.NewSpace | mik-os/src/lib.rs:527-553 | built in blank pages, the new tables map the kernel half, the region of PT4 and nothing else |
| BuildTables.SwitchRuns | mik-os/src/lib.rs:412-416 | sched_restore's switch to the new tables leaves the kernel going on at the next instruction in the new space |
| BuildTables.SwitchIsInvisible | mik-os/src/lib.rs:412-416 | after build_tables switching PTBR either way never moves the running kernel |
| SupervisorCode.KernTranslate | mik-os/src/lib.rs:270-274 | under the identity map every kernel access, TLB or not, goes to its own address and changes at most A and D bits |
| SupervisorCode.Carries | mik-emu/src/lib.rs:339-578 | kernel code that stores nowhere but off the tables or into absent last-level entries does with paging on, TLB or not, what it does on a flat machine, but for A and D bits |
| SupervisorCode.CarriesFor | mik-emu/src/lib.rs:568-575 | with interrupts on and the timer running too, for as long as no tick is due |
| PteIndex.IndexRuns | mik-os/src/lib.rs:357-367 | with paging on or off the shift-free loop ends with x3 = pt4 + 8 * ((va >> 12) & 511) for every va |
| PageFault.RegionTest | mik-os/src/lib.rs:349-352 | below 2^40 the mask test accepts exactly 8 to 10 MiB |
| PageFault.RegionTestWraps | mik-os/src/lib.rs:349-352 | an address above 2^40 that the mask test accepts |
| PageFault.ChecksRun | mik-os/src/lib.rs:343-352 | a not-present fault in the region goes on, anything else goes to pf_print, with a TLB or without |
| PagePool.AllocPops | mik-os/src/lib.rs:279-284 | in the running kernel, with free pages and no tick due, alloc_page returns the most recently freed one, keeps the rest of the list and changes one word |
| PagePool.AllocBumps | mik-os/src/lib.rs:286-290 | with none, it returns the next unused page and bumps the pointer; interrupts may be on and the timer running, the next tick more than six steps away |
| PagePool.FreePushes | mik-os/src/lib.rs:292-296 | in the running kernel free_page puts the page where the next alloc_page takes it from; the list stays duplicate-free |
| PageFault.HandlerMaps | mik-os/src/lib.rs:343-377 | with a TLB or without, the whole handler ends at the faulting pc in its mode with the entry filled, the pool one page shorter, four words written, the TLB coherent and everything as the next fault needs it |
| PageFault.FaultMeansAbsent | mik-emu/src/lib.rs:258-260 | a not-present fault in the region means va's entry of PT4 is absent, whatever the TLB holds |
| PageFault.FaultDelivered | mik-emu/src/lib.rs:325-337 | delivering it gives the handler exactly what it starts from |
| PageFault.RetrySucceeds | mik-os/src/lib.rs:371-377 | the retried access goes through, in user mode too, for every kind of access |
| PageFault.FaultProgress | mik-os/src/lib.rs:343-377 | from the fault to the retry: an access to the region that finds no page takes one fault and is retried in its own mode with its page mapped |
| PageFault.ContractMet | mik-os/src/lib.rs:13-18 | the handler keeps every register but x1, x3, x10, x11 and x15 if and only if x2 held the new entry already |
| PageFault.ZeroX2Lost | mik-os/src/lib.rs:13-18 | a program that faults with x2 zero goes on at the same pc with x2 not zero |
| FaultRetry.RegionFetch | mik-emu/src/lib.rs:194-307 | a fetch in the region succeeds exactly through a present, permitting entry of PT4 |
| FaultRetry.FaultStep | mik-emu/src/lib.rs:325-337 | the step that faults delivers the fault with pc as it was, and the space stands |
| FaultRetry.AccessCompletes | mik-os/src/lib.rs:343-377 | a load or store of the region that finds no page takes one fault and, at the same pc in the same mode, its very next step (unless a tick is due) completes it on the new page; its address must not be in a register a fault costs |
| KernelPath.RouteEnds | mik-os/src/lib.rs:412-416 | from any kernel state, through build_tables and whatever gentle code comes before and after it, the switch ends in the new process's space |
| KernelPath.BootReaches | mik-os/src/lib.rs:208-275 | one run: boot code, gentle kernel code, build_tables, gentle kernel code, switch; it ends in a space the page-fault theorems start from |

## Left out

- Boot assembly, GDT and TSS, IDT, PIC, PIT, PCI and ATA port sequences: hardware I/O; the disk is a reliable array of sectors, CR3 loads and `invlpg` are operations on an abstract TLB.
- VGA, serial output, keyboard tables, `ls` formatting and the user shell: user interface; device handlers are bytes pushed and readers woken.
- The QEMU runner, path lookup, ELF extraction and image building: host tooling.
- Line tokenising, comments, `.string` parsing and error texts of the assembler; the overflow panic on an absolute target near the ends of the 64-bit range.
- Ring-3 accesses narrower than, or across, an aligned 64-bit word; images are sequences of words.
- x86 accessed and dirty bits, paging-structure caches, and use of a kernel stack below its saved frame.
- Faults of ring 3 other than page faults, which also halt the x86-64 kernel.
- What memory holds after a panic in the middle of a handler.
- Timer ticks before the scheduler is armed.
- Preconditions of `KernelCore.Kernel.Boot` that come from the build: the kernel directory lies in the kernel image and program images fit a page.
- Mik-FS without a disk: every call fails; the file-call table is modelled only over a mounted volume.
- FileTables.FileTable.Open: a file is created only under a name with no NUL but at its end, because with any other `create` breaks the directory (MikFs.CreateSound is the exact condition, MikFs.NulNamesFail an example).
- PhysMemory.PhysMem.FindPte: for addresses of the private user region, the only ones its callers pass; the 2 MiB entries of the kernel directory are not walked.
- PhysMemory.PhysMem.Map4k: for the same addresses, and for present, writable user pages, as in every call.
- A disk that has the magic but was not left by Mik-FS: `Init` promises nothing about it.
- The connection of the file calls to the x86-64 kernel model is an arbitrary reply in rax, or an image; the two are proved separately.
- The Mik-64 overflow panic when PTBR lies in the last page of the 64-bit space; the model reports a missing page there.
- FillPt.FillPtRuns: with paging and the timer off, as at boot, the only place fill_pt is called from.
- The Mik-64 scheduler, `exec` and `fork` code around `build_tables` and the address-space switch, and running a whole kernel binary.
- The Mik-64 boot code before its page tables (vectors, the demo page) is not executed; in `KernelPath` the kernel code between boot, build_tables and the switch is any code that writes no CSR, returns from no handler, stores only where it may and leaves the new tables alone.
- Crash atomicity between two disk writes, privilege of CSR instructions on Mik-64, and reclaiming frames on exec or exit: the code does not provide them.
