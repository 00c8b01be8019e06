# AO OS kernel: verified model

A Dafny model of four connected parts of the AO OS kernel, a small x86-64 system written in C, with proofs of
what they promise.

**Memory.** `Pmm` is the frame allocator over its bitmap. `Pte` relates flag words to flag records. `PageTables`
holds the invariant of kernel tables and all process address spaces together: private tables form a tree per
space, and every entry that is not private is what the kernel has at that place, as if its 2 MB pages were
already split; links to private tables have the flags of the entries that they replace. `TableCount` counts the
private tables that are missing on the way to a page. `Translation` derives from the invariant that a space is the
kernel overlaid with its user mappings, with the rights that their entries say. `BootTables` are the bootloader's
tables, from which the kernel starts.
`Vmm` is the code that walks, copies, splits and tears down tables in place; `Teardown` holds the facts about
removing a space. `UserMemory` adds the processes that own spaces and frames, and the bytes behind them.

**Processes.** `Scheduler` is a step system over the process table with timer ticks anywhere between operations;
`SchedulerProofs` holds the theorems over runs, `SchedulerTime` those about quanta, sleep, waits and exit codes,
`SchedulerStates` the life of a process, `SchedulerCases` runs from boot that show their exceptions,
`ProcessTable` the code that updates the table in place.

**Heap.** `HeapBlocks` is the heap as a list of blocks, `Heap` the linked headers in memory.

**Storage.** `BlockCache` is the sector cache over a drive. `Layout`, `BootSector` and `Format` are the installer.
`Geometry` is what a mount learns. `FatCodec`, `FatDisk` and `FatVolume` go from sectors to FAT entries, clusters
and reserved sectors (the volume's *view*); `FatChains`, `FatCycle`, `FatSpace`, `FatData` and `FatWrite` are
about chains and the bytes in them; `FatDir`, `FatName`, `FatLookup` and `FatEntry` about directories; `FatTree`
defines well-formed volumes; `FatRead`, `FatSteps`, `FatFiles`, `FatTreeOps` and `FatRuns` are the operations, and
`FatCases` volumes that show the exceptions.
A volume is well-formed if there is a set of chains, directories among them, such that the chains end in an end
mark and do not meet, every live entry of every directory leads to a chain of its own (or to none, with cluster 0),
every chain that belongs to an entry is entered there, directory entries lead to directories whose dot entries lead
to themselves and back, and only end marks follow the first end mark of a directory. The current directory can be
reached from the root. Entries in a given set of slots may be left out of account, which is how the moments inside
an operation are described.

Number of slots, quantum, pages, cache slots, heap size, directory geometry and disk size are parameters.
The layout of the FAT follows the Microsoft FAT specification version 1.03, sections "FAT Data Structure",
"FAT Type Determination" and "FAT32 FSInfo Sector Structure"; paging follows section 4.5 of volume 3A of the Intel
Software Developer's Manual.

Properties that the code does not have are stated with the exact condition under which it has them:

- A write to the drive that fails after the data arrived leaves the cache stale exactly if it holds other data
  (`BlockCache.FailedWriteCoherence`; shown by `BlockCache.StaleAfterFailure`).
- On some disk sizes the installer's FAT is short by one or two entries (`Layout.EndsAt`; shown by
  `Layout.AlternatingVolumeAccepted`).
- The FSInfo count is right exactly in a sector that is adjusted once per change (`FatSpace.TracksExactly`; shown by
  `FatCases.CountedTwice`), and freeing counts one too many exactly on chains that end on a free cluster or in a
  cycle (`FatSpace.FreeTracksExactly`, `FatChains.ExtraRoundExactly`; shown by `FatCases.LoopCountedTwice`).
- Overwriting frees the old file first, so a failed overwrite of a file with clusters leaves an entry that leads to
  a free cluster (`FatFiles.Create`; shown by `FatCases.LoseFile`).
- A file whose name starts with 0xE5 is created as a deleted entry and cannot be read (`FatFiles.Create`; shown by
  `FatCases.MakeUnreadable`); a directory with such a name is made and cannot be reached (`FatTreeOps.Mkdir`; shown
  by `FatCases.MakeUnreachable`).
- `waitpid` strands its caller exactly when its target is dead at the moment it blocks
  (`SchedulerProofs.BlockStrandsIffDead`; shown by `SchedulerCases.LoaderBlocksOnDead`); only a kill ends that wait
  once the caller is switched out (`SchedulerProofs.StrandedForGood`; shown by `SchedulerCases.LoaderStranded`).
- A kernel process inherits the loaded tables, which are the kernel's exactly if no user space is loaded
  (`SchedulerProofs.KernelProcessNeedsKernelTables`, `Scheduler.StepKeepsInv`; shown by
  `SchedulerCases.KernelProcessOnUserTables`). No caller in the source makes such a run: `process_create` is called
  with `is_user` 1 only (kernel/exec/elf.c:96, kernel/aob/aob.c:75).
- Cleaning up a dead process destroys the loaded tables exactly if that process is still the one executing
  (`SchedulerProofs.CleanupHitsLoadedSpace`, `Scheduler.StepKeepsInv`; shown by `SchedulerCases.SelfCleanup`).
  No caller in the source makes such a run either: `process_terminate` is called from the loaders and the shell only.
- A user range that ends in the last page of the 64-bit address space is refused even if it is mapped
  (`Vmm.AddressSpaces.UserRangeOk`; shown by `UserMemory.UserSpaces.MapLastPage`).
- A memory region whose rounded end wraps past 2^64 is not reserved at all if `length + 4096 <= 2^64`, and a longer
  one only up to its wrapped end (`Pmm.FrameAllocator.MarkRegionUsed`).
- A heap request is rounded to zero exactly above 2^64 - 16 (`Heap.RoundedCovers`).
- The comment on the installer's loop expects its rejection to be needed; it is never reached (`Layout.NextFits`).
- The bootloader's comment says that its tables map 4 GB; they map 2 GB (`BootTables.BootIdentity`).

## Model

| member | source | states |
|---|---|---|
| `Pmm.BitUpdate` | kernel/memory/pmm.c:23-34 | setting or clearing a bit of a bitmap byte changes the test of that bit and of no other |
| `Pmm.PageUpdate` | kernel/memory/pmm.c:23-34 | setting or clearing a page in the bitmap changes which pages test as taken by exactly that page |
| `Pmm.FrameAllocator.AllocPage` | kernel/memory/pmm.c:126-137 | returns the lowest free frame at or above the low limit, marks exactly it and lowers the free count by one; returns 0 exactly when none is free |
| `Pmm.FrameAllocator.FreePage` | kernel/memory/pmm.c:139-146 | frees exactly that frame; the free count rises only if it was taken (a double free or an address past the bitmap changes nothing) |
| `Pmm.FrameAllocator.MarkRegionUsed` | kernel/memory/pmm.c:36-47 | the taken frames become the old ones plus those that the region touches, as long as its rounded end fits into 64 bits; past that the wrapped end decides, and with `length + 4096 <= 2^64` nothing is reserved; the free count stays the number of clear bits |
| `Pmm.FrameAllocator.MarkRegionFree` | kernel/memory/pmm.c:49-59 | the taken frames lose exactly those from the rounded-down start to the rounded-down end, none if the end wraps around; the free count stays the number of clear bits |
| `Pte.DecodeInjective` | include/vmm.h:7-19 | flag words that decode to the same flag record agree on every named bit, so reasoning on records loses nothing |
| `Pte.PrivatisedBits` | kernel/memory/vmm.c:110-120 | the bit expression for a copied table entry is the record with PRIVATE set, USER added on request and nothing else changed |
| `Pte.LinkBits` | kernel/memory/vmm.c:110-182 | the link to a private table has the bits of the shared entry that led to a table, with PRESENT, WRITABLE, PRIVATE and on request USER added, and else just these |
| `Pte.LinkGrants` | kernel/memory/vmm.c:110-182 | such links refuse neither writing nor execution if the shared entries do not refuse execution |
| `Pte.ExecuteBit` | include/vmm.h:7-19 | execution is refused exactly by bit 63 of an entry |
| `Pte.NewParentBits` | kernel/memory/vmm.c:139-145 | the bit expression for a new intermediate entry decodes to a present, writable, private parent |
| `Pte.WithUserBits` | kernel/memory/vmm.c:143-145 | OR-ing USER into an entry changes only that flag |
| `Pte.SplitBits` | kernel/memory/vmm.c:165-175 | the entries of a split 2 MB page keep its flags without the size bit |
| `Pte.LeafBits` | kernel/memory/vmm.c:190-192 | the bit expression for a mapped page decodes to the requested flags plus present |
| `PageTables.SlotUnique` | kernel/memory/vmm.c:110-188 | in every reachable state a table of an address space is determined by its space, level and position: private tables form a tree without sharing |
| `PageTables.AttachKeepsInv` | kernel/memory/vmm.c:110-188 | hanging a new private table with inherited contents under an entry keeps the whole-memory invariant of kernel tables and all address spaces |
| `PageTables.OpenKeepsInv` | kernel/memory/vmm.c:132-192 | OR-ing USER into a private parent entry keeps that invariant |
| `PageTables.MapLeafKeepsInv` | kernel/memory/vmm.c:190-195 | writing a level-1 entry keeps the invariant and adds exactly one page to the space |
| `Translation.SpaceIsOverlay` | kernel/memory/vmm.c:93-196 | every page of every address space translates as its user mapping if it has one, and as in the kernel tables otherwise, through table copies and 2 MB splits |
| `Translation.UserReach` | kernel/memory/vmm.c:279-304 | a page passes the user-access walk exactly when it is mapped in that space with the USER flag, although USER is OR-ed into all parents |
| `Translation.RightsOfLeaf` | kernel/memory/vmm.c:110-192 | in every sound state, a page of a space can be written, and executed, as the hardware takes it together over all levels, exactly as the entry of the page says |
| `Translation.UserRights` | kernel/memory/vmm.c:110-192 | ring 3 can write (execute) a page exactly if it is mapped in that space with USER and WRITABLE (without NX) |
| `Translation.KernelRights` | kernel/memory/vmm.c:110-192 | the same of the kernel's own tables |
| `Translation.KernelRightsKept` | kernel/memory/vmm.c:110-192 | a page of the kernel's keeps its rights in every space that does not map it itself |
| `Translation.MapChangesOnePage` | kernel/memory/vmm.c:122-196 | between two states that differ by one mapping, that page gets the new entry, with the user access and the rights to write and execute that it says, and every other page of every space keeps all of these |
| `Translation.SpaceUnchanged` | kernel/memory/vmm.c:122-196 | a page whose user mapping is the same in two states with the same kernel has the same translation, user access and rights |
| `Translation.KernelUnchanged` | kernel/memory/vmm.c:122-196 | kernel translations and rights depend on the kernel tables only |
| `Teardown.AddSpaceKeepsInv` | kernel/memory/vmm.c:93-101 | a root that copies the kernel root is a new, empty address space of a sound state |
| `Teardown.RemoveKeepsInv` | kernel/memory/vmm.c:354-359 | dropping one space whose tables were given up leaves a sound state for all others |
| `Teardown.SpaceIsRootAndSubtree` | kernel/memory/vmm.c:338-359 | the tables of a space are its root and exactly what the private bits lead to from it |
| `BootTables.BuildBootTables` | bootloader/stage2.asm:769-805 | the tables that the loops write are the four in closed form |
| `BootTables.BootTablesOk` | bootloader/stage2.asm:769-805 | they are kernel tables as the whole-memory invariant requires |
| `BootTables.BootIdentity` | bootloader/stage2.asm:765-805 | they map each page of the first 2 GB to itself, to be written and executed, and no other page, and ring 3 reaches none (the comment there says 4 GB) |
| `Vmm.IndexFields` | kernel/memory/vmm.c:124-128 | the shifts and masks of a virtual address are the four 9-bit indices of its page number |
| `Vmm.AddressSpaces.AllocTablePage` | kernel/memory/vmm.c:41-51 | a fresh zeroed table in a frame that was free, or nothing changes |
| `Vmm.AddressSpaces.CreateAddressSpace` | kernel/memory/vmm.c:93-101 | a new space with no user page, taking exactly one frame; it fails, changing nothing, only when no frame is free |
| `Vmm.AddressSpaces.EnsurePrivateEntry` | kernel/memory/vmm.c:110-120 | a present shared entry becomes a private copy behind a link with its flags plus WRITABLE, PRIVATE and on request USER; no translation of any space changes, and frames taken belong to that space; on the kernel root nothing happens |
| `Vmm.AddressSpaces.SplitEntry` | kernel/memory/vmm.c:160-182 | a 2 MB page becomes a private table of its 512 pieces without changing any translation |
| `Vmm.AddressSpaces.MapPageIn` | kernel/memory/vmm.c:122-196 | on success that page maps to that frame and is reached, written and executed as those flags say; on success or failure every other page of every space and of the kernel has the translation, user access and rights of before; frames taken are tables of that space; for a space it succeeds exactly when there is a free frame for each private table missing on the way to the page, and takes exactly those |
| `TableCount.NewLevels` | kernel/memory/vmm.c:122-196 | the tables that a walk adds are as many as the levels at which the way to the page had no private table and now has one |
| `TableCount.WalkCost` | kernel/memory/vmm.c:122-196 | a walk that stops only for want of a frame gets through exactly when the free frames are at least the missing tables, and takes one for each |
| `Vmm.AddressSpaces.GetPhysicalIn` | kernel/memory/vmm.c:237-267 | the walk over the tables returns the physical address of the independent translation function, with the offset within the 4 KB or 2 MB page |
| `Vmm.AddressSpaces.UserPageOk` | kernel/memory/vmm.c:279-304 | true exactly when every level is present with USER set |
| `Vmm.AddressSpaces.UserRangeOk` | kernel/memory/vmm.c:306-316 | true exactly for a nonempty range that ends before the last page of the 64-bit address space and all of whose bytes lie in user-accessible pages; the scan ends even where the page address wraps |
| `Vmm.AddressSpaces.FreePrivateTables` | kernel/memory/vmm.c:338-352 | frees exactly the tables below a table that are reached through private bits, each once, and touches no other table |
| `Vmm.AddressSpaces.DestroyAddressSpace` | kernel/memory/vmm.c:354-359 | frees exactly the tables of that space, each once; kernel root and 0 are ignored; all other spaces stay as they were |
| `UserMemory.BytesApart` | kernel/process/process.c:104-150 | different addresses in user pages of a process have different physical bytes, since distinct pages have distinct frames |
| `UserMemory.UserSpaces.CreateSpaceFor` | kernel/process/process.c:217-228 | a user process gets an address space of its own, or nothing changes |
| `UserMemory.UserSpaces.MapUserPage` | kernel/process/process.c:104-132 | for every 64-bit address, a new page gets a zeroed frame that was free and is recorded, and can be reached, written and executed as its flags say; a page recognised as mapped (any but the last of the address space) or a failure changes no mapping and leaks no frame; all other spaces are untouched; a new page is granted exactly when the process has room in its page list and there are free frames for the page and for the private tables missing on the way to it |
| `UserMemory.UserSpaces.MapLastPage` | kernel/process/process.c:104-132 | the last page of the address space is mapped, exactly when there are frames for it, and passes no range check; the next request maps it anew on a second frame, exactly when there are frames for that |
| `UserMemory.AllCleanedUp` | kernel/process/process.c:89-102 | in every sound state in which all processes have been cleaned up, exactly the boot frames are taken |
| `UserMemory.UserSpaces.Interleave` | kernel/process/process.c:89-132 | for any interleaving of the lives of any processes, once all have ended the taken frames are those of before |
| `UserMemory.UserSpaces.Cleanup` | kernel/process/process.c:89-102 | frees each frame the process acquired (root, copied and split tables, user pages) exactly once, and no other |
| `UserMemory.UserSpaces.CleanupUser` | kernel/process/process.c:89-102 | the taken frames lose exactly the frames of that space; kernel and other spaces keep theirs |
| `UserMemory.UserSpaces.LifeCycle` | kernel/process/process.c:89-132 | for any sequence of mapping requests, successful or not, creating a space, mapping and cleaning up restores the set of taken frames and the free count |
| `UserMemory.UserSpaces.WriteUser` | kernel/process/process.c:134-150 | whatever is mapped, it succeeds exactly when every page of the range has a physical address and otherwise stops at the first that has none; memory outside the bytes gone over is unchanged; on pages of the process every byte gone over reads back through the page tables as written, across page boundaries |
| `UserMemory.UserSpaces.ZeroUser` | kernel/process/process.c:152-166 | likewise with zeros |
| `UserMemory.DataThenZeros` | kernel/exec/elf.c:111-113 | writing and then zeroing the tail of a segment leaves the data followed by zeros |
| `UserMemory.UserSpaces.LoadSegment` | kernel/exec/elf.c:111-113 | a segment loaded over mapped pages reads as its bytes followed by zeros up to its memory size |
| `UserMemory.UserSpaces.CheckRange` | kernel/memory/vmm.c:306-316 | for a process, the range check succeeds exactly on nonempty ranges that end before the last page and all of whose bytes lie in pages that were mapped for it |
| `Scheduler.AroundIsModulo` | kernel/process/process.c:446-455 | the wrap-around search index is the modular one |
| `Scheduler.StepKeepsInv` | kernel/process/process.c:198-478 | every operation and every tick keeps: distinct pids, address spaces shared only if the kernel's, RUNNING only the current process, loaded CR3 and RSP0 those of the current process; except exactly when a process that killed itself cleans itself up, or a kernel process is made while the tables of a user process are loaded |
| `Scheduler.RunKeepsInv` | kernel/process/process.c:198-478 | hence over every run without these two, with ticks anywhere between operations |
| `Scheduler.RunResumesSaved` | kernel/process/process.c:417-478 | on every run, those two included, a process is resumed at the stack pointer saved when it was last switched out, or at its initial one |
| `Scheduler.BootOk` | kernel/process/process.c:34-64 | the initial table satisfies the invariant |
| `SchedulerProofs.LoadedSpaceExists` | kernel/process/process.c:364-376 | on every run without these two the loaded address space is the kernel's or still exists, so no reap destroyed it |
| `SchedulerProofs.SpacesInUse` | kernel/process/process.c:89-102 | on every run without these two the address spaces that exist are exactly the own ones of the processes in the table |
| `SchedulerProofs.CleanupHitsLoadedSpace` | kernel/process/process.c:89-102 | cleaning up a terminated process destroys the loaded space exactly if it is the current process with a space of its own |
| `SchedulerProofs.KernelProcessNeedsKernelTables` | kernel/process/process.c:217-222 | creating a kernel process keeps the invariant exactly when the kernel's tables are loaded, because it inherits the loaded CR3 |
| `SchedulerProofs.BlockStrandsIffDead` | kernel/process/process.c:337-340 | the blocking half of waitpid leaves a stranded waiter exactly when its target is already terminated |
| `SchedulerProofs.AtomicWaitKeepsWaiters` | kernel/process/process.c:330-357 | with check and block as one step nobody waits for a dead process |
| `SchedulerProofs.StepKeepsWaiters` | kernel/process/process.c:294-415 | every operation and tick leaves nobody waiting for a dead process, across exit, kill, reap and reuse of slots, except exactly the blocking half of a wait for a dead one |
| `SchedulerProofs.RunStrandsNobody` | kernel/process/process.c:294-415 | hence over every run in which nobody blocks on a dead process |
| `SchedulerProofs.StrandedForGood` | kernel/process/process.c:326-357 | a process that is switched out while it waits for a dead one stays blocked on every run without a kill |
| `SchedulerCases.LoaderBlocksOnDead` | kernel/exec/elf.c:105-106 | from boot: the loader kills the process that it made and waits for it, and is blocked on a dead process |
| `SchedulerCases.LoaderStranded` | kernel/exec/elf.c:105-106 | from boot, with another process ready: the loader is switched out and stranded for good |
| `SchedulerCases.KernelProcessOnUserTables` | kernel/process/process.c:217-222 | from boot: a state in which a new kernel process shares the tables of a user process |
| `SchedulerCases.SelfCleanup` | kernel/process/process.c:330-357 | from boot: a process kills itself and waits for itself without blocking, and the loaded tables are gone |
| `SchedulerProofs.TickProgress` | kernel/process/process.c:417-478 | a tick dispatches a waiting READY process or lowers its measure of cyclic distance and remaining quantum |
| `SchedulerProofs.OpSparesWaiting` | kernel/process/process.c:198-415 | no other operation raises that measure, short of killing the process |
| `SchedulerProofs.BoundedWaiting` | kernel/process/process.c:417-478 | under every interleaving, whatever the operations, a READY process that is not killed is dispatched within (slots - 1) x quantum ticks |
| `SchedulerTime.TickSwitches` | kernel/process/process.c:417-478 | a tick switches exactly when scheduling is on, the running process cannot go on or its quantum ends, and another process is ready, sleepers that wake up included; it then resumes the first ready process after the running one where that was left, with a full quantum; else the running one goes on with one tick less; and what becomes of every slot |
| `SchedulerTime.QuantumKept` | kernel/process/process.c:431-438 | over any run in which it does not exit, sleep, wait or kill itself, a process keeps the processor for what is left of its quantum |
| `SchedulerTime.QuantumEnds` | kernel/process/process.c:431-478 | the tick that ends the quantum switches exactly if another process is ready, and the quantum is full again |
| `SchedulerTime.OpTurn` | kernel/process/process.c:198-415 | between two ticks no operation switches, and the running process can go on exactly unless it exits, sleeps, waits or kills itself |
| `SchedulerTime.SleepsExactly` | kernel/process/process.c:378-395 | over any run, a process that sleeps n ticks sleeps until the n-th, and at that one it is ready or runs, unless it is killed |
| `SchedulerTime.WaitStarts` | kernel/process/process.c:330-340 | the blocking half of waitpid on a live process makes its caller wait for that one |
| `SchedulerTime.WaitsOn` | kernel/process/process.c:330-357 | over any run, a process that waits for a live one waits until that exits or somebody is killed, and the exit makes it ready |
| `SchedulerTime.WaitGetsCode` | kernel/process/process.c:294-357 | whatever happens between the exit of a process and a wait that ends on it, the wait gives the code that it exited with |
| `SchedulerStates.NextState` | kernel/process/process.c:198-415 | every operation brings every process into exactly the state that a table of its life gives, told by state and not by operation: first unused slot, activation, blocking, wake-up by exit or kill, death, burial by a wait or the reaper; all else stays |
| `SchedulerStates.NewProcess` | kernel/process/process.c:198-287 | a new process is in the first unused slot under a pid that nobody has, starts 20 saved registers below the top of the kernel stack of its slot, in its own or the loaded address space; no other slot changes |
| `SchedulerStates.Detached` | kernel/process/process.c:359-376 | a process is a background one, whom the reaper takes, exactly once it was detached |
| `ProcessTable.Table.Get` | kernel/process/process.c:70-77 | the slot of a pid in use, as the step system has it |
| `ProcessTable.Table.WakeSleepers` | kernel/process/process.c:378-386 | wakes exactly the sleepers whose time has come, as the step system has it |
| `ProcessTable.Table.FindNext` | kernel/process/process.c:446-455 | the first READY slot in cyclic order after the current one, as the step system has it |
| `ProcessTable.Table.ScheduleTick` | kernel/process/process.c:417-478 | the table updated in place is the tick of the step system, with the returned stack pointer of the step system that the run theorems are about |
| `ProcessTable.Table.CreateProcess` | kernel/process/process.c:198-287 | the table updated in place is the creation step of the step system that the run theorems are about; the invariant is kept exactly unless a kernel process is made on the tables of a user process |
| `ProcessTable.Table.Activate` | kernel/process/process.c:289-292 | the table updated in place is the activation step of the step system that the run theorems are about |
| `ProcessTable.Table.Exit` | kernel/process/process.c:294-324 | the table updated in place is the exit step with its sweep of waiters of the step system that the run theorems are about |
| `ProcessTable.Table.Kill` | kernel/process/process.c:397-415 | the table updated in place is the kill step with its sweep of the step system that the run theorems are about |
| `ProcessTable.Table.BlockOn` | kernel/process/process.c:330-340 | the table updated in place is the blocking half of waitpid of the step system that the run theorems are about |
| `ProcessTable.Table.CheckTarget` | kernel/process/process.c:340-357 | the table updated in place is the checking half of waitpid, with cleanup of the step system that the run theorems are about; done exactly when the target is dead or gone, with its exit code or -1 |
| `ProcessTable.Table.WaitNoHang` | kernel/process/process.c:330-357 | the table updated in place is waitpid without blocking of the step system that the run theorems are about; the result is -1 for no such process, 0 for one that is not dead and else its exit code; the invariant is kept exactly unless a dead process cleans itself up |
| `ProcessTable.Table.Detach` | kernel/process/process.c:359-362 | the table updated in place is the detach step of the step system that the run theorems are about |
| `ProcessTable.Table.ReapTerminated` | kernel/process/process.c:364-376 | the table updated in place is the reap step of the step system that the run theorems are about; the result is the number of dead background processes |
| `ProcessTable.Table.SleepTicks` | kernel/process/process.c:388-395 | the table updated in place is the sleep step of the step system that the run theorems are about |
| `HeapBlocks.PayloadsApart` | kernel/memory/memory.c:29-110 | payloads of live blocks with their headers do not overlap and lie in the heap |
| `HeapBlocks.SplitKeeps` | kernel/memory/memory.c:42-52 | splitting keeps the tiling, the used total and the live blocks, and creates no other free neighbours |
| `HeapBlocks.CoalesceKeeps` | kernel/memory/memory.c:54-65 | one merging pass keeps tiling, used total and live blocks, and leaves no two adjacent free blocks |
| `HeapBlocks.TakeAdds` | kernel/memory/memory.c:67-86 | taking a block adds exactly one live block that was not live and that block's size with header to the used total |
| `HeapBlocks.GiveRemoves` | kernel/memory/memory.c:88-110 | giving a block back removes exactly it from the live blocks and the used total |
| `HeapBlocks.AllFreedIsInitial` | kernel/memory/memory.c:14-27 | a sound heap without live blocks is the single initial free block, whatever the order of frees |
| `HeapBlocks.AnyRunAnyOrder` | kernel/memory/memory.c:67-110 | every run of requests and releases keeps the heap tiled without adjacent free blocks; once nothing is live it is the initial block, whatever the order |
| `HeapBlocks.RunAligned` | kernel/memory/memory.c:42-110 | over every run of requests for multiples of 8, from a base and blocks that are multiples of 8, every block address and size is one |
| `Heap.RoundedLeast` | kernel/memory/memory.c:72 | a request of at most 2^64 - 16 bytes becomes the least multiple of 16 that covers it |
| `Heap.RoundedCovers` | kernel/memory/memory.c:72 | rounding a request up to 16 covers it exactly when the request is at most 2^64 - 16; beyond, it wraps to zero |
| `Heap.KernelHeap.FindFreeBlock` | kernel/memory/memory.c:29-40 | the first free block that is large enough |
| `Heap.KernelHeap.SplitBlock` | kernel/memory/memory.c:42-52 | the linked headers after the split are those of the split block list |
| `Heap.KernelHeap.MergeFreeBlocks` | kernel/memory/memory.c:54-65 | the linked headers after the pass are those of the merged block list |
| `Heap.KernelHeap.Kmalloc` | kernel/memory/memory.c:67-86 | grants a block disjoint from all live ones, or 0 exactly when the request is 0 or no free block fits; the block is cut from the first that fits, to exactly the rounded size if the rest can be a block, and the used counter grows by it and its header; sizes and the pointer stay multiples of 8; the blocks are those after the request in the runs of `AnyRunAnyOrder` |
| `Heap.KernelHeap.Kfree` | kernel/memory/memory.c:88-110 | frees exactly the block of the pointer; bad pointers and double frees change nothing; when nothing is live the heap is the initial block and the used counter 0; the blocks are those after the release in the runs of `AnyRunAnyOrder` |
| `BlockCache.FailedWriteCoherence` | kernel/drivers/storage/block_cache.c:61-63 | after a failed write the cache is coherent exactly when the data never reached the drive, or the sector is stale anyway or not cached, or is cached with that data |
| `BlockCache.StaleAfterFailure` | kernel/drivers/storage/block_cache.c:61-63 | from a fresh cache: a sector written, and then a write that fails late, leave other data in the cache than on the drive |
| `BlockCache.RunThrough` | kernel/drivers/storage/block_cache.c:43-72 | any run of reads and writes, with transfers that fail, comes to what it would on the drive alone: every read gives what was last written, except of a sector whose last write failed after the data reached the drive |
| `BlockCache.NoneLate` | kernel/drivers/storage/block_cache.c:61-63 | a run in which no write fails that late leaves no sector stale |
| `BlockCache.RefillEvicts` | kernel/drivers/storage/block_cache.c:34-41 | refilling the chosen slot evicts at most the least recently used sector of a full cache |
| `BlockCache.Cache.Invalidate` | kernel/drivers/storage/block_cache.c:22-25 | no slot is valid and the use history starts anew |
| `BlockCache.Cache.Find` | kernel/drivers/storage/block_cache.c:27-32 | the slot holding a sector, if any |
| `BlockCache.Cache.ChooseVictim` | kernel/drivers/storage/block_cache.c:34-41 | an invalid slot if there is one, else one whose sector no other was used less recently than, before the tick counter wraps |
| `BlockCache.Cache.ReadSector` | kernel/drivers/storage/block_cache.c:43-59 | a success returns what the drive holds, from cache or drive, unless the sector is stale; a failure changes nothing; at most one slot per sector; eviction is least recently used |
| `BlockCache.Cache.WriteSector` | kernel/drivers/storage/block_cache.c:61-72 | a success is on the drive and is what later reads return; after a failure the exact condition for coherence |
| `Layout.NextAntitone` | kernel/installer/installer.c:45-49 | a larger FAT needs fewer sectors, and by at most one per 64 sectors plus one |
| `Layout.NextFits` | kernel/installer/installer.c:57-74 | every size tried leaves room, so the rejection inside the loop never happens |
| `Layout.SixteenRounds` | kernel/installer/installer.c:59-74 | after sixteen rounds the size is settled or the smaller of two alternating ones |
| `Layout.EndsAt` | kernel/installer/installer.c:59-74 | the FAT holds an entry for every cluster exactly when the disk size is not one of the listed residues; closed form of the size for FAT16 and FAT32 |
| `Layout.ShortAtMost` | kernel/installer/installer.c:59-74 | the FAT lacks at most two entries on FAT32 and one on FAT12 and FAT16 |
| `Layout.AcceptsExactly` | kernel/installer/installer.c:80-84 | the cluster range check accepts exactly 627..131269 sectors for FAT12, 8746..132105 for FAT16, 67061 and more for FAT32 |
| `Layout.AlternatingVolumeAccepted` | kernel/installer/installer.c:59-84 | 67072 sectors as FAT32 are accepted although the FAT lacks two entries |
| `Layout.Installer.SizeFat` | kernel/installer/installer.c:59-74 | the loop ends settled or at the smaller of two alternating sizes, for every LBA28 size |
| `Layout.Installer.CalculateLayout` | kernel/installer/installer.c:51-87 | accepts exactly the listed sizes; the FAT then holds all entries exactly on the sizes that do not alternate |
| `BootSector.MountReadsBack` | kernel/fs/fat.c:259-277 | a sector with these fields mounts with the layout's FAT type, sizes, first data sector and cluster count |
| `Geometry.MountExactly` | kernel/fs/fat.c:259-277 | every boot sector, with any values in its fields, is mounted exactly with the signature and the listed conditions on the fields, and then with these values, the number of clusters that fit and the kind of FAT for it |
| `Geometry.SomeFields` | kernel/fs/fat.c:259-277 | every sector has such fields |
| `FatDisk.MountUsable` | kernel/fs/fat.c:259-277 | a mounted volume whose sizes do not wrap can be used by the driver exactly when it has a cluster, its FAT an entry for each and, on FAT32, its root directory one of them |
| `BootSector.LayoutInside` | kernel/installer/installer.c:75-84 | reserved sectors, FATs, root directory and data follow one another inside the volume |
| `BootSector.WriteBootSector` | kernel/installer/installer.c:89-124 | mounting the written sector recovers the layout; the jump, names, geometry and serial number are those of the source; every byte outside the parameter block and all other sectors are kept; FAT32 backups equal their originals |
| `Format.DescribedOk` | kernel/installer/installer.c:51-87 | the mounted volume is one the driver can use (FAT large enough, regions in order) exactly when the size does not alternate |
| `Format.FreshEntries` | kernel/installer/installer.c:138-151 | a fresh FAT reads as all free, but for the root directory's cluster on FAT32 |
| `Format.ReservedEntries` | kernel/installer/installer.c:138-151 | its first two entries are the media byte filled up with ones and an end mark |
| `Format.FreshWellFormed` | kernel/installer/installer.c:153-163 | an empty volume is well-formed |
| `Format.FormatFilesystem` | kernel/installer/installer.c:153-163 | succeeds exactly on accepted sizes and leaves a mountable volume with fresh FATs and a zeroed root |
| `Format.Install` | kernel/installer/installer.c:153-163 | formatting then mounting gives a well-formed volume exactly when the size does not alternate |
| `FatCodec.SetThenGet` | kernel/fs/fat.c:82-128 | setting an entry makes it read as the value (truncated to the width) and leaves every other entry alone, FAT12 neighbours in shared bytes included |
| `FatCodec.EntryInBytes` | kernel/fs/fat.c:82-100 | the bytes of an entry: two on FAT16, four without the top bits on FAT32, and on FAT12 which half of which byte belongs to the even and the odd entry |
| `FatDisk.EndMarkValues` | kernel/fs/fat.c:53-59 | the values that end a chain on each kind of FAT, and the one that is written |
| `FatDisk.ClusterSectors` | kernel/fs/fat.c:78-80 | sector i of cluster c of the view is sector first data + (c - 2) x sectors per cluster + i of the disk |
| `FatDisk.CopySectors` | kernel/fs/fat.c:82-134 | byte i of copy k of the FAT is where the copies follow the reserved sectors |
| `FatDisk.VolumeSectors` | kernel/fs/fat.c:180-198 | the reserved sectors and the root directory of fixed size are where the layout says |
| `FatCodec.TopBitsKept` | kernel/fs/fat.c:124-126 | setting a FAT32 entry keeps the top four bits of its word |
| `FatDisk.FlatPatch` | kernel/fs/fat.c:102-128 | bytes written within a sector are bytes written in the FAT as one run |
| `FatVolume.AcrossSectors` | kernel/fs/fat.c:90-95 | a FAT12 entry at byte 511 takes its second byte from the next sector |
| `FatVolume.Volume.ReadEntry` | kernel/fs/fat.c:82-100 | the sector-wise read is the entry of the FAT as one run of bytes |
| `FatVolume.Volume.FatSetCopy` | kernel/fs/fat.c:102-128 | the read-modify-write of one or two sectors sets that entry of the copy and no byte outside the copy |
| `FatVolume.Volume.FatGet` | kernel/fs/fat.c:82-100 | the entry of the volume's view |
| `FatVolume.Volume.FatSet` | kernel/fs/fat.c:130-134 | all copies stay identical and exactly one entry of the view changes |
| `FatVolume.Volume.WriteData` | kernel/fs/fat.c:78-80 | writing a sector of a cluster changes that sector of that cluster and nothing else of the volume |
| `FatDisk.DataUpdate` | kernel/fs/fat.c:78-80 | sectors of different clusters, the FATs, the root and the reserved area never coincide |
| `FatChains.FreesExactlyReached` | kernel/fs/fat.c:169-177 | on every FAT content, cyclic or corrupt, freeing a chain zeroes exactly the valid clusters reached from its start |
| `FatChains.RoundsCountFreed` | kernel/fs/fat.c:169-177 | the loop makes one round per freed entry, and one more exactly when it ends on a zero entry |
| `FatChains.ExtraRoundExactly` | kernel/fs/fat.c:169-177 | that extra round happens exactly for a valid start whose links run into a cycle or a free cluster |
| `FatChains.ChainDistinct` | kernel/fs/fat.c:69-76 | a chain that reaches its end mark repeats no cluster |
| `FatChains.FreesChain` | kernel/fs/fat.c:169-177 | freeing a proper chain zeroes exactly its clusters |
| `FatCycle.FiresExactly` | kernel/fs/fat.c:302-314 | with a tail of m and a cycle of n clusters the detector first fires at link 2^k - 1 + n for the least k with 2^k >= max(m + 1, n), within 3(m + n) links |
| `FatCycle.FirstRepeat` | kernel/fs/fat.c:302-314 | links that stay valid for as many steps as there are clusters form a tail and a cycle |
| `FatCycle.ReadsEnd` | kernel/fs/fat.c:290-317 | on every FAT content and from every start, within three times the cluster count the links leave the valid clusters or the detector fires |
| `FatCycle.NoFalseAlarm` | kernel/fs/fat.c:302-314 | the detector does not fire on a chain that reaches its end mark |
| `FatData.CyclicRead` | kernel/fs/fat.c:290-317 | a read over a tail and cycle gets through exactly the links before that one |
| `FatData.ChainSound` | kernel/fs/fat.c:290-317 | a read over a proper chain succeeds exactly when the chain is long enough |
| `FatData.CheckedNext` | kernel/fs/fat.c:69-76 | the next valid cluster, or none |
| `FatData.ReadChain` | kernel/fs/fat.c:293-316 | succeeds exactly when no needed link is bad and then returns the first bytes of the clusters visited; a failure stops at the first bad link with the bytes before it |
| `FatRead.FileBytes` | kernel/fs/fat.c:290-317 | a file on a chain reads as many bytes as its entry says, byte i of its k-th cluster in its place |
| `FatRead.ReadFits` | kernel/fs/fat.c:290-292 | a file that is larger than the buffer is refused with its size, and a read never gives more than the buffer holds |
| `FatSpace.AdjustMoves` | kernel/fs/fat.c:136-146 | an adjustment moves a known count by the delta, keeps an unknown one and the signatures |
| `FatSpace.AdjustHints` | kernel/fs/fat.c:136-146 | the hint becomes the next cluster, or 2 past the end, and nothing but count and hint changes |
| `FatSpace.TracksExactly` | kernel/fs/fat.c:148-153 | counting one cluster keeps a right count right exactly in a sector that is adjusted once; it fails if both FSInfo sectors are the same one |
| `FatSpace.AllocCluster` | kernel/fs/fat.c:155-167 | takes the lowest free cluster, zeroed and marked as an end; none exactly when no cluster is free |
| `FatSpace.AllocConserves` | kernel/fs/fat.c:155-167 | taking a cluster keeps the free count equal to the number of zero entries |
| `FatSpace.FreeClusters` | kernel/fs/fat.c:169-177 | the loop on the volume, terminating on every FAT content |
| `FatSpace.FreeTracksExactly` | kernel/fs/fat.c:169-177 | freeing keeps a right free count right exactly when the chain does not end on a free cluster or a cycle |
| `FatWrite.ReadsBack` | kernel/fs/fat.c:290-344 | bytes written into a chain of any length are read back byte for byte |
| `FatWrite.WriteSectors` | kernel/fs/fat.c:335-340 | a cluster filled with the next bytes, padded with zeros |
| `FatWrite.WriteChain` | kernel/fs/fat.c:330-342 | succeeds exactly when there are enough free clusters; the chain then holds the bytes; otherwise the FAT is restored; clusters in use are never touched |
| `FatWrite.WantedLeast` | kernel/fs/fat.c:330-342 | a file gets the fewest clusters that hold it, and at least one |
| `FatDir.SlotPlace` | kernel/fs/fat.c:187-197 | the cluster, sector and offset computed for a slot are where that slot lies in the directory |
| `FatDir.ListingAt` | kernel/fs/fat.c:180-198 | slot x of sector s of the k-th cluster of a directory is the 32 bytes there |
| `FatDir.SlotWritten` | kernel/fs/fat.c:206-210 | writing a slot's bytes changes that slot of the directory only |
| `FatDir.Locate` | kernel/fs/fat.c:180-198 | finds the place of a slot of a well-formed directory, or none past its end |
| `FatDir.DirRead` | kernel/fs/fat.c:200-204 | the slot of the directory as one list of slots |
| `FatDir.DirWrite` | kernel/fs/fat.c:206-210 | that slot is replaced and nothing else changes |
| `FatName.MakeSfn` | kernel/fs/fat.c:212-223 | the loops compute the short name: base and extension at the first dot, cut, upper-cased and padded |
| `FatName.SfnBytes` | kernel/fs/fat.c:212-223 | the short name byte by byte, by the place of the first dot: up to eight characters before it, up to three after it, letters in upper case, spaces elsewhere |
| `FatName.UpperIs` | kernel/fs/fat.c:212-223 | upper case takes a..z to A..Z and leaves every other character alone |
| `FatName.PlainNames` | kernel/fs/fat.c:212-230 | names of at most eight characters and one to three of extension, without trailing spaces, have the same short name exactly when they are equal up to case |
| `FatName.SfnStart` | kernel/fs/fat.c:212-223 | a short name never starts with a dot, so the dot entries cannot be named |
| `FatLookup.FindEntry` | kernel/fs/fat.c:232-240 | the first visible match before the end mark among the slots looked at |
| `FatLookup.FreeEntryIndex` | kernel/fs/fat.c:242-257 | the first free slot, or growth of the chain by a zeroed cluster, or none |
| `FatLookup.RoomExactly` | kernel/fs/fat.c:242-257 | there is a free slot, room behind the last one, or none, by the slots that are looked at |
| `FatLookup.VisibleEntries` | kernel/fs/fat.c:232-240 | lookups see exactly the entries in use that are neither volume labels nor pieces of long names |
| `FatTree.PathEntries` | kernel/fs/fat.c:206-210 | every step of a way down from the root is by an entry on the volume, in the directory before, marked as that of a directory and leading to the next |
| `FatTree.EntryOwns` | kernel/fs/fat.c:206-210 | nothing belongs to the slot of an entry but what the entry leads to |
| `FatTree.ChainAdded` | kernel/fs/fat.c:155-167 | a chain made of free clusters keeps a volume well-formed and every directory as it was |
| `FatTree.ChainFreed` | kernel/fs/fat.c:169-177 | freeing the chain of an entry left out of account keeps the rest well-formed |
| `FatTree.EntryPut` | kernel/fs/fat.c:206-210 | writing an entry whose chain belongs to no other entry keeps the volume well-formed |
| `FatTree.DirGrown` | kernel/fs/fat.c:242-257 | growing a directory by a zeroed cluster keeps the volume well-formed and appends end marks |
| `FatTree.DirAdded` | kernel/fs/fat.c:365-372 | a zeroed chain becomes an empty directory of a well-formed volume |
| `FatTree.DirRemoved` | kernel/fs/fat.c:374-379 | a directory whose entry is given up can be dropped |
| `FatRead.Read` | kernel/fs/fat.c:290-317 | refused, too big, broken or the contents, as lookup, size and links decide; holds on any volume whose directory chain is sound |
| `FatRead.FileSame` | kernel/fs/fat.c:290-317 | a file whose clusters are as before reads as before |
| `FatEntry.FileEntryIs` | kernel/fs/fat.c:42-51 | the cluster and size fields of an entry hold any cluster of the volume and any 32-bit size, and name and attribute are kept |
| `FatEntry.FileBytesAre` | kernel/fs/fat.c:42-51 | the entry of a new file byte by byte |
| `FatTreeOps.DirectoryBytes` | kernel/fs/fat.c:365-372 | the entry of a new directory byte by byte |
| `FatTreeOps.DotBytes` | kernel/fs/fat.c:365-372 | its dot entries are such entries under the names of one and two dots |
| `FatTreeOps.EmptyExactly` | kernel/fs/fat.c:374-379 | a directory counts as empty exactly when the slots looked at from the third on hold nothing but deleted entries and end marks |
| `FatFiles.UnaffectedBy` | kernel/fs/fat.c:319-344 | replacing one slot leaves every other directory slot for slot as it was, and in this one every other name finds the same slot with the same bytes, be it of a file or of a directory; every file under them reads as before |
| `FatFiles.OtherNameReads` | kernel/fs/fat.c:319-344 | a file under a plain name is found and reads as before an operation on a name that differs in more than case |
| `FatFiles.CreateNew` | kernel/fs/fat.c:319-344 | a file under a new name: success exactly with a slot and enough clusters, well-formed either way; the FAT apart from the new chain, and the whole FAT after a failure, is the old one, or the old one with the directory's chain grown by the first free cluster; the directory has the new entry in the first free slot and differs nowhere else |
| `FatFiles.Overwrite` | kernel/fs/fat.c:319-344 | success exactly when the free clusters and those of the old file suffice; the entry differs in cluster and size only, and the directory nowhere else; after a failure no well-formed reading of the volume exists exactly if the old file had clusters |
| `FatFiles.Create` | kernel/fs/fat.c:319-344 | create or overwrite: exact success condition; the file reads back byte for byte exactly if its name does not start with 0xE5; every other name of every directory finds the entry that it did, directories included, and every other file reads as before; the name of a directory changes nothing; the directory differs in the one entry only; well-formed except exactly when replacing a file with clusters fails, which the result tells; free counts conserved |
| `FatFiles.DanglingEntry` | kernel/fs/fat.c:324-332 | an entry that leads to a free cluster is at home in no well-formed volume |
| `FatFiles.NeverFound` | kernel/fs/fat.c:232-240 | a short name that starts with 0xE5 is found nowhere |
| `FatTreeOps.Delete` | kernel/fs/fat.c:346-350 | exactly the file's clusters become free; the name then finds its next match, or nothing if there was none; the entry is marked in its first byte, and no other byte of any directory differs; every other file reads as before; well-formed; counts conserved |
| `FatRead.FindStruck` | kernel/fs/fat.c:232-240 | striking out what a name finds makes it find the next match |
| `FatTreeOps.CreateThenDelete` | kernel/fs/fat.c:319-350 | creating and deleting a new name restores the FAT, but for the first free cluster appended to the directory's chain if that was full |
| `FatTreeOps.Mkdir` | kernel/fs/fat.c:365-372 | exact success condition; a directory with nothing but its dot entries, to itself and its parent, under that name, or found nowhere and without a way to it exactly if the name starts with 0xE5; the parent has that entry in the first free slot and differs nowhere else; a name that is taken changes nothing; after a failure the FAT is the old one, with the directory's chain grown, or, without a slot, with the first free cluster lost but counted |
| `FatTreeOps.Rmdir` | kernel/fs/fat.c:374-379 | succeeds exactly for a directory without entries in the slots looked at; exactly its clusters become free; its entry is marked in the first byte, and no other byte of the other directories differs |
| `FatTree.RootedWithout` | kernel/fs/fat.c:374-379 | removing a directory leaves the one it is entered in reachable from the root, through entries on the volume |
| `FatRuns.ParentNamed` | kernel/fs/fat.c:383-387 | the second slot of every directory reached from the root leads to the directory it is entered in |
| `FatRuns.ChangeDirectory` | kernel/fs/fat.c:381-390 | moves to the root, to the parent or into the named directory, with the exact success condition, and stays in a directory reached from the root through entries on the volume |
| `FatRuns.DownAndUp` | kernel/fs/fat.c:381-390 | going into a directory and then to ".." leads back |
| `FatRuns.Step` | kernel/fs/fat.c:319-390 | each operation does what its specification says, leaves what every other name finds, and keeps the volume well-formed, except exactly when a file is lost in replacing it |
| `FatRuns.Run` | kernel/fs/fat.c:319-390 | any run of operations does one specified step after the other on well-formed volumes, free counts conserved, and ends early exactly at a write that loses a file |
| `FatRuns.HolderStays` | kernel/fs/fat.c:374-379 | a directory in which a name is found is never the one that is removed |
| `FatRuns.StepKeeps` | kernel/fs/fat.c:319-390 | an operation keeps every file of every directory that it does not write or delete by name |
| `FatRuns.FileStays` | kernel/fs/fat.c:319-390 | hence over any run a file reads the same until it is written or deleted by name |
| `FatRuns.LastWriteReads` | kernel/fs/fat.c:319-390 | over any run, what was last written under a name is what is read |
| `FatRuns.OneName` | kernel/fs/fat.c:232-240 | a directory has one name: two names that lead to it are in the same directory and have the same short name |
| `FatRuns.NameStays` | kernel/fs/fat.c:319-390 | after any operation but its removal by that name, a name leads to the directory that it led to |
| `FatRuns.PathStays` | kernel/fs/fat.c:319-390 | after any operation a path of names leads to the directory that it led to; if the operation removes a directory, this is for paths to one in which a name is found |
| `FatRuns.DirectoryStays` | kernel/fs/fat.c:319-390 | over any run a path leads to the same directory until that is removed by its name |
| `FatRuns.PathReads` | kernel/fs/fat.c:319-390 | over any run a path leads to the same file, with the same bytes, until the file is written or deleted by name: meanwhile no directory on the way can be removed |
| `FatRuns.LastWriteAtPath` | kernel/fs/fat.c:319-390 | over any run, what was last written under a path is what is read under that path |
| `FatRuns.LastWriteByName` | kernel/fs/fat.c:319-390 | over any run on plain names, what was last written under a path and name is read under that path and name, in upper or lower case, whatever is done under names that differ in more than case |
| `FatRuns.MadeStays` | kernel/fs/fat.c:365-390 | over any run, the path under which a directory was made leads to it until it is removed by its name |
| `FatCases.MakeUnreachable` | kernel/fs/fat.c:365-372 | on every freshly formatted FAT12 volume a directory named 0xE5 is made and there is no way to it |
| `FatCases.ReplaceTooLarge` | kernel/fs/fat.c:324-332 | on every freshly formatted FAT12 volume: a file, and then a larger one than fits under its name, leave no well-formed reading of the volume |
| `FatCases.LoseFile` | kernel/fs/fat.c:324-332 | the same from formatting a disk of 2880 sectors on |
| `FatCases.MakeUnreadable` | kernel/fs/fat.c:319-344 | on every freshly formatted FAT12 volume a file named 0xE5 is made and does not read back |
| `FatCases.CountedTwice` | kernel/fs/fat.c:148-153 | a volume whose FSInfo sector follows the backup boot sector: taking a cluster makes a right count wrong |
| `FatCases.LoopCountedTwice` | kernel/fs/fat.c:169-177 | a volume with a self-linked cluster: freeing it makes a right count wrong |

## Left out

- Port I/O, drivers, interrupts, TLB and MSR operations: hardware effects; the drive is an array of sectors with an outcome per transfer, and a tick is a step.
- `vmm_map_page` on the kernel root, `vmm_unmap_page_in`, `vmm_user_strlen`: the first would tag kernel tables private and no code calls it; the others would add easy members.
- How the kernel reaches its own data: tables, frames and stacks are reached by physical address here. The kernel goes through the loaded CR3, and the pages of a user process overlay the identity map that it uses, so a waitpid that cleans up while a user space is loaded reads and writes through that overlay.
- E820 parsing: the allocator starts from any bitmap whose count is right.
- Networking, the shell, the VFS mount table, ramfs, syscall dispatch, ELF header checks, argument set-up on the user stack.
- Ticks inside an operation: the blocking waitpid is two steps with ticks in between, every other operation of a process is one step.
- The local buffer of the FAT12 read that straddles two sectors: fat.c:93 reads a whole sector into a variable of one byte; the model takes the first byte of that sector and leaves out what else is overwritten.
- The legacy FAT12 driver, which is not part of the build.
- Liveness across wrap-around of the tick counter, and two waiters on one pid whose slot is reused.
- `fat_list`, `fat_get_disk_info`, `fat_getcwd` and the textual current path: they only read or format what the model has.
- The welcome files that the installer adds after formatting.
- UserMemory.UserSpaces.WriteUser: bytes of frames and page tables are two fields, so a write through an inherited kernel mapping onto a table is not tracked as a change of that table (user frames are proved apart from table frames); data is at most 2^48 bytes.
- UserMemory.UserSpaces.ZeroUser: the same.
- UserMemory.UserSpaces.Cleanup: not for a kernel process that inherited the tables of a user process; its cleanup destroys the space of another process, which `SchedulerProofs.KernelProcessNeedsKernelTables` is about.
- Vmm.AddressSpaces.MapPageIn: not on the kernel root, whose tables all spaces share; no code calls it that way.
- Vmm.AddressSpaces.UserRangeOk: not for a space with all 2^36 pages open to ring 3, on which the scan of a range in the last page would not end; a process has fewer pages.
- ProcessTable.Table.CreateProcess: the frame of the new root table and whether the first pages could be mapped are inputs; `UserMemory` is about where they come from.
- Scheduler.StepKeepsInv: a dead process may go on to act, but one inside waitpid or asleep does nothing else, as its loop says.
- Heap.KernelHeap.Kfree: not for a pointer into the heap that no block starts before; what happens then depends on the bytes of a payload.
- FatVolume.Volume.FatGet: sector transfers of the mounted volume do not fail; failures are modelled in the cache below it.
- FatDir.Locate: only directories whose own chain is sound; on others the driver follows whatever links it finds.
- FatDir.DirRead: the same.
- FatDir.DirWrite: the same.
- FatLookup.FindEntry: the same.
- FatLookup.FreeEntryIndex: the same; the driver's refusal of a link below 2 at the end of a directory is then never taken.
- FatRead.Read: the same for the directory; the file's own chain may be anything.
- FatData.ReadChain: returns the bytes as a sequence instead of filling the caller's buffer.
- SchedulerTime.WaitGetsCode: for a process that does nothing after its exit, as `process_exit` does not return (process.c:319-322); in the model a dead process may go on to act.
- SchedulerTime.SleepsExactly: not across wrap-around of the 32-bit tick counter, at which the wake-up time is not reduced.
- FatFiles.Create: the driver reports failure alike in all cases; that the old file was lost is a result of the model only.
- FatTreeOps.Delete: does not say that the name is then missing, because a volume may hold the same name twice.
- Layout.Installer.CalculateLayout: sizes beyond LBA28, where the drive cannot be addressed and 32-bit sums wrap.
