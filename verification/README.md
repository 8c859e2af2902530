# xv6, modelled and verified

xv6 is a small Unix-like kernel for RISC-V with a handful of user programs. This project models the parts
of it where a mistake would be hardest to see, and proves what those parts are for:

- **The log and the buffer cache** (`Replay`, `LogMachine`, `LogRefine`, `LogBudget`, `Bcache`, `BufferReuse`,
  `Log`): crash recovery over every run and every crash point, the log's space reservation, and
  log.c as code over an LRU cache, with the same disk writes as the machine's.
- **Files** (`FsLayout`, `Files`, `FileData`, `FileWrite`, `FileContents`, `WriteBudget`): the bitmap, block maps,
  inodes, reading and writing.
- **Directories** (`DirTree`, `Directories`, `Paths`): link counts over the directory tree, what a path means, link,
  unlink and create.
- **Virtual memory** (`PageTable`, `Teardown`, `Vm`, `AddressSpace`, `UserCopy`, `UserMemory`): three-level page
  tables as a flat map, page accounting, copying to and from user space, and what growing, shrinking and copying
  a process comes to in bytes.
- **Processes** (`ProcMachine`, `ProcInv`, `ProcSteps`, `ProcRuns`, `ProcTheorems`, `ProcPaths`, `ProcWitness`,
  `ProcChanges`, `ProcWait`, `ProcSearch`, `ProcSlots`): sleep, wakeup, exit, wait, fork, kill and the scheduler as
  interleaved steps on any number of CPUs.
- **The disk driver** (`Virtio`): descriptor chains and the two rings shared with the device.
- **User code** (`FreeList`, `Malloc`, `Grep`): the allocator's circular free list, and grep's matcher.

Code that changes things in place is a class whose methods carry the loops of the source, each proved
against a function of the old state or a stated property. Interleaved code is a machine of steps, each of
which ends where the source takes or drops a lock, hands over the CPU or writes to disk. Fields that change
together are kept in one record. Where the kernel panics a method says so, in a result called `halted` or
`ok`, with the condition for it. `hide` statements keep definitions out of proofs that do not need them.

`dafny verify dfyconfig.toml` verifies everything.

## Model

| member | source | states |
|---|---|---|
| `Replay.CommitTraceSafe` | kernel/log.c:161-182 | After each single disk write of a commit, recovery yields the home blocks from before the commit up to the header write and those of the cache from it on |
| `Replay.RecoveryTraceSafe` | kernel/log.c:65-111 | After each single disk write of recovery, recovering again yields the same home blocks |
| `Replay.RecoveryIdempotent` | kernel/log.c:106-111 | Recovering a recovered disk changes nothing |
| `LogMachine.CrashSafe` | kernel/log.c:54-210 | At every state of every run of interleaved operations, commits, evictions and crashes, recovery brings back the home blocks as of the last commit's header write, made while no operation was in progress, or, before any, those of the start; of a block that an operation changed and let go of without logging it, the disk's contents |
| `LogMachine.CommitIsExclusive` | kernel/log.c:114-158 | While a commit runs no operation is in progress and none is admitted |
| `LogMachine.QuietIsDurable` | kernel/log.c:132-158 | Once no operation is in progress and the commit is over, recovery brings back what the cache shows if and only if no block let go of unlogged differs from the disk; of those it brings back the disk's contents |
| `LogMachine.StrayLost` | kernel/fs.c:443-453 | A run in which such a block is lost: recovery would not bring it back, and reusing its buffer loses it without a crash |
| `LogMachine.CommitSwitchPoint` | kernel/log.c:94-104 | Up to the header write of a commit recovery brings back the home blocks as they are on disk, and from it on those of the transaction |
| `LogMachine.OtherStepsKeepRecovered` | kernel/log.c:65-182 | Every other step leaves what recovery brings back alone |
| `LogMachine.RecoveryCompletes` | kernel/log.c:106-111 | From any crash, through any further crashes while recovering, what recovery brings back stays the same, and the machine that comes up shows exactly that, with no operation in progress |
| `LogRefine.CommitIsTrace` | kernel/log.c:161-182 | The machine's commit is the code's: after any number of its steps the disk is the one that many writes of the commit trace leave, and it ends with the log idle and the cache equal to the disk but for blocks let go of unlogged |
| `LogRefine.RecoveryIsTrace` | kernel/log.c:106-111 | The same of recovery and the recovery trace |
| `LogBudget.BudgetExact` | kernel/log.c:114-128 | The panic "too big a transaction" can be reached if and only if some operation may add more than MAXOPBLOCKS - 1 blocks |
| `WriteBudget.ChunksFit` | kernel/file.c:131-146 | A chunk of filewrite logs at most 7 blocks, and no run of operations that add no more than such a chunk reaches that panic |
| `Bcache.Cache.constructor` | kernel/bio.c:35-50 | binit makes a ring of all buffers in which no block is cached |
| `Bcache.Cache.BgetRef` | kernel/bio.c:55-84 | A cached block gets its one buffer, another the least recently used one that nobody refers to; there is no buffer exactly when all are referred to |
| `Bcache.Cache.Bread` | kernel/bio.c:87-96 | Returns a locked buffer with the block's latest contents; fails exactly when the blocks in use, with this one, are more than there are buffers; no other block's contents change, but for one let go of unwritten whose buffer it takes |
| `Bcache.Cache.Bwrite` | kernel/bio.c:99-102 | The block on disk becomes the buffer's contents, by one write, and no other block changes |
| `Bcache.Cache.Brelse` | kernel/bio.c:106-124 | The reference and the lock are given back; the last reference moves the buffer to the front of the order of use, whether or not its contents are on disk |
| `Bcache.Cache.Bunpin` | kernel/bio.c:132-136 | One reference less, wrapping at 0 as the uint does |
| `BufferReuse.HeldIsTaken` | kernel/bio.c:55-84 | After a block has been unpinned once too often, and as many other blocks read as there are buffers, someone reads it and holds it, and bget's search for an unused buffer finds the one that is held |
| `Log.LogLayer.WriteLog` | kernel/log.c:161-172 | Writes the cached contents of the logged blocks to the log, one disk write each, exactly if each finds a buffer |
| `Log.LogLayer.InstallTrans` | kernel/log.c:65-77 | Copies every logged block home and takes one pin from each, with exactly the disks of the recovery trace on the way |
| `Log.LogLayer.Commit` | kernel/log.c:174-182 | Leaves exactly the disks of the commit trace; succeeds exactly if the log is empty or each log block in turn finds a buffer |
| `Log.OneBufferCommits` | kernel/log.c:161-182 | One buffer that nobody refers to is enough for a whole commit |
| `Log.LogLayer.InitLog` | kernel/log.c:54-62 | Recovers the disk; succeeds exactly if the header names fewer than NBUF blocks, and leaves the pins in order exactly if it names none |
| `Log.LogLayer.BeginOp` | kernel/log.c:114-128 | Admits the operation exactly when no commit runs and the reservation has room |
| `Log.LogLayer.LogWrite` | kernel/log.c:193-210 | The block is in the log once and pinned once, absorbed if it was there; panics exactly when the log is full or no operation is in progress |
| `Log.LogLayer.EndOp` | kernel/log.c:132-158 | The last operation commits: every disk written on the way recovers to the blocks before or, from the header write on, after; succeeds exactly if the commit finds buffers |
| `FsLayout.OneReference` | kernel/fs.c:344-397 | No block is referred to by two slots, and one that is referred to is a marked data block |
| `FsLayout.BitmapExact` | kernel/fs.c:58-92 | A block is marked if and only if it is metadata or some slot of an inode in use refers to it, and then only one does; the invariant of `Files.FileSystem` implies it, so that every operation keeps it |
| `FsLayout.TakeKeeps` | kernel/fs.c:58-78 | Marking and zeroing a free block keeps that |
| `FsLayout.PutAddrKeeps` | kernel/fs.c:348-357 | So does storing it in an inode's slot |
| `FsLayout.PutEntryKeeps` | kernel/fs.c:358-362 | And in an entry of its indirect block |
| `FsLayout.TruncKeeps` | kernel/fs.c:372-397 | And taking all blocks of an inode away |
| `FsLayout.WhichBlock` | kernel/fs.c:344-368 | Blocks 0 to 11 of a file are those in its inode, the others the little-endian words of its indirect block |
| `Files.BlankIsGood` | mkfs/mkfs.c:229-241 | An image without files, with exactly the blocks below the data marked, satisfies the invariant that every method keeps |
| `Files.WhereKept` | kernel/fs.h:41-51 | The inodes lie one after the other from block inodestart on and the bits from block bmapstart on, so that two are in one block if and only if they are in the same sixteen, or the same 8192 |
| `Files.FileSystem.Balloc` | kernel/fs.c:58-78 | The lowest unmarked block, marked and zeroed, owned by nobody; fails exactly if none is unmarked; what it changes it logs |
| `Files.FileSystem.Bmap` | kernel/fs.c:344-368 | Maps the block without changing a byte of any file, and keeps the bitmap exact; fails exactly when fewer blocks are unmarked than it takes, one or two |
| `Files.FileSystem.Itrunc` | kernel/fs.c:372-397 | Every block of the file is unmarked, no other bit, slot or byte changes, and bfree's panic is out of reach |
| `Files.FileSystem.Iput` | kernel/fs.c:303-327 | Frees inode and blocks exactly for the last reference to an inode without links |
| `Files.FileSystem.Ialloc` | kernel/fs.c:182-200 | The first free inode from 1 on, or none if there is none |
| `Files.FileSystem.Iupdate` | kernel/fs.c:206-220 | The inode on disk becomes the one in memory; with it, as with every change of the methods here, the block changed is in the log, or counted as stray |
| `FileData.Readi` | kernel/fs.c:413-430 | Returns the file's bytes from the offset on, as many as were asked for, or up to the end of the file, or, if copying out fails, up to a block boundary; nothing from past the end |
| `FileData.NeedIsMissing` | kernel/fs.c:344-368 | What mapping a range of blocks takes, one after the other, is the number of its slots that have no block, that of the indirect block included |
| `FileData.Writei` | kernel/fs.c:436-463 | Writes the bytes that could be copied and no others, fills exactly the missing slots of the range and logs what it changes but for the block whose copy failed; the kernel panics exactly when fewer blocks are unmarked than slots are missing |
| `FileData.WriteThenRead` | kernel/fs.c:413-463 | writei of a source that does not fail, and readi of the same range: what was written is read, or the kernel panics, exactly when blocks run out |
| `FileWrite.ChunkLogs` | kernel/file.c:131-146 | The blocks a chunk of filewrite logs: at most 7, with a bitmap of one block |
| `FileWrite.Filewrite` | kernel/file.c:114-153 | Whether or not copying fails: returns n exactly if every chunk is in order, in as few transactions as can be with 3072 bytes in each; leaves the size and the offset that its course leads to, writes exactly the bytes that came, keeps the bitmap exact, and panics exactly when its course fills more slots than blocks are unmarked |
| `FileWrite.GoodEnds` | kernel/file.c:131-151 | Where copying does not fail, every chunk is in order if and only if the whole range is |
| `FileWrite.GoodSlots` | kernel/file.c:131-146 | And the slots filled are those of the whole range |
| `FileWrite.GoodWrote` | kernel/file.c:131-146 | And all bytes of the source are written |
| `FileContents.ReadFile` | kernel/file.c:91-110 | Reading n bytes at a time until a read brings nothing gives the whole contents of the file, in order |
| `FileContents.Overwrite` | kernel/file.c:114-153 | A write splices its bytes into the contents at the offset, past the end too, and leaves the contents of every other file; it panics exactly when blocks run out |
| `FileContents.WriteAndReadFile` | kernel/file.c:91-153 | A write, and then reading the file to its end: the spliced contents are read |
| `DirTree.NoDangling` | kernel/sysfile.c:95-238 | Every entry in use of a linked directory names an inode in use that has links |
| `DirTree.ReachesRoot` | kernel/sysfile.c:202-238 | From every linked directory ".." leads to the root in as many steps as it is deep: linked directories form a tree |
| `DirTree.LinkFileKeeps` | kernel/sysfile.c:114-126 | A new name keeps link counts equal to the entries that name each inode, and the tree, if and only if the directory is linked and the count does not wrap |
| `DirTree.LinkDirKeeps` | kernel/sysfile.c:226-233 | The same of a new directory, and of its parent's count |
| `DirTree.UnlinkedBreaks` | kernel/sysfile.c:114-126 | A file system in which a directory has been unlinked, and a link in it, or a new directory, makes link counts wrong |
| `DirTree.UnlinkKeeps` | kernel/sysfile.c:174-190 | Taking away a name of a file or an empty directory keeps both; the link count is never below 1 before |
| `DirTree.UnlinkedKeeps` | kernel/fs.c:303-327 | Freeing an inode without links, or putting a free one to use, keeps both |
| `Directories.Skipelem` | kernel/fs.c:530-547 | The next stretch of the path without slashes, whole or its first fourteen characters, and the place past the slashes after it; nothing exactly if only slashes are left |
| `Directories.Dirs.Namex` | kernel/fs.c:553-584 | Follows the names of a path that begins with a slash from the root, and of any other from the working directory; "/" is the root, and a single name the entry of that name in the working directory |
| `Directories.Dirs.Dirlink` | kernel/fs.c:492-514 | Refuses a name in use; otherwise writes the first entry not in use; panics exactly when the directory is full |
| `Directories.Dirs.SysLink` | kernel/sysfile.c:95-138 | Comes out as looking up both paths says; a failure undoes the count; success keeps the tree if and only if the directory is linked and the count does not wrap |
| `Directories.Dirs.SysUnlink` | kernel/sysfile.c:152-200 | Comes out as looking up the path says and always keeps the tree; the inode is freed exactly when nothing holds it; the panic on the link count is out of reach |
| `Directories.Dirs.Create` | kernel/sysfile.c:202-238 | Comes out as looking up the path says; keeps the tree if and only if the directory is linked and, for a directory, its count does not wrap |
| `Directories.Dirs.Drop` | kernel/fs.c:303-327 | The last holder of an inode without links frees it; the tree is kept |
| `Directories.LinkedWalk` | kernel/fs.c:553-584 | From a linked directory no lookup panics, and it passes through linked directories only |
| `Directories.LinkFound` | kernel/sysfile.c:95-138 | After a link both paths lead to the inode |
| `Directories.CreateFound` | kernel/sysfile.c:202-238 | After a creation the path leads to a new inode of the kind asked for, with one link; in a new directory "." leads to itself and ".." to the directory it is in; no other inode changes |
| `Directories.NewPathFound` | kernel/fs.c:492-514 | A new entry changes where no path leads that led somewhere |
| `Directories.UnlinkGone` | kernel/sysfile.c:152-200 | After an unlink the name is gone from its directory, and no other name is |
| `Paths.NamesAreStretches` | kernel/fs.c:530-547 | The names of a path are its maximal stretches without slashes, in order, each whole or its first fourteen characters |
| `Paths.HasStretches` | kernel/fs.c:530-547 | Every path has such stretches |
| `Paths.LeadsTo` | kernel/fs.c:553-577 | Following names comes to an inode if and only if there are inodes on the way to it of which each, a directory, names the next |
| `Paths.LeadsNowhere` | kernel/fs.c:553-577 | It comes to nothing if and only if some of the names lead to an inode in use that is no directory, or to a directory without the next name |
| `Paths.FromRoot` | kernel/fs.c:556-559 | A path that begins with a slash leads to the same place from every working directory: where its names lead from inode 1 |
| `Paths.FromCwd` | kernel/fs.c:556-559 | Any other leads where its names lead from the working directory |
| `Paths.LinkByPath` | kernel/sysfile.c:95-138 | link succeeds if and only if the old path leads to an inode that is no directory, and the new one nowhere though its directory is there and has room; exactly when it fails |
| `Paths.UnlinkByPath` | kernel/sysfile.c:152-200 | unlink takes away the last name if and only if the path leads somewhere, the name is not "." or "..", and what it leads to is no directory with entries; exactly when it fails |
| `Paths.CreateByPath` | kernel/sysfile.c:202-238 | create of a file returns the file or device that the path leads to, and fails where it leads to anything else; it makes the first free inode if and only if the path leads nowhere though its directory is there and has room |
| `PageTable.LookupIsFlat` | kernel/vm.c:67-98 | Walking the three levels finds the entry of the flat map |
| `Vm.Memory.constructor` | kernel/kalloc.c:26-35 | Every page of the range is on the free list once |
| `Vm.Memory.Kfree` | kernel/kalloc.c:41-55 | The page is at the head of the free list, and nothing else changes |
| `Vm.Memory.Kalloc` | kernel/kalloc.c:60-70 | A page that was free, or 0 exactly if none was |
| `Vm.Memory.Walk` | kernel/vm.c:67-81 | Changes no translation; with alloc it fails exactly when fewer pages are free than tables are missing, and takes one page for each |
| `Vm.Memory.Mappages` | kernel/vm.c:127-142 | Maps exactly the pages the byte range touches; fails exactly when fewer pages are free than tables are missing on the way to them |
| `Vm.Memory.Uvmunmap` | kernel/vm.c:147-163 | Unmaps exactly the named pages, frees theirs if asked to, and changes nothing else |
| `Vm.Memory.Uvmalloc` | kernel/vm.c:190-211 | Grows the space by zeroed pages of its own, or leaves every translation as it was; it works exactly when there are free pages for the pages asked for and the tables they lack |
| `Vm.Memory.Uvmdealloc` | kernel/vm.c:217-226 | Unmaps and frees the pages between the two sizes |
| `AddressSpace.Uvmcopy` | kernel/vm.c:259-282 | The new space shows the same pages, in pages of its own, or every translation is as it was; it works exactly when there are free pages for the copies and the tables they lack |
| `AddressSpace.Uvmclear` | kernel/vm.c:286-292 | Takes the user's permission from one page and changes nothing else |
| `AddressSpace.Freewalk` | kernel/vm.c:230-244 | Frees exactly the tables of a tree without leaves, each once |
| `AddressSpace.Uvmfree` | kernel/vm.c:248-251 | Frees exactly the pages of the space, and no translation of another changes |
| `AddressSpace.ProcPagetable` | kernel/proc.c:143-167 | A space with trampoline and trapframe if and only if three pages are free; otherwise every page is what it was |
| `AddressSpace.ProcFreepagetable` | kernel/proc.c:171-175 | Frees exactly the pages of a process's space; trampoline and trapframe page are not its to free |
| `UserMemory.Growproc` | kernel/proc.c:210-224 | A process of sz bytes becomes one of sz + n: the bytes and permissions it keeps are unchanged, what it gains is zero and the user's, no other space shows a difference; it fails exactly when pages run out, and does nothing where sz + n does not fit a uint |
| `UserMemory.ClearPage` | kernel/vm.c:286-292 | The user loses access to the one page, and no byte of any space changes |
| `UserMemory.ForkMemory` | kernel/proc.c:233-244 | The child's space shows every byte of the parent's with the same permissions, its trampoline and trapframe are not the user's, and no other space shows a difference; or no page is in other use than before |
| `UserCopy.Copyout` | kernel/vm.c:297-313 | Writes the bytes to the user's addresses and nowhere else, up to the first address that is not the user's |
| `UserCopy.Copyin` | kernel/vm.c:318-334 | Reads the bytes at the user's addresses; fails exactly if one of them is not the user's |
| `UserCopy.OutAndIn` | kernel/vm.c:297-334 | copyout, and copyin of the same range: both work if and only if all of it is the user's, and what went out comes back |
| `UserCopy.Copyinstr` | kernel/vm.c:340-373 | Finds the string if and only if a zero byte comes within max bytes, all of them the user's up to it |
| `ProcRuns.StepKeeps` | kernel/proc.c:228-574 | Every step of every thread, scheduler and interrupt handler keeps the invariant of the process table |
| `ProcTheorems.RunningOnOneCpu` | kernel/proc.c:415-448 | A process whose lock is free is RUNNING exactly when some CPU runs it, and then only one |
| `ProcTheorems.SchedHoldsOne` | kernel/proc.c:457-469 | A CPU that comes back to its scheduler holds that process's lock and no other |
| `ProcTheorems.FoundSleeping` | kernel/proc.c:501-543 | A wakeup by a process under the condition's lock that comes to a process which has called sleep finds it asleep on the channel, or already made runnable |
| `ProcTheorems.FoundByHandler` | kernel/proc.c:501-543 | The same of a wakeup by an interrupt handler |
| `ProcTheorems.NoLostWakeup` | kernel/proc.c:501-543 | Once a condition is true and its lock is free nobody is asleep for it, or on the way to be |
| `ProcTheorems.ZombieNotMissed` | kernel/proc.c:297-406 | No parent sleeps in wait while a child is a zombie, unless the child was given to init after it had looked up its parent, or dead |
| `ProcWitness.MissedDeath` | kernel/proc.c:297-355 | A run after which init sleeps in wait while a child given to it is a zombie |
| `ProcTheorems.ParentAlive` | kernel/proc.c:272-355 | Every process but init has a parent that is neither unused nor a zombie |
| `ProcTheorems.LivePidsDistinct` | kernel/proc.c:69-121 | Processes in use have different pids |
| `ProcTheorems.ReapedOnce` | kernel/proc.c:359-406 | wait returns each pid at most once, and no process bears one that is gone |
| `ProcTheorems.ReapsOwnChild` | kernel/proc.c:371-392 | What wait reaps is its own child, although it looked at the child's parent without the child's lock |
| `ProcWait.WaitsForChild` | kernel/proc.c:368-405 | A process asleep in wait has a child in use, and has not been killed |
| `ProcWait.WaitGivesUp` | kernel/proc.c:397-401 | A wait that comes out with nothing reaped has been killed or has no child in use, unless its copyout failed; nothing in the table changes |
| `ProcWait.WaitReaps` | kernel/proc.c:375-392 | It comes out otherwise only with a dead child of its own, whose slot is cleared and whose pid it returns, unless the copyout failed |
| `ProcWait.FamilyTree` | kernel/proc.c:272-286 | Every process but init has a parent with a smaller pid, init has pid 1 and no parent, and it has a child as long as there is any other process |
| `ProcWait.ExitLeaves` | kernel/proc.c:339-348 | When a process becomes a zombie nobody has it as parent, and the parent that it looked up, its own unless it was given away since, is not asleep in wait |
| `ProcWait.ExitWakesInit` | kernel/proc.c:321-323 | Under init's lock exit wakes init from its wait |
| `ProcChanges.StepChanges` | kernel/proc.c:228-574 | A slot of the table changes only at the points of the code listed, there and then in the way listed |
| `ProcChanges.WriterHoldsLock` | kernel/proc.h:89-95 | Whatever step changes state, parent, chan, killed or pid of a process is taken by the holder of its lock |
| `ProcChanges.TakesTurns` | kernel/proc.c:420-448 | A CPU runs the process of its slot if that is RUNNABLE, and goes on to the next slot, round about, only with the lock of its slot, which it gives back, and with a process there that is not RUNNABLE or has been run |
| `ProcSearch.KillTakes` | kernel/proc.c:562-570 | kill at a slot with its pid marks the process killed, makes it RUNNABLE if it was asleep, and changes no other slot |
| `ProcSearch.KillReturns` | kernel/proc.c:557-574 | Over a whole call: kill comes out with a process of that pid killed and not asleep, and of every slot that it passed it has held the lock when the pid there was another; or it passed them all |
| `ProcSearch.ForkTakes` | kernel/proc.c:233-268 | fork at an unused slot makes a process that can run, a child of the caller, with a pid above all that were given out, and changes no other slot |
| `ProcSearch.ForkReturns` | kernel/proc.c:84-121 | Over a whole call: fork takes the first slot that it found unused, or has held the lock of every slot when it was in use |
| `ProcSlots.NoneBornKilled` | kernel/proc.c:560-563 | In a run no unused slot ever has a killed flag, if and only if no kill ever finds an unused slot |
| `ProcSlots.NoStalePid` | kernel/proc.c:84-121 | In a run no unused slot ever has a pid, if and only if no fork ever fails for want of a trapframe page |
| `ProcSlots.OnlyZeroFindsUnused` | kernel/proc.c:557-574 | Where no unused slot has a pid, only kill(0) finds one |
| `ProcSlots.BornAsTheSlotWas` | kernel/proc.c:84-121 | A new process has the killed flag that its slot had |
| `ProcSlots.BornKilled` | kernel/proc.c:84-121 | Two runs after which a new process is marked as killed: by a kill of the pid that a failed fork left behind, and by kill(0) |
| `Virtio.ThreeEach` | kernel/virtio_disk.c:109-148 | Every descriptor is free or part of one request, three to a request |
| `Virtio.TestIsExact` | kernel/virtio_disk.c:231-237 | The handler's comparison of positions modulo NUM tells exactly whether a finished request waits |
| `Virtio.Driver.Alloc3` | kernel/virtio_disk.c:139-148 | Three free descriptors exactly if there are three, and otherwise all given back |
| `Virtio.Driver.Submit` | kernel/virtio_disk.c:150-218 | The request is queued once, in descriptors of its own, exactly if three are free |
| `Virtio.Driver.DeviceTake` | kernel/virtio_disk.c:168-216 | Following the ring and the descriptors' flags, the device finds each request once, in order, as it was asked for: a header to read, a buffer to write for a read and to read for a write, and a status to write |
| `Virtio.Driver.Intr` | kernel/virtio_disk.c:231-247 | Releases the buffers of exactly the requests that the device has finished; panics exactly if one of them failed |
| `Virtio.Driver.Finish` | kernel/virtio_disk.c:225-226 | Frees exactly the request's three descriptors |
| `Virtio.Driver.FreeChain` | kernel/virtio_disk.c:129-137 | Follows a chain of three to its end and frees it |
| `FreeList.Apart` | user/umalloc.c:24-80 | Blocks, free or in use, do not overlap |
| `FreeList.FreeSound` | user/umalloc.c:24-41 | Linking a block in and joining what touches keeps the list in order, the units owned, and no two free blocks touching |
| `FreeList.JoinsAreFree` | user/umalloc.c:30-39 | The two conditionals of free come to exactly that |
| `Malloc.Heap.Place` | user/umalloc.c:28-29 | free's search round the list ends at the last free block below the address |
| `Malloc.Heap.Free` | user/umalloc.c:24-41 | The block is free again; the other blocks in use are untouched and no unit is lost |
| `Malloc.Heap.Morecore` | user/umalloc.c:43-54 | The new memory joins the free list and the list has room, unless the number of bytes does not fit an int |
| `Malloc.Heap.Malloc` | user/umalloc.c:56-80 | Fails exactly when no free block has room and sbrk gives nothing; otherwise returns a block of just enough units that was not in use, with the other blocks untouched and no unit lost |
| `Grep.MatchHere` | user/grep.c:75-81 | True if and only if some first part of the text splits into parts that fit the pattern's pieces |
| `Grep.MatchStar` | user/grep.c:84-89 | True if and only if the rest matches after some number of characters of the repeated kind |
| `Grep.Match` | user/grep.c:66-72 | True if and only if the pattern matches at the beginning, for one that begins with ^, or somewhere |

## Findings

Properties that the code does not have, with the exact condition where one is proved:

- Recovery unpins blocks it never pinned: `recover_from_log` (kernel/log.c:108) goes through `install_trans`,
  whose `bunpin` (kernel/log.c:73) has no `bpin` before it, so a recovered block's reference count is one too
  low from then on. While nobody reads the block its buffer counts 2^32 - 1 references and is not reused; held
  by one reader it counts none, and bget may take it away from that reader (`BufferReuse.HeldIsTaken`).
  `Log.LogLayer.InitLog`: the pins are in order after boot if and only if the log was empty, and boot panics for
  want of buffers if and only if the header names NBUF blocks or more.
- `writei` returns n even if copying from user space failed part way (kernel/fs.c:446-462), and the block
  whose copy failed has been changed in the cache without being logged. `FileData.Writei` states which block
  (`Unlogged`). What becomes of it: `LogMachine.QuietIsDurable` says exactly when recovery brings back what the
  cache shows, and `LogMachine.StrayLost` is a run in which it does not.
- The reservation honours MAXOPBLOCKS - 1 new blocks for an operation, not MAXOPBLOCKS:
  `LogBudget.BudgetExact`.
- init can sleep through the death of a child that was given to it (kernel/proc.c:297-355):
  `ProcWitness.MissedDeath` is a run, `ProcTheorems.ZombieNotMissed` says which children cannot be missed.
- Creating or linking inside a directory that has been unlinked (kernel/sysfile.c:120, 226-233) makes link
  counts wrong, and so does a count that wraps at 32767: `DirTree.LinkFileKeeps` and `DirTree.LinkDirKeeps` have
  the exact condition, `DirTree.UnlinkedBreaks` an instance.
- `morecore` asks sbrk for an int's worth of bytes: from 2^27 headers on the number does not fit
  (user/umalloc.c:48), and the block's size is not what was obtained. `Malloc.Heap.Malloc` says exactly when
  (`lost`).
- `growproc` computes the new size as a uint (kernel/proc.c:210-224): where `sz + n` does not fit one, nothing
  changes and it reports success. `UserMemory.Growproc` has the exact condition.
- A slot that is not in use can have a pid, left by a fork that found no page for the trapframe
  (kernel/proc.c:84-121), and a killed flag, left by a kill that found such a slot, or by kill(0)
  (kernel/proc.c:557-574); the next process made in it is then born killed. `ProcSlots.NoStalePid` and
  `ProcSlots.NoneBornKilled` say exactly in which runs neither happens, `ProcSlots.BornKilled` gives runs.

## Left out

- Concurrency inside the file system and memory code: `Bcache`, `Log`, `Files`, `Directories`, `Vm` and the
  code above them model one call at a time; `LogMachine` models interleaved operations on the log, and the
  process table and the disk driver are modelled with all their interleavings.
- Log.LogLayer.EndOp: requires that nobody holds a logged block when the last operation ends; the source's
  write_log would sleep until a reader outside any transaction lets go of it. It also takes it that no
  operation has let go of a changed block without logging it; `LogMachine` has those runs.
- Bcache.Cache.Bread: is for a caller that need not wait for the buffer's lock, and for a cache in which nobody
  holds a block that has been unpinned once too often; `BufferReuse` shows what can happen then.
- Files.FileSystem.Bmap: bounds the blocks it logs from above by `Touched`; which of them it logs is fixed by
  the invariant that every changed block is logged.
- Directories.Dirs.Dirlink: a directory's contents are a list of entries; running out of disk blocks while
  adding one is modelled by `FileData.Writei`, not here.
- Directories.Dirs.SysLink: device numbers, of which there is one, are not modelled.
- Malloc.Heap.Malloc: what sbrk gives is a parameter, at an address above all memory obtained before; what
  happens once sbrk has been asked for the wrong number of bytes is not modelled.
- Virtio.Driver.Submit: sleeping until descriptors are free, and until the device has finished, is left to the
  caller; `ProcMachine` models sleep and wakeup.
- exec, pipes, open files and their table, devices, the console, traps and the trap frame, spinlocks and
  memory barriers, timer and interrupt setup, mkfs, the shell and the other user programs.
- Word encodings of page-table entries beyond their flags and page number, and the TLB.
