# A verified model of xv6

This project models the kernel and two user programs of the xv6 operating
system in `G12_Project1_xv6CustomizeSystemCalls` and proves what their design
promises. `dafny verify dfyconfig.toml` checks all of it. The second copy of the
same code in the repository is not modelled.

## The parts

**Crash-safe storage.** `Disk`, `Recovery`, `GroupCommit` and `Log` cover
`kernel/log.c`. The disk is a sequence of blocks, every block write one atomic
step, and a crash possible between any two of them. `Recovery` is about the
writes of one commit and of recovery, `GroupCommit` about all interleavings of
operations, commits and crashes, and `Log` is the code itself, each method
shown to issue exactly the writes, or to be the step, of the specification.
`Blocks`, `Ownership`, `FileData` and `FileSystem` cover the block allocator and
the inode contents of `kernel/fs.c` and the chunked write of `kernel/file.c`:
free map, direct and indirect slots as they are on disk, an ownership
invariant, and files as byte sequences. `Mkfs` covers the image that
`mkfs/mkfs.c` builds. `LinkCounts` and `Directories` cover directory entries
and link counts of `kernel/sysfile.c`. `BufferCache` covers `kernel/bio.c` and
`Virtqueue` the descriptor rings of `kernel/virtio_disk.c` (VIRTIO 1.1,
sections 2.6 and 5.2.6).

**Virtual memory.** `PageTable`, `UserMemory`, `AddressSpaces` and
`VirtualMemory` cover `kernel/vm.c`, `kernel/kalloc.c` and the memory part of
`kernel/proc.c`: the three-level tree of Sv39 (section 4.4 of the RISC-V
Privileged Architecture, version 20211203) as a finite map, and one owner for
every physical page through all rollbacks.

**Processes.** `Processes` states the protocol of `kernel/proc.c` and
`kernel/sleeplock.c` as a step relation with one step between any two lock
operations or context switches, with preemption at every point without
spinlocks and with wakeups from interrupt handlers. `ProcessInvariant`, `ProcessProofs`,
`ProcessKnowledge`, `ProcessSteps`, `ProcessBooks` and `ProcessTheorems` prove
the invariant and what follows in every reachable state, `ProcessStatus` that
exit statuses arrive.

**Allocator.** `Tiles`, `FreeList` and `Malloc` cover `user/umalloc.c`.

**Shell and grep.** `ShellSyntax`, `ShellRoundTrip`, `ShellGrammar` and `Shell`
cover the parser of `user/sh.c`, `Grep` the matcher and line filter of `user/grep.c`.

**Pipe.** `Pipe` covers `kernel/pipe.c`: the bytes over all interleavings, and who
sleeps.

`DistinctElements` is a helper of several of these.

## Where the code needs a condition

- `log_write` looks for a full log (`kernel/log.c:221`) before it looks for
  absorption (line 226), so that an absorbed write to a full log would panic as
  well; `GroupCommit.LogNeverFull` shows that a full log is not reached.
- An entry in a directory that has been unlinked already is counted but is no
  link: `LinkCounts.CreateKeepsIff`, `LinkKeepsIff` and `MkdirKeepsIff` give the
  exact condition, which the code does not check, and `DeadParent` an input.
- The root directory that mkfs makes has a hole exactly when its entries fill
  whole blocks (`Mkfs.RootHoleIff`), as they do with 62 files
  (`Mkfs.SixtyTwoFiles`). An image that does not fit on the disk is never
  finished: mkfs dies when it reads back a sector beyond its end
  (`mkfs/mkfs.c:218`), which `Mkfs.Image.BlockFor` models.
- The byte count that `morecore` passes to `sbrk` fits in an int exactly for
  requests of fewer than 2^27 units (`Malloc.SbrkArgumentFits`); the first that
  does not makes `sbrk` shrink the process (`Malloc.SbrkShrinks`).
- `grep` gives up at a line with 1023 or more characters before its newline
  (`Grep.PrintsAllIff`, with an input in `Grep.OverlongLost`).
- A writer of a pipe that finds itself killed returns without a wakeup for the
  bytes it has put in (`kernel/pipe.c:84-87`), so that a reader may sleep on
  beside them: `Pipe.SleepersAwake` says exactly when, `Pipe.ForgottenReader`
  gives a run.
- `bget` may run out of buffers; `BufferCache.Cache.Bget` says when.

## Model

| member | source | states |
|---|---|---|
| Recovery.CrashAtomicity | G12_Project1_xv6CustomizeSystemCalls/kernel/log.c:66-124 | a commit that crashes after any prefix of its block writes, followed by any number of crashes inside recovery, ends after one complete recovery in exactly the home blocks before the transaction if the header write was not issued yet, and in exactly those after it otherwise |
| Recovery.CommitPrefix | G12_Project1_xv6CustomizeSystemCalls/kernel/log.c:179-204 | every prefix of the writes of `commit` leaves a disk that promises the old contents before the header write and the new contents from it on |
| Recovery.CrashedRecoveryKeeps | G12_Project1_xv6CustomizeSystemCalls/kernel/log.c:66-124 | a recovery that crashes after any of its own block writes keeps the promise |
| Recovery.CrashesKeep | G12_Project1_xv6CustomizeSystemCalls/kernel/log.c:66-124 | so does any sequence of crashed recoveries |
| Recovery.RecoveryDelivers | G12_Project1_xv6CustomizeSystemCalls/kernel/log.c:118-124 | a complete recovery turns the promise into the home blocks themselves and leaves an empty log |
| GroupCommit.StepKeeps | G12_Project1_xv6CustomizeSystemCalls/kernel/log.c:127-236 | every interleaved step of `begin_op`, `log_write`, `end_op`, of a running commit, and every crash keeps the invariant: distinct header entries inside the reserved space, pinned buffers, and a frozen header while a commit runs |
| GroupCommit.LogNeverFull | G12_Project1_xv6CustomizeSystemCalls/kernel/log.c:215-223 | the panic "too big a transaction" is unreachable for an operation that has added fewer than MAXOPBLOCKS blocks so far, in every interleaving, although the check precedes the search for absorption |
| GroupCommit.CommitIsAlone | G12_Project1_xv6CustomizeSystemCalls/kernel/log.c:145-176 | while a commit runs no operation is outstanding, no operation can begin, and header and pinned contents do not change |
| GroupCommit.CrashSafe | G12_Project1_xv6CustomizeSystemCalls/kernel/log.c:54-124 | from every reachable state, any crashes and one recovery give the contents of a moment without an operation in progress |
| GroupCommit.RunsAreSafe | G12_Project1_xv6CustomizeSystemCalls/kernel/log.c:127-236 | the invariant over whole runs |
| GroupCommit.StepView | G12_Project1_xv6CustomizeSystemCalls/kernel/log.c:127-236 | a reader of the buffer cache sees a change only by `log_write`, which changes one block to exactly what was written, absorbed or not, and by a crash |
| GroupCommit.NewestWrite | G12_Project1_xv6CustomizeSystemCalls/kernel/log.c:215-236 | what a run is meant to leave in a block is what was logged for it last |
| GroupCommit.ReadersSeeLogged | G12_Project1_xv6CustomizeSystemCalls/kernel/log.c:127-236 | in every reachable state a reader sees that |
| GroupCommit.WholeOperationsSurvive | G12_Project1_xv6CustomizeSystemCalls/kernel/log.c:127-204 | after any run from boot and any crashes, recovery leaves exactly the contents that the logged writes give at the last moment without an operation in progress, or, while the header of its commit is not written, at the one before it: whole operations, all or nothing |
| Log.Journal.constructor | G12_Project1_xv6CustomizeSystemCalls/kernel/log.c:54-63 | `initlog` recovers whatever recoverable log it finds |
| Log.Journal.ReadHead | G12_Project1_xv6CustomizeSystemCalls/kernel/log.c:88-98 | the header block is decoded into the in-memory header |
| Log.Journal.WriteHead | G12_Project1_xv6CustomizeSystemCalls/kernel/log.c:104-115 | the header block is written with exactly the in-memory header; its other words stay |
| Log.Journal.InstallTrans | G12_Project1_xv6CustomizeSystemCalls/kernel/log.c:67-84 | the log blocks are copied home in order, one block write each, and unpinned unless recovering |
| Log.Journal.RecoverFromLog | G12_Project1_xv6CustomizeSystemCalls/kernel/log.c:118-124 | issues exactly the block writes of the recovery specification |
| Log.Journal.TryBeginOp | G12_Project1_xv6CustomizeSystemCalls/kernel/log.c:128-143 | the operation begins exactly when no commit runs and the worst case of all operations fits into the log; otherwise it would sleep |
| Log.Journal.LogWrite | G12_Project1_xv6CustomizeSystemCalls/kernel/log.c:216-236 | the block is absorbed or appended to the header, and pinned with its new contents; a step of the state machine; afterwards the block reads as written and no other block differs |
| Log.Journal.WriteLog | G12_Project1_xv6CustomizeSystemCalls/kernel/log.c:180-192 | copies the pinned blocks to the log, one block write each |
| Log.Journal.Commit | G12_Project1_xv6CustomizeSystemCalls/kernel/log.c:195-204 | issues exactly the writes of the commit specification, and the home blocks take the pinned contents |
| Log.Journal.EndOp | G12_Project1_xv6CustomizeSystemCalls/kernel/log.c:147-176 | the last operation out commits; otherwise only the reservation is given back; no block reads differently afterwards, and after a commit the disk holds what was read before |
| Tiles.BlocksDisjoint | G12_Project1_xv6CustomizeSystemCalls/user/umalloc.c:24-90 | no two blocks, live or free, share a unit |
| Tiles.ReleaseTiled | G12_Project1_xv6CustomizeSystemCalls/user/umalloc.c:24-29 | turning a live block into a free one keeps the units obtained from sbrk exactly tiled |
| Tiles.JoinTiled | G12_Project1_xv6CustomizeSystemCalls/user/umalloc.c:33-41 | so does joining two adjacent free blocks |
| Tiles.HandTiled | G12_Project1_xv6CustomizeSystemCalls/user/umalloc.c:75-84 | and handing out a free block or its tail |
| FreeList.GapExists | G12_Project1_xv6CustomizeSystemCalls/user/umalloc.c:30-32 | from wherever `freep` stands, the circular walk of `free` reaches a gap for the block |
| FreeList.FreedOk | G12_Project1_xv6CustomizeSystemCalls/user/umalloc.c:33-43 | after `free` the list is circular, address-ordered with one wrap point, lists exactly the free blocks, and no two of them touch |
| FreeList.FreedHeaders | G12_Project1_xv6CustomizeSystemCalls/user/umalloc.c:33-43 | the pointer assignments of `free` build exactly that list |
| FreeList.CarveOk | G12_Project1_xv6CustomizeSystemCalls/user/umalloc.c:75-84 | after a first fit the list keeps these properties, for an exact fit and for a split |
| FreeList.GrownOk | G12_Project1_xv6CustomizeSystemCalls/user/umalloc.c:54-59 | a fresh region from sbrk is a live block that can be freed like any other |
| Malloc.NUnitsFits | G12_Project1_xv6CustomizeSystemCalls/user/umalloc.c:69 | the unit count covers the request and its header |
| Malloc.SbrkArgumentFits | G12_Project1_xv6CustomizeSystemCalls/user/umalloc.c:52-54 | `sbrk(int)` is asked for the bytes of the block exactly when fewer than 2^27 units are needed |
| Malloc.SbrkShrinks | G12_Project1_xv6CustomizeSystemCalls/user/umalloc.c:52-69 | the first request that is too large, 2147483632 bytes, asks `sbrk` to shrink the process by 2 GB |
| Malloc.Allocator.Free | G12_Project1_xv6CustomizeSystemCalls/user/umalloc.c:25-44 | the block moves from the live to the free blocks and nothing else does, and the search loop ends |
| Malloc.Allocator.FindGap | G12_Project1_xv6CustomizeSystemCalls/user/umalloc.c:30-32 | the search loop ends at the one gap that the block belongs to |
| Malloc.Allocator.MoreCore | G12_Project1_xv6CustomizeSystemCalls/user/umalloc.c:47-61 | a region of at least 4096 units joins the free blocks, or nothing changes |
| Malloc.Allocator.Carve | G12_Project1_xv6CustomizeSystemCalls/user/umalloc.c:75-84 | the found block is handed out whole or by its tail |
| Malloc.Allocator.Malloc | G12_Project1_xv6CustomizeSystemCalls/user/umalloc.c:64-90 | the result is a new live block of the requested size that overlaps no other, or null when sbrk refuses, or, exactly when no free block is large enough and the byte count does not fit in an int, a wild call of sbrk; the loop calls `morecore` at most once; memory is asked for only when no free block is large enough |
| Ownership.BitMeansOneOwner | G12_Project1_xv6CustomizeSystemCalls/kernel/fs.c:66-106 | a bit of the free map is set exactly when the block is metadata or held by a slot of an inode, and then by exactly one slot of exactly one inode |
| Ownership.MarkOwned | G12_Project1_xv6CustomizeSystemCalls/kernel/fs.c:76-82 | allocating the first clear bit never takes a block in use |
| Ownership.PlaceAddr | G12_Project1_xv6CustomizeSystemCalls/kernel/fs.c:411-429 | a new block in an empty direct or table slot gets that one owner |
| Ownership.PlaceEntry | G12_Project1_xv6CustomizeSystemCalls/kernel/fs.c:432-436 | so does a new block in an empty entry of an indirect table |
| Ownership.DropAddr | G12_Project1_xv6CustomizeSystemCalls/kernel/fs.c:455-459 | freeing a direct block and clearing its slot leaves every other block with its owner |
| Ownership.FreeOwned | G12_Project1_xv6CustomizeSystemCalls/kernel/fs.c:93-106 | the bit of an owned block is set, so that "freeing free block" is unreachable |
| Ownership.DropTable | G12_Project1_xv6CustomizeSystemCalls/kernel/fs.c:462-472 | once an indirect table and all its blocks are free, clearing the table slot restores the invariant |
| FileData.WrittenChunk | G12_Project1_xv6CustomizeSystemCalls/kernel/fs.c:538-548 | one chunk of a write changes exactly its bytes of its file |
| FileData.WrittenContents | G12_Project1_xv6CustomizeSystemCalls/kernel/fs.c:550-558 | the chunks written so far and the new size amount to a splice of the file contents |
| FileData.OthersSurvive | G12_Project1_xv6CustomizeSystemCalls/kernel/fs.c:449-476 | truncating a file changes no byte of any other |
| FileData.SplicedTwice | G12_Project1_xv6CustomizeSystemCalls/kernel/file.c:155-172 | consecutive writes are one write of the concatenation |
| FileSystem.Volume.Balloc | G12_Project1_xv6CustomizeSystemCalls/kernel/fs.c:67-89 | the lowest free block, zeroed and marked, or 0 exactly when the disk is full; every block it changes is handed to `log_write` |
| FileSystem.Volume.Bfree | G12_Project1_xv6CustomizeSystemCalls/kernel/fs.c:93-106 | clears the one bit |
| FileSystem.Volume.Bmap | G12_Project1_xv6CustomizeSystemCalls/kernel/fs.c:406-444 | returns the block of the file block, allocating it and the table if needed; ownership holds afterwards even when it fails, and the contents of all files stay; every block it changes is handed to `log_write` |
| FileSystem.Volume.Itrunc | G12_Project1_xv6CustomizeSystemCalls/kernel/fs.c:449-476 | exactly the blocks of this inode become free, and no other file changes; every block it changes is handed to `log_write` |
| FileSystem.Volume.FreeInode | G12_Project1_xv6CustomizeSystemCalls/kernel/fs.c:354-357 | the truncate-and-free part of `iput`: the blocks and the inode become free, no other file changes, and at most two blocks are logged when one bitmap block covers the disk; every block it changes is handed to `log_write` |
| FileSystem.Volume.Ireclaim | G12_Project1_xv6CustomizeSystemCalls/kernel/fs.c:373-393 | exactly the inodes in use without links become free, with all their blocks and no others, and every other file reads as before |
| FileSystem.Volume.Ialloc | G12_Project1_xv6CustomizeSystemCalls/kernel/fs.c:200-220 | the first free inode, zeroed, or 0 when there is none; every block it changes is handed to `log_write` |
| FileSystem.Volume.Readi | G12_Project1_xv6CustomizeSystemCalls/kernel/fs.c:495-522 | returns exactly the slice of the file that `off` and `n` denote under 32-bit wrap-around, and allocates nothing, as files have no holes |
| FileSystem.Volume.WriteBlock | G12_Project1_xv6CustomizeSystemCalls/kernel/fs.c:538-548 | one round of the loop of `writei`; every block it changes is handed to `log_write` |
| FileSystem.Volume.Writei | G12_Project1_xv6CustomizeSystemCalls/kernel/fs.c:529-560 | splices the first r bytes into the file, with size max(size, off + r), fails exactly for a bad offset or size, keeps ownership even when the disk fills up half way, and logs at most the blocks counted for it; every block it changes is handed to `log_write` |
| FileSystem.Volume.WriteOp | G12_Project1_xv6CustomizeSystemCalls/kernel/file.c:159-164 | one transaction of `filewrite` logs at most seven blocks; every block it changes is handed to `log_write` |
| FileSystem.Volume.Filewrite | G12_Project1_xv6CustomizeSystemCalls/kernel/file.c:148-173 | chunked writing is one splice at the file offset, the result tells whether all of it was written, and every transaction stays within seven blocks |
| Mkfs.BitsBelowAt | G12_Project1_xv6CustomizeSystemCalls/mkfs/mkfs.c:245-247 | the free map that `balloc` writes has exactly the bits below `freeblock` set |
| Mkfs.RootHoleIff | G12_Project1_xv6CustomizeSystemCalls/mkfs/mkfs.c:165-170 | rounding up the size of the root directory leaves a hole at its end exactly when the entries fill whole blocks |
| Mkfs.Image.FixRoot | G12_Project1_xv6CustomizeSystemCalls/mkfs/mkfs.c:165-170 | the image can be mounted, without holes, exactly when the entries do not fill whole blocks; then what shows behind the old end is zero, and no other file changes |
| Mkfs.SixtyTwoFiles | G12_Project1_xv6CustomizeSystemCalls/mkfs/mkfs.c:165-170 | with 62 files the root directory has a hole |
| Mkfs.Image.Build | G12_Project1_xv6CustomizeSystemCalls/mkfs/mkfs.c:117-172 | the finished image holds every file with its contents and its entry in the root directory, each block has one owner, and the free map on disk is that of the image; it can be mounted exactly when the entries do not fill whole blocks |
| FileSystem.Volume.constructor | G12_Project1_xv6CustomizeSystemCalls/kernel/fs.c:40-48 | a disk without holes in which every block has one owner satisfies the invariant of all later operations |
| Mkfs.Image.constructor | G12_Project1_xv6CustomizeSystemCalls/mkfs/mkfs.c:108-115 | the empty image satisfies the ownership invariant |
| Mkfs.Image.BlockFor | G12_Project1_xv6CustomizeSystemCalls/mkfs/mkfs.c:267-285 | a file block gets the next block in order, and its table before it; mkfs dies exactly when that block lies beyond the image |
| Mkfs.Image.Iappend | G12_Project1_xv6CustomizeSystemCalls/mkfs/mkfs.c:254-296 | the bytes are appended to the file, behind its end is nothing but zeros, and no other file changes; it fails only when the file is too large or the image is full |
| Mkfs.Image.Ialloc | G12_Project1_xv6CustomizeSystemCalls/mkfs/mkfs.c:222-234 | the next inode, with one link, while there is one |
| Mkfs.Image.Balloc | G12_Project1_xv6CustomizeSystemCalls/mkfs/mkfs.c:236-250 | writes the free map that makes the image consistent |
| LinkCounts.EnterFile | G12_Project1_xv6CustomizeSystemCalls/kernel/sysfile.c:282-285 | entering a counted link into a directory of the tree keeps every link count equal to the number of entries that name the inode |
| LinkCounts.EnterDir | G12_Project1_xv6CustomizeSystemCalls/kernel/sysfile.c:276-289 | so does mkdir, whose ".." counts for the parent |
| LinkCounts.RemoveFile | G12_Project1_xv6CustomizeSystemCalls/kernel/sysfile.c:222-233 | so does unlinking a file |
| LinkCounts.EmptyDirLinks | G12_Project1_xv6CustomizeSystemCalls/kernel/sysfile.c:217-229 | an empty directory of the tree has exactly one link, and its parent at least two |
| LinkCounts.RemoveDir | G12_Project1_xv6CustomizeSystemCalls/kernel/sysfile.c:222-233 | unlinking an empty directory takes exactly its links away, and its count becomes 0 |
| LinkCounts.CountLink | G12_Project1_xv6CustomizeSystemCalls/kernel/sysfile.c:145-147 | a link that `sys_link` has counted but not entered is accounted for between its two halves |
| LinkCounts.FreeInode | G12_Project1_xv6CustomizeSystemCalls/kernel/fs.c:343-358 | freeing an inode without links changes no count |
| LinkCounts.CreateKeepsIff | G12_Project1_xv6CustomizeSystemCalls/kernel/sysfile.c:246-302 | creating a file or device keeps the link counts right exactly when its directory is still in the tree; the code does not check that |
| LinkCounts.LinkKeepsIff | G12_Project1_xv6CustomizeSystemCalls/kernel/sysfile.c:149-160 | so does entering the new link of sys_link |
| LinkCounts.MkdirKeepsIff | G12_Project1_xv6CustomizeSystemCalls/kernel/sysfile.c:246-302 | and mkdir |
| LinkCounts.DeadParent | G12_Project1_xv6CustomizeSystemCalls/kernel/sysfile.c:246-302 | a removed directory in which creating a file, and mkdir, break the link counts |
| LinkCounts.ImageTreeIff | G12_Project1_xv6CustomizeSystemCalls/mkfs/mkfs.c:117-170 | in the image of mkfs, one link for every inode is right exactly when the files have distinct names other than "." and ".." |
| Directories.Tree.Dirlookup | G12_Project1_xv6CustomizeSystemCalls/kernel/fs.c:575-598 | the first used entry with the name, or none |
| Directories.Tree.Dirlink | G12_Project1_xv6CustomizeSystemCalls/kernel/fs.c:603-629 | fails exactly for a name in use or when a new entry finds no room; otherwise the first unused slot takes the entry |
| Directories.Tree.Isdirempty | G12_Project1_xv6CustomizeSystemCalls/kernel/sysfile.c:174-186 | true exactly when all entries but the first two are unused |
| Directories.Tree.Create | G12_Project1_xv6CustomizeSystemCalls/kernel/sysfile.c:246-302 | leaves everything as it was when it fails at any of its steps, and otherwise makes one entry, "." and ".." included for a directory; the link counts stay right exactly unless it makes something in a directory that is not in the tree any more, where it may also panic on ".."; a failure has one of the reasons that the code looks for |
| Directories.Tree.LinkBegin | G12_Project1_xv6CustomizeSystemCalls/kernel/sysfile.c:129-147 | the new link is counted, except for directories |
| Directories.Tree.LinkEnd | G12_Project1_xv6CustomizeSystemCalls/kernel/sysfile.c:149-169 | the link is entered or the count is taken back, whatever happened in between; the counts stay right exactly unless it is entered in a directory that is not in the tree any more; a failure has one of the reasons that the code looks for |
| Directories.Tree.SysUnlink | G12_Project1_xv6CustomizeSystemCalls/kernel/sysfile.c:189-243 | removes one entry and one count, refuses "." and ".." and directories that are not empty, and drops the count of a directory to 0 only when it is empty; its panics are unreachable; the inode is freed exactly when that was its last link and its last reference |
| Directories.Tree.Iput | G12_Project1_xv6CustomizeSystemCalls/kernel/fs.c:338-363 | an inode is freed exactly when its last reference goes and it has no links |
| Directories.Tree.Ireclaim | G12_Project1_xv6CustomizeSystemCalls/kernel/fs.c:373-393 | exactly the orphans are freed, the link counts stay right, and every inode that remains is named by an entry in the tree |
| PageTable.OnePlace | G12_Project1_xv6CustomizeSystemCalls/kernel/kalloc.c:46-82 | every allocatable page but those handed to the kernel itself and to pipes is in exactly one place: the free list, one table of one address space, one user mapping, or one trapframe; the free list has no page twice |
| VirtualMemory.Vm.constructor | G12_Project1_xv6CustomizeSystemCalls/kernel/kalloc.c:26-41 | `kinit` and `freerange` put every page from the end of the kernel on into the free list, once, and establish the invariant of all later operations |
| PageTable.DistinctEntries | G12_Project1_xv6CustomizeSystemCalls/kernel/riscv.h:374-376 | distinct virtual pages use distinct page-table entries |
| PageTable.AfterSet | G12_Project1_xv6CustomizeSystemCalls/kernel/vm.c:98-115 | writing one entry of a table changes the tree at that one position and nowhere else |
| PageTable.LinkOwned | G12_Project1_xv6CustomizeSystemCalls/kernel/vm.c:146-174 | linking a fresh table or page keeps every page in one place |
| PageTable.UnlinkOwned | G12_Project1_xv6CustomizeSystemCalls/kernel/vm.c:206-210 | so does freeing a mapped page and clearing its entry |
| PageTable.DropSpace | G12_Project1_xv6CustomizeSystemCalls/kernel/vm.c:263-288 | so does dropping a whole tree without mapped pages |
| UserMemory.PutWrote | G12_Project1_xv6CustomizeSystemCalls/kernel/vm.c:368 | writing into a mapped page shows at its own user addresses and at no other address of any process |
| UserMemory.FaultWrote | G12_Project1_xv6CustomizeSystemCalls/kernel/vm.c:464-471 | mapping a zero page where nothing was mapped changes no user byte |
| UserMemory.CopyRoundTrip | G12_Project1_xv6CustomizeSystemCalls/kernel/vm.c:342-403 | bytes copied out and read back are the same bytes |
| AddressSpaces.NewSpace | G12_Project1_xv6CustomizeSystemCalls/kernel/vm.c:178-187 | a new address space is empty and takes one page |
| AddressSpaces.NewFrame | G12_Project1_xv6CustomizeSystemCalls/kernel/proc.c:128-133 | a new trapframe takes one page and changes no address space |
| AddressSpaces.DropFrame | G12_Project1_xv6CustomizeSystemCalls/kernel/proc.c:158-160 | a trapframe page goes back to the free list, once |
| VirtualMemory.Indices | G12_Project1_xv6CustomizeSystemCalls/kernel/riscv.h:371-376 | the 9-bit fields of an address are the path of its page number |
| VirtualMemory.Vm.Kalloc | G12_Project1_xv6CustomizeSystemCalls/kernel/kalloc.c:69-82 | takes the head of the free list, or returns 0 exactly when it is empty |
| VirtualMemory.Vm.Kfree | G12_Project1_xv6CustomizeSystemCalls/kernel/kalloc.c:47-63 | pushes the page; its requirement is what rules out a double free |
| VirtualMemory.Vm.Walk | G12_Project1_xv6CustomizeSystemCalls/kernel/vm.c:98-115 | finds the last-level table of an address, or makes the missing tables; no mapping of any process changes; it fails only when fewer pages are free than tables are missing |
| VirtualMemory.Vm.Walkaddr | G12_Project1_xv6CustomizeSystemCalls/kernel/vm.c:121-138 | the physical page exactly for a valid user mapping below MAXVA |
| VirtualMemory.Vm.Mappages | G12_Project1_xv6CustomizeSystemCalls/kernel/vm.c:146-174 | on success exactly its range is mapped to consecutive pages; on failure a prefix of it is, and memory is out; its panics are excluded by its requirements; one page fails only for want of free pages for its missing tables |
| VirtualMemory.Vm.Uvmcreate | G12_Project1_xv6CustomizeSystemCalls/kernel/vm.c:179-187 | an empty address space, or 0 when memory is out |
| VirtualMemory.Vm.Uvmunmap | G12_Project1_xv6CustomizeSystemCalls/kernel/vm.c:193-212 | exactly its range is unmapped, exactly its pages become free, and all other lookups stay |
| VirtualMemory.Vm.AddPage | G12_Project1_xv6CustomizeSystemCalls/kernel/vm.c:464-472 | allocating and mapping a page, with the page given back when the mapping fails; it fails only when fewer pages are free than the page and its missing tables need |
| VirtualMemory.Vm.Uvmdealloc | G12_Project1_xv6CustomizeSystemCalls/kernel/vm.c:247-258 | the pages between the two sizes are unmapped and free |
| VirtualMemory.Vm.Uvmalloc | G12_Project1_xv6CustomizeSystemCalls/kernel/vm.c:217-240 | all new pages are mapped and zero, or none is and all pages taken for them are free again; it fails only when fewer pages are free than the new pages and their tables need |
| VirtualMemory.Vm.Freewalk | G12_Project1_xv6CustomizeSystemCalls/kernel/vm.c:263-278 | frees exactly the tables of a tree without mapped pages, so that its panic is unreachable |
| VirtualMemory.Vm.Uvmfree | G12_Project1_xv6CustomizeSystemCalls/kernel/vm.c:283-288 | every page and table of the address space is free again, and no other address space changes |
| VirtualMemory.Vm.Uvmcopy | G12_Project1_xv6CustomizeSystemCalls/kernel/vm.c:297-324 | on success every page below the size is copied with its permissions or unmapped in both; on failure nothing stays mapped in the child; it fails only when fewer pages are free than the size and its tables need |
| VirtualMemory.Vm.NoSharing | G12_Project1_xv6CustomizeSystemCalls/kernel/vm.c:304-318 | distinct user mappings never share a physical page |
| VirtualMemory.Vm.Vmfault | G12_Project1_xv6CustomizeSystemCalls/kernel/vm.c:453-473 | maps a zero page below the size where nothing was mapped; what the user sees does not change |
| VirtualMemory.Vm.Copyin | G12_Project1_xv6CustomizeSystemCalls/kernel/vm.c:381-403 | delivers exactly the bytes that the user memory shows, lazily allocated pages reading as zero, and fails only at a page it says cannot be copied; every byte was readable by the user |
| VirtualMemory.Vm.Copyout | G12_Project1_xv6CustomizeSystemCalls/kernel/vm.c:343-375 | the bytes show up at the address and no other user byte of any process changes, for any length across pages; a failure has written a prefix; every byte was writable by the user |
| VirtualMemory.Vm.ProcPagetable | G12_Project1_xv6CustomizeSystemCalls/kernel/proc.c:177-206 | a page table with only trampoline and trapframe mapped, or nothing at all; it fails only when fewer than five pages are free |
| VirtualMemory.Vm.ProcFreepagetable | G12_Project1_xv6CustomizeSystemCalls/kernel/proc.c:211-216 | every page of the address space is free again, but not those of the two top pages |
| VirtualMemory.Vm.Freeproc | G12_Project1_xv6CustomizeSystemCalls/kernel/proc.c:156-172 | gives back trapframe and address space of a process in every state of its construction |
| VirtualMemory.Vm.Allocproc | G12_Project1_xv6CustomizeSystemCalls/kernel/proc.c:128-141 | trapframe and page table for a process, or nothing is kept; it fails only when fewer than six pages are free |
| VirtualMemory.Vm.Growproc | G12_Project1_xv6CustomizeSystemCalls/kernel/proc.c:237-255 | keeps user mappings below the rounded size and below the trapframe, so that "remap" is unreachable; what the user sees below the smaller size stays, and whole new pages read as zero; it fails only when the new size is too large or fewer pages are free than it needs |
| VirtualMemory.Vm.SysSbrk | G12_Project1_xv6CustomizeSystemCalls/kernel/sysproc.c:39-64 | eager and lazy growth move the size alike and change no byte that the user sees; it fails only when the new size is too large or, growing eagerly, fewer pages are free than it needs |
| VirtualMemory.Vm.Kfork | G12_Project1_xv6CustomizeSystemCalls/kernel/proc.c:260-280 | the child reads the same at every user address, in pages of its own, with the registers of its parent but a0; or nothing is kept and the parent is as before; it fails only when fewer pages are free than the memory of the parent, its tables and four more need, or fewer than six |
| ProcessProofs.Exclusive | G12_Project1_xv6CustomizeSystemCalls/kernel/proc.c:472-490 | no two threads hold the same spinlock, across every context switch |
| ProcessProofs.SwitchLocks | G12_Project1_xv6CustomizeSystemCalls/kernel/proc.c:472-488 | a thread that calls `sched` holds its own process lock and nothing else |
| ProcessKnowledge.PcKeep | G12_Project1_xv6CustomizeSystemCalls/kernel/proc.c:326-490 | what a thread knows at its program counter survives the steps of all others |
| ProcessSteps.ReparentGood | G12_Project1_xv6CustomizeSystemCalls/kernel/proc.c:311-321 | handing a zombie to init is followed by waking init |
| ProcessSteps.ExitSetGood | G12_Project1_xv6CustomizeSystemCalls/kernel/proc.c:354-359 | a process becomes a zombie only when its parent is not asleep in `kwait` |
| ProcessSteps.SleepRelGood | G12_Project1_xv6CustomizeSystemCalls/kernel/proc.c:554-559 | a thread gives up the condition lock only while there is nothing to wake it for |
| ProcessTheorems.StepKeeps | G12_Project1_xv6CustomizeSystemCalls/kernel/proc.c:259-587 | every step of every process thread, with the timer taking it off its CPU at any point without spinlocks, of every scheduler, and of every interrupt handler that wakes sleepers keeps the invariant |
| ProcessTheorems.RunsKeep | G12_Project1_xv6CustomizeSystemCalls/kernel/proc.c:259-587 | so it holds in every reachable state |
| ProcessTheorems.OneCpu | G12_Project1_xv6CustomizeSystemCalls/kernel/proc.c:425-463 | no process is on two CPUs, and none is freed before its CPU has left its kernel stack; a RUNNING process is on a CPU |
| ProcessTheorems.LivingParents | G12_Project1_xv6CustomizeSystemCalls/kernel/proc.c:311-366 | no process has a zombie or freed parent, and every started process but init has a parent |
| ProcessTheorems.NoSleepingParent | G12_Project1_xv6CustomizeSystemCalls/kernel/proc.c:354-414 | while wait_lock is free, no parent sleeps in `kwait` with a zombie child |
| ProcessTheorems.FreedByParent | G12_Project1_xv6CustomizeSystemCalls/kernel/proc.c:382-401 | only its current parent, in `kwait`, frees a zombie |
| ProcessTheorems.ChildlessWait | G12_Project1_xv6CustomizeSystemCalls/kernel/proc.c:403-414 | `kwait` returns without a zombie exactly when the process has no children or was killed; otherwise it sleeps |
| ProcessTheorems.ReapedOnce | G12_Project1_xv6CustomizeSystemCalls/kernel/proc.c:358-400 | each exit is reaped at most once, with the status recorded for it, and an exited process that was not reaped is still there |
| ProcessStatus.StepStatus | G12_Project1_xv6CustomizeSystemCalls/kernel/proc.c:326-366 | the status inside `kexit` never changes on its way to the zombie |
| ProcessStatus.ReapsAsked | G12_Project1_xv6CustomizeSystemCalls/kernel/proc.c:326-400 | over every run, what `kwait` reports for a process is the status that this process passed to `kexit` |
| ProcessTheorems.NoLostWakeup | G12_Project1_xv6CustomizeSystemCalls/kernel/proc.c:543-587 | when `wakeup` has gone through the table, no other process sleeps on the channel or is about to, in any interleaving with `sleep`, the schedulers and interrupts, where one lock may guard any number of channels |
| ProcessTheorems.NoLostInterrupt | G12_Project1_xv6CustomizeSystemCalls/kernel/proc.c:573-587 | the same for a `wakeup` in an interrupt handler |
| ProcessTheorems.SleeplockSafe | G12_Project1_xv6CustomizeSystemCalls/kernel/sleeplock.c:22-52 | a sleep-lock has at most one holder, `holdingsleep` tells exactly the holder, and nobody sleeps for a lock that is free |
| ProcessTheorems.SchedOk | G12_Project1_xv6CustomizeSystemCalls/kernel/proc.c:478-485 | the panics of `sched` about locks are unreachable |
| ProcessTheorems.OnlyLocksBlock | G12_Project1_xv6CustomizeSystemCalls/kernel/proc.c:259-587 | a running thread can always take its next step once the lock it wants is free |
| ShellSyntax.GetToken | G12_Project1_xv6CustomizeSystemCalls/user/sh.c:272-314 | a token makes progress unless the input is at its end, and a word token is a whole word |
| ShellSyntax.ParseLine | G12_Project1_xv6CustomizeSystemCalls/user/sh.c:351-365 | the parser ends on every input, and every word of the command it builds is a whole word of the input |
| ShellSyntax.ParseArgs | G12_Project1_xv6CustomizeSystemCalls/user/sh.c:435-448 | at most nine words are collected |
| ShellGrammar.ParsesIff | G12_Project1_xv6CustomizeSystemCalls/user/sh.c:272-452 | the parser accepts a text exactly when its tokens are those of a line of the grammar, with redirections anywhere in a simple command and at most nine words, and builds the tree of that line, with redirections around the command in the order written |
| ShellGrammar.LineRoundTrip | G12_Project1_xv6CustomizeSystemCalls/user/sh.c:334-452 | any line of the grammar, printed without needless parentheses, parses to its tree |
| ShellGrammar.PlainRoundTrip | G12_Project1_xv6CustomizeSystemCalls/user/sh.c:334-452 | so does every printable tree, printed with parentheses only around what is no simple command, pipe or list in its place |
| ShellRoundTrip.RoundTrip | G12_Project1_xv6CustomizeSystemCalls/user/sh.c:334-452 | parsing what a fully parenthesising printer prints gives the same command tree, for every tree with non-empty plain words, nine at most in a simple command |
| ShellRoundTrip.LineParses | G12_Project1_xv6CustomizeSystemCalls/user/sh.c:351-452 | the printed text of a tree parses to that tree in every context, up to where the text ends |
| ShellRoundTrip.PrintInjective | G12_Project1_xv6CustomizeSystemCalls/user/sh.c:334-452 | different command trees print differently |
| Shell.CutsSpareWords | G12_Project1_xv6CustomizeSystemCalls/user/sh.c:455-499 | no terminator that `nulterminate` writes falls into a word |
| Shell.Parser.Gettoken | G12_Project1_xv6CustomizeSystemCalls/user/sh.c:272-314 | the cursor moves as the grammar says |
| Shell.Parser.Peek | G12_Project1_xv6CustomizeSystemCalls/user/sh.c:317-326 | skips whitespace and looks at one character |
| Shell.Parser.ParseRedirs | G12_Project1_xv6CustomizeSystemCalls/user/sh.c:381-403 | the loop collects the redirections that the grammar gives |
| Shell.Parser.ParseWords | G12_Project1_xv6CustomizeSystemCalls/user/sh.c:435-450 | the loop fills argv without overflow, as the grammar gives it |
| Shell.Parser.ParseExec | G12_Project1_xv6CustomizeSystemCalls/user/sh.c:422-452 | agrees with the grammar |
| Shell.Parser.ParseBlock | G12_Project1_xv6CustomizeSystemCalls/user/sh.c:406-419 | agrees with the grammar |
| Shell.Parser.ParsePipe | G12_Project1_xv6CustomizeSystemCalls/user/sh.c:368-378 | agrees with the grammar |
| Shell.Parser.ParseLine | G12_Project1_xv6CustomizeSystemCalls/user/sh.c:351-365 | agrees with the grammar |
| Shell.Parser.Nulterminate | G12_Project1_xv6CustomizeSystemCalls/user/sh.c:456-499 | writes terminators at the ends of the words and changes nothing else |
| Shell.Parser.ParseCmd | G12_Project1_xv6CustomizeSystemCalls/user/sh.c:334-348 | gives the command of the grammar or panics; afterwards every argv and file pointer is a terminated string equal to its word |
| Grep.MatchMeans | G12_Project1_xv6CustomizeSystemCalls/user/grep.c:73-106 | match(re, text) is true exactly when some part of the text is in the language of the pattern, at the start for ^ and at the end for $ |
| Grep.HereIsPrefix | G12_Project1_xv6CustomizeSystemCalls/user/grep.c:85-96 | `matchhere` accepts exactly the texts with a prefix in the language of the pattern |
| Grep.StarIsPrefix | G12_Project1_xv6CustomizeSystemCalls/user/grep.c:99-106 | `matchstar` is the Kleene star in front of the rest of the pattern |
| Grep.MatchM | G12_Project1_xv6CustomizeSystemCalls/user/grep.c:73-82 | the scanning loop tries every start, the empty rest included |
| Grep.MatchStarM | G12_Project1_xv6CustomizeSystemCalls/user/grep.c:99-106 | the loop tries every number of repetitions |
| Grep.GrepFile | G12_Project1_xv6CustomizeSystemCalls/user/grep.c:12-35 | whatever sizes `read` returns, the output is the matching newline-terminated lines in order, up to the first line that does not fit into the buffer |
| Grep.CutOff | G12_Project1_xv6CustomizeSystemCalls/user/grep.c:12-35 | what is not printed are the matching lines from the first overlong one on |
| Grep.PrintsAllIff | G12_Project1_xv6CustomizeSystemCalls/user/grep.c:12-35 | for all patterns the output is complete exactly when no line has more than 1022 characters before its newline |
| Grep.OverlongLost | G12_Project1_xv6CustomizeSystemCalls/user/grep.c:12-35 | a matching line of 1023 characters is lost |
| Grep.ShortLines | G12_Project1_xv6CustomizeSystemCalls/user/grep.c:12-35 | in particular when every line has at most 1022 characters |
| Pipe.CountersTell | G12_Project1_xv6CustomizeSystemCalls/kernel/pipe.c:88-121 | the 32-bit tests for a full and an empty ring are exact across wrap-around |
| Pipe.EventGood | G12_Project1_xv6CustomizeSystemCalls/kernel/pipe.c:59-134 | every stretch of a write or a read, byte by byte as the code moves them, and every close keeps the invariant that ties counters, ring and history |
| Pipe.Fifo | G12_Project1_xv6CustomizeSystemCalls/kernel/pipe.c:59-134 | over any interleaving the bytes that the reads returned, put together, are the first bytes of what the writes put in, the ring holds exactly the rest, and at most PIPESIZE bytes are under way |
| Pipe.FreedOnce | G12_Project1_xv6CustomizeSystemCalls/kernel/pipe.c:69-73 | the page is freed when the second end is closed, once, and the pipe is not used after that |
| Pipe.SleepersAwake | G12_Project1_xv6CustomizeSystemCalls/kernel/pipe.c:77-134 | after every stretch readers sleep only at an empty and writers only at a full ring, exactly unless a writer finds itself killed after it has put bytes in for a sleeping reader |
| Pipe.RunAwake | G12_Project1_xv6CustomizeSystemCalls/kernel/pipe.c:77-134 | so over every run without such a writer nobody sleeps without a reason |
| Pipe.ForgottenReader | G12_Project1_xv6CustomizeSystemCalls/kernel/pipe.c:84-87 | with such a writer a reader sleeps on beside a byte in the ring |
| Pipe.Ring.constructor | G12_Project1_xv6CustomizeSystemCalls/kernel/pipe.c:33-37 | a new pipe starts a run |
| Pipe.Ring.Write | G12_Project1_xv6CustomizeSystemCalls/kernel/pipe.c:77-103 | is a stretch of a write in the sense of the runs: it accepts a part of its bytes in order until the ring is full, copying fails, it is killed or it is done, and says which; it forgets a sleeping reader exactly when it is killed midway |
| Pipe.Ring.Read | G12_Project1_xv6CustomizeSystemCalls/kernel/pipe.c:106-134 | is a stretch of a read: it takes the oldest bytes of the ring, sleeps exactly when the ring is empty and a writer is left, loses no byte when copying fails, and wakes the writers |
| Pipe.Ring.Close | G12_Project1_xv6CustomizeSystemCalls/kernel/pipe.c:59-74 | closes one end, wakes the other, and frees the page exactly when both are closed |
| Virtqueue.SubmitOk | G12_Project1_xv6CustomizeSystemCalls/kernel/virtio_disk.c:235-277 | a new request takes three distinct free descriptors and a ring slot that is not in use |
| Virtqueue.FinishOk | G12_Project1_xv6CustomizeSystemCalls/kernel/virtio_disk.c:294-327 | a completion takes a used-ring slot that is not in use |
| Virtqueue.SeeOk | G12_Project1_xv6CustomizeSystemCalls/kernel/virtio_disk.c:312-324 | the next used entry names a finished request with status 0 and its own buffer |
| Virtqueue.FreeOk | G12_Project1_xv6CustomizeSystemCalls/kernel/virtio_disk.c:288-289 | freeing a finished chain frees exactly its three descriptors |
| Virtqueue.IndexBits | G12_Project1_xv6CustomizeSystemCalls/kernel/virtio_disk.c:272-323 | the 16-bit indices tell slots and an empty ring exactly across wrap-around |
| Virtqueue.Disk.Alloc3 | G12_Project1_xv6CustomizeSystemCalls/kernel/virtio_disk.c:201-213 | three distinct descriptors, or none when at most two are free |
| Virtqueue.Disk.Submit | G12_Project1_xv6CustomizeSystemCalls/kernel/virtio_disk.c:216-281 | the request is formatted and offered with its buffer marked busy, or the thread has to sleep |
| Virtqueue.Disk.Intr | G12_Project1_xv6CustomizeSystemCalls/kernel/virtio_disk.c:295-327 | releases exactly the buffers of the requests that the device has finished by its last look at the used index, those included that it finishes while the handler runs |
| Virtqueue.Disk.FreeChain | G12_Project1_xv6CustomizeSystemCalls/kernel/virtio_disk.c:186-197 | follows the chain while clearing it; the panics of `free_desc` are unreachable |
| Virtqueue.Disk.Complete | G12_Project1_xv6CustomizeSystemCalls/kernel/virtio_disk.c:283-289 | the three descriptors of the request become free and no others |
| BufferCache.MoveFront | G12_Project1_xv6CustomizeSystemCalls/kernel/bio.c:128-133 | relinking a buffer behind the head keeps the two-way ring of all buffers |
| BufferCache.Cache.constructor | G12_Project1_xv6CustomizeSystemCalls/kernel/bio.c:37-53 | `binit` links all buffers into one ring |
| BufferCache.Cache.Bget | G12_Project1_xv6CustomizeSystemCalls/kernel/bio.c:59-89 | the one buffer that caches the block, or the least recently released unused one, recycled; it gives up exactly when all buffers are in use |
| BufferCache.Cache.Fill | G12_Project1_xv6CustomizeSystemCalls/kernel/bio.c:93-103 | `bread` gives the newest contents of the block |
| BufferCache.Cache.Bwrite | G12_Project1_xv6CustomizeSystemCalls/kernel/bio.c:107-112 | the disk takes the contents of the buffer |
| BufferCache.Cache.Releasesleep | G12_Project1_xv6CustomizeSystemCalls/kernel/bio.c:118-123 | a changed buffer whose lock is released is pinned |
| BufferCache.Cache.Brelse | G12_Project1_xv6CustomizeSystemCalls/kernel/bio.c:125-137 | whatever others did with the buffer since its lock was released, one that nobody refers to any more is clean and becomes the most recently released one, and the list stays in order of last release |
| BufferCache.Cache.Bunpin | G12_Project1_xv6CustomizeSystemCalls/kernel/bio.c:147-151 | a pin may go when the buffer is clean or in use |

## Left out

- The second tree of the repository, which holds the same files.
- Hardware: CSRs, traps, the interrupt controllers, uart, assembly, and the negotiation with the virtio device; `swtch` is an atomic step, and `spinlock.c` is taken as atomic acquire and release under sequential consistency.
- Console, printf, the remaining user programs, `exec`, argument fetching, string helpers, path resolution (`namex`) and the file and inode tables: `Create`, `SysUnlink` and `LinkEnd` start from the directory that `nameiparent` returned.
- Liveness and scheduler fairness: only what OnlyLocksBlock says. The schedulers look at processes in any order rather than in table order, which allows more behaviours.
- The added system calls, which are thin wrappers or unlocked reads.
- Log.Journal.TryBeginOp: does not sleep; it reports that it would, and the interleaving is in `GroupCommit`.
- FileSystem.Volume.Filewrite: other processes do not change the file between its transactions.
- FileSystem.Volume.Writei: `either_copyin` of one chunk is all or nothing, and the user memory is described by the number of bytes that are accessible.
- FileSystem.Volume.FreeInode: the reference count that decides when `iput` frees is in `Directories.Tree.Iput`.
- FileSystem.Volume.Bmap: blocks are read and written in the cache; that the cache shows the newest contents is `BufferCache`, that they reach the disk atomically is `GroupCommit`.
- FileSystem.Volume.Ialloc: inodes are records, not bytes of inode blocks.
- Directories.Tree.Dirlink: entries are records of an inode number and a name, not 16 bytes; link counts are unbounded, where the source uses 16 bits.
- Directories.Tree.Iput: whether the reference is the last one is a parameter, as the inode table is not modelled.
- Directories.Tree.Ireclaim: runs at boot, when no link is half entered; inode contents are in `FileSystem.Volume.Ireclaim`.
- Mkfs.Image.Ialloc: when no inode is left it fails, where mkfs would write behind the inode blocks.
- Mkfs.Image.Build: inodes are records; the superblock and the byte order of numbers, but in directory entries, are not modelled.
- Directories.Tree.Create: the directory it works in stays referenced, so that letting go of it frees nothing.
- Malloc.Allocator.Malloc: sbrk returns a region above all earlier ones; after a wild call of sbrk the model ends, as the program then uses memory that it does not have.
- VirtualMemory.Vm.Mappages: a physical page holds either page-table entries or bytes; bytes are never reinterpreted as entries, and `kalloc`'s and `kfree`'s fill is modelled as bytes.
- VirtualMemory.Vm.Vmfault: the page table given is that of the current process; `kexec`'s second page table, `uvmclear` and `copyinstr` are not modelled, nor is the kernel page table.
- VirtualMemory.Vm.Copyin: runs without interference from other threads, which share no address space.
- VirtualMemory.Vm.Kfork: open files, name and process table entry are in `Processes`, or left out.
- ProcessTheorems.ReapedOnce: process ids do not wrap around; `killed` is a choice made at the test, and a failing `copyout` in `kwait` a choice as well.
- ProcessTheorems.NoLostWakeup: all sleepers on a channel use the same condition lock, and wakers hold it, as all callers in the kernel do; sleep-locks use one channel each.
- ProcessTheorems.StepKeeps: an interrupt handler that runs on top of a process has a CPU entry of its own, as it shares no spinlock with that process, which takes no step meanwhile; other work of handlers is not modelled.
- PageTable.OnePlace: pages of the kernel page table, kernel stacks and pipes are not modelled, so it speaks of the pages that are not given to these.
- ProcessTheorems.SleeplockSafe: `releasesleep` is called by the holder only.
- Shell.Parser.ParseExec: command nodes are values; the source fills `argv` of a node that redirections may already wrap. The buffer of the words is an array that is cut in place.
- Grep.GrepFile: the input is free of NULs.
- Pipe.Ring.Write: one call is a stretch between two sleeps; a whole `pipewrite` is a sequence of stretches with others in between. `killed` is seen from a given byte on.
- Pipe.Ring.Close: no process uses the end it closes, which the reference count of its file ensures.
- Virtqueue.Disk.Submit: requires that the buffer is in no other request, which its sleep-lock ensures; memory barriers and the device's reads of descriptors are not modelled.
- BufferCache.Cache.Releasesleep: requires the rule that changes are logged or written before a buffer is released; waiting for sleep-locks is in `Processes`.
