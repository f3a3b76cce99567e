# xv6 core, modelled and proved

This project models the storage stack, the page tables, the user heap, two sleeping protocols, the
disk driver and two small languages of the xv6 teaching system under `Assignment 4`, and proves what
they are for. Check it with `dafny verify dfyconfig.toml` (Dafny 4.11).

**Redo log.** `BlockDisk` is a disk whose blocks are written one at a time and whole. `LogFormat` says
what an image with a log stands for, `LogCrash` that commits and recoveries cut after any disk write are
atomic. `Bio` and `Log` are the buffer cache and the log as classes that update buffers, list links and
header in place; `Log.Log.Commit` and `Log.Log.RecoverFromLog` issue exactly the disk writes that
`LogCrash.CrashAtomicity` is about. `Storage` is the same system as interleaved steps of operations,
readers, eviction, the committer, crashes and recovery. `StorageProof` shows that it refines a
specification with one durable and one current image, and `StorageRuns` draws the conclusions for whole
runs; `StorageProgress` adds that the last operation to end does commit, and that commits and recoveries
come to their ends. One conclusion is a fault: `begin_op` admits operations up to LOGSIZE blocks, but
`log_write` needs the header's block too, and `mkfs` makes the log LOGSIZE blocks long. An operation
within its reservation is stopped in some reachable state exactly when the log area is no larger than
LOGSIZE.

**Files.** `FsLayout`, `FsState`, `FsAlloc` and `FsCount` define files over blocks of bytes: the free
map, direct and indirect pointers, who owns each block, contents, and the number of blocks that a write
allocates and logs. `Files` is fs.c and `filewrite` over them. `WriteChunk`, one transaction of
`FileWrite`, logs at most MAXOPBLOCKS blocks whatever the layout, which `EndOp` requires. `FsCommit`
joins files and log: it decodes bytes and inodes from disk blocks, and shows that a commit of the
blocks an operation gave to `log_write`, cut anywhere, leaves the disk standing for the files before or
after. `FileCrash.CrashDuringWrite` is the end-to-end result: crash at any disk write of `FileWrite`
and recover, and the file holds its old contents with a whole number of chunks written over them.
`Paths` is the name lookup, with the references to inodes counted on every way out.

**Memory.** `PageTables` reads Sv39 tables (section 4.4 of the RISC-V Privileged Architecture) as a
flat map from pages to entries. `Frames` gives every physical page one use: free, table, mapped by one
entry, or the kernel's. `TableTrees` is about the tables under a root. `Vm` is kalloc.c and vm.c.

**Heap.** `HeapList` and `Umalloc` are the circular free list and the allocator over it. Every unit that
`sbrk` granted belongs to one block, free or live. `sbrk` takes an int: `Umalloc.RequestExact` gives the
exact bound up to which a request reaches it unchanged.

**Protocols.** `SleepLocks` and `ExitWait` are step systems with a program counter for each process and
the spin locks as steps. `SleepResults` and `WaitResults` say for every reachable state what the calls
come to, and that they do come to it. A kill is meant to end a wait, but
one that falls between the test in `wait` and the lock in `sleep` is missed: `WaitResults.KillMisses`
gives the exact point, and `WaitResults.SleepsThough` the steps to a killed sleeper. `VirtioQueue` and
`Virtio` are the descriptors and rings of the disk (Virtio 1.1, sections 2.6 and 5.2), driver and device
taking turns.

**Languages.** `ShellGrammar`, `ShellWords`, `ShellRoundTrip` and `Shell` are the shell's parser and its
terminator, which works on the line in place. `ShellRoundTrip` gives the language of the parser on its
own, as scripts written in tokens, and shows that just those lines are accepted, with that meaning.
`Grep` is the pattern matcher against the language a pattern denotes.

## Model

| member | source | states |
|---|---|---|
| `LogFormat.HeadRoundTrip` | Assignment 4/kernel/log.c:85-114 | A header written over any older header reads back as the block numbers written, whatever stale entries remain behind them |
| `LogFormat.CommittedLogged` | Assignment 4/kernel/log.c:67-83 | An image whose header names the blocks and whose slots hold their values stands for the new home blocks, however many of them are installed already |
| `LogCrash.CommitPrefix` | Assignment 4/kernel/log.c:193-203 | A commit cut after any number of disk writes stands for the old home blocks before the header write and for the new ones from it on; the complete commit leaves an empty log |
| `LogCrash.RecoveryPrefix` | Assignment 4/kernel/log.c:116-123 | A recovery cut after any number of disk writes changes nothing of what the disk stands for; a complete one has every home block in place and an empty log |
| `LogCrash.Restarted` | Assignment 4/kernel/log.c:116-123 | Any number of recoveries, each cut anywhere, leaves a log in order that stands for the same home blocks |
| `LogCrash.CrashAtomicity` | Assignment 4/kernel/log.c:67-203 | A commit cut anywhere, then recoveries cut anywhere any number of times, then one that finishes: every home block is the old one if the header had not been written and the new one otherwise |
| `Bio.Unlink` | Assignment 4/kernel/bio.c:128-129 | Taking a buffer out by its neighbours' pointers leaves mutually inverse links along the list without it |
| `Bio.PushFront` | Assignment 4/kernel/bio.c:130-133 | Linking a buffer in behind the head leaves mutually inverse links along the list with it in front |
| `Bio.Bcache.constructor` | Assignment 4/kernel/bio.c:36-53 | All buffers are on one list with inverse links, none holds a block or is referenced |
| `Bio.Bcache.FindCached` | Assignment 4/kernel/bio.c:65-73 | The forward scan finds the one buffer that holds the block, and no buffer just when none does |
| `Bio.Bcache.FindIdle` | Assignment 4/kernel/bio.c:75-87 | The backward scan finds the unreferenced buffer whose last release to zero is oldest, and none just when all are referenced |
| `Bio.Bcache.Bget` | Assignment 4/kernel/bio.c:55-89 | The block's own buffer or the least recently released idle one, locked, with one reference more; what the kernel sees in every block is unchanged, and at most one buffer holds a block |
| `Bio.Bcache.DiskRw` | Assignment 4/kernel/virtio_disk.c:203-280 | A finished request moved the data of one buffer to its disk block, or of its disk block to the buffer, and nothing else |
| `Bio.Bcache.Bread` | Assignment 4/kernel/bio.c:91-103 | The locked buffer holds what the kernel sees in the block; no block, reference or lock other than its own changes, and nothing is written to disk |
| `Bio.Bcache.Bwrite` | Assignment 4/kernel/bio.c:105-112 | One disk write, of the block held, with its data; what the kernel sees is unchanged |
| `Bio.Bcache.MoveToFront` | Assignment 4/kernel/bio.c:126-134 | Relinking moves one buffer to the front; the list stays in order of the time of last release |
| `Bio.Bcache.Brelse` | Assignment 4/kernel/bio.c:114-137 | Lock and one reference are given up; with the last reference the buffer becomes the most recently released one, otherwise the list is as it was |
| `Bio.Bcache.Bpin` | Assignment 4/kernel/bio.c:139-144 | One reference more to the held block, and nothing else |
| `Bio.Bcache.Bunpin` | Assignment 4/kernel/bio.c:146-151 | One reference less to the held block, which keeps its holder's, and nothing else |
| `Log.Log.constructor` | Assignment 4/kernel/log.c:54-63 | The in-memory log starts empty over the given cache and log area |
| `Log.Log.WriteLogBlock` | Assignment 4/kernel/log.c:183-190 | One disk write: the block as the kernel sees it goes to its slot; references and locks end as they were |
| `Log.Log.WriteLog` | Assignment 4/kernel/log.c:177-191 | The disk writes are exactly the slot writes of the logged blocks' current contents, in order |
| `Log.Log.InstallBlock` | Assignment 4/kernel/log.c:73-82 | One disk write, from a slot to its home block, which loses its pin unless this is recovery |
| `Log.Log.InstallTrans` | Assignment 4/kernel/log.c:67-83 | The disk writes are exactly the installs of the slots, in order; each logged block loses one pin, in recovery none |
| `Log.Log.ReadHead` | Assignment 4/kernel/log.c:85-97 | The in-memory header is the block list on disk; nothing else changes |
| `Log.Log.WriteHead` | Assignment 4/kernel/log.c:99-114 | One disk write: the header block with the in-memory list over its older entries |
| `Log.Log.Commit` | Assignment 4/kernel/log.c:193-203 | The disk writes are exactly those whose every prefix CrashAtomicity covers, over the contents the kernel sees; all pins are gone and the log is empty |
| `Log.Log.RecoverFromLog` | Assignment 4/kernel/log.c:116-123 | The disk writes are exactly those of a recovery, so the disk ends as the recovered image |
| `Log.Log.LogWrite` | Assignment 4/kernel/log.c:205-235 | It succeeds exactly within the two size limits and inside an operation; a block already logged is absorbed, a new one is appended and pinned once, and a refused call changes nothing |
| `Log.CommitKeepsView` | Assignment 4/kernel/log.c:193-203 | A commit leaves every home block as the kernel saw it before |
| `StorageProof.RoomForNewBlock` | Assignment 4/kernel/log.c:125-142 | While the reservations hold, an operation with reservation left finds room in the header |
| `StorageProof.AddedBound` | Assignment 4/kernel/log.c:125-142 | Open operations that keep to MAXOPBLOCKS each have added no more than their number times that |
| `StorageProof.EvictStep` | Assignment 4/kernel/bio.c:75-86 | Recycling an unreferenced buffer changes neither the current nor the durable image |
| `StorageProof.LogWriteStep` | Assignment 4/kernel/log.c:214-235 | log_write keeps every buffer that differs from the disk pinned or locked, and the reservations within the log |
| `StorageProof.CommitPoint` | Assignment 4/kernel/log.c:99-114 | Once the header block is written, what a crash would recover is the current image |
| `StorageProof.WriteHeadStep` | Assignment 4/kernel/log.c:99-114 | The header write makes the current image durable, with no operation open |
| `StorageProof.InstallStep` | Assignment 4/kernel/log.c:67-83 | Copying one logged block home and unpinning it changes neither image |
| `StorageProof.StepRefines` | Assignment 4/kernel/log.c:125-235 | Every step of operations, readers, eviction, committer, crash and recovery keeps the invariant and is a step of a specification with one durable and one current image |
| `StorageRuns.RunKeepsInv` | Assignment 4/kernel/log.c:125-235 | The invariant, reservations included, holds in every state of every run |
| `StorageRuns.RunRefines` | Assignment 4/kernel/log.c:125-235 | Every run of the log and cache is a run of the specification |
| `StorageRuns.RecoversLastCommit` | Assignment 4/kernel/log.c:116-203 | After any run, with crashes and cut recoveries anywhere in it, recovery yields exactly the home blocks as they were at the last commit |
| `StorageRuns.CommitsCurrent` | Assignment 4/kernel/log.c:144-203 | At the commit point no operation is open, and the current image becomes the durable one |
| `StorageRuns.UnsavedBufferStays` | Assignment 4/kernel/bio.c:58-89 | In every run a buffer whose data is not on disk is pinned or locked and is not recycled |
| `StorageRuns.OverflowsIffLogTooSmall` | Assignment 4/kernel/log.c:219-221 | log_write stops an operation that keeps to its reservation in some reachable state if and only if the log area is no larger than LOGSIZE, which is the size mkfs gives it |
| `StorageProgress.NothingPending` | Assignment 4/kernel/log.c:144-175 | In every state of every run, with no operation open and no commit under way, the log is empty and the disk alone stands for what the kernel sees |
| `StorageProgress.LastEndCommits` | Assignment 4/kernel/log.c:144-175 | The last operation to end starts the commit at once if anything is logged; the committer's steps alone then put all that the kernel saw before on the disk, with an empty log |
| `StorageProgress.EarlyEnd` | Assignment 4/kernel/log.c:158-163 | An operation that ends while others are open starts no commit and leaves the log as it is |
| `StorageProgress.CommitterStep` | Assignment 4/kernel/log.c:193-203 | A commit under way always has a next disk write, and each brings it closer to its end |
| `StorageProgress.CommitFinishes` | Assignment 4/kernel/log.c:193-203 | From any point of a commit the committer alone comes to its end, with the current image durable and the log empty |
| `StorageProgress.OthersWait` | Assignment 4/kernel/log.c:131-132 | During a commit nothing else writes the disk, changes the log or begins an operation |
| `StorageProgress.RecoveryFinishes` | Assignment 4/kernel/log.c:116-123 | From a crash in any state recovery can come to its end, with the durable image in place and the log empty |
| `StorageProgress.WriteCommits` | Assignment 4/kernel/log.c:125-235 | From any quiet state a process can begin an operation, change any home block that nobody holds, log it and end; the commit leaves on the disk the image before with just that block changed |
| `StorageProgress.InUseStays` | Assignment 4/kernel/bio.c:58-137 | A buffer with references stays with its block, and its count changes by bget and brelse alone |
| `StorageProgress.HeldUndisturbed` | Assignment 4/kernel/bio.c:91-137 | Who has locked a buffer finds in it what it left there, whatever others and the committer do |
| `FsLayout.PutBitEffect` | Assignment 4/kernel/fs.c:74-76 | Setting or clearing a bit of a byte changes that bit and no other |
| `FsLayout.MarkEffect` | Assignment 4/kernel/fs.c:88-103 | Setting or clearing a block's bit in the free map changes the state of that block and of no other |
| `FsLayout.PutWordEffect` | Assignment 4/kernel/fs.c:394-399 | Storing an entry of an indirect block changes that entry and no other |
| `FsAlloc.AttachedFacts` | Assignment 4/kernel/fs.c:375-405 | Giving a free block to a missing pointer keeps ownership exclusive and the free map exact, takes that one block from the free ones, changes one pointer and no byte of any file |
| `FsAlloc.AttachedByte` | Assignment 4/kernel/fs.c:375-405 | No byte of any file changes when a file gains a block or an indirect block |
| `FsAlloc.StoredPatched` | Assignment 4/kernel/fs.c:497-506 | Copying a chunk into one block of a file changes that file there, and no other byte of any file |
| `FsAlloc.ClearedStep` | Assignment 4/kernel/fs.c:410-433 | The block under each pointer comes up with its bit still set, so freeing a free block is never reached, and just that bit is cleared |
| `FsAlloc.EmptiedFacts` | Assignment 4/kernel/fs.c:407-437 | A truncated file owns nothing; free blocks grow by exactly those it owned, none of which was free; all other files keep their contents |
| `FsAlloc.RetypedGood` | Assignment 4/kernel/fs.c:346-349 | Changing the type of an inode affects no ownership and no contents |
| `FsCount.ToAllocateAtMost` | Assignment 4/kernel/fs.c:497-506 | A write that starts at or before the end of a file misses at most its data blocks and the indirect block, and never the block it starts inside of |
| `FsCount.ToAllocateSplit` | Assignment 4/kernel/fs.c:497-506 | A write done in two parts allocates what the whole would |
| `FsCount.WriteFits` | Assignment 4/kernel/file.c:149-155 | Wherever it starts, a write of up to three blocks' worth of bytes logs at most MAXOPBLOCKS blocks: data, free map, indirect block and inode together |
| `FsCount.WrittenContents` | Assignment 4/kernel/fs.c:497-516 | After the loop and the new size, the file is its old contents with the source spliced in, and other files are as they were |
| `FsCount.ResizedWritten` | Assignment 4/kernel/fs.c:508-514 | Setting the size completes a write that keeps every block below the size allocated |
| `FsCount.SpliceTwice` | Assignment 4/kernel/fs.c:497-506 | Splicing two adjacent pieces is splicing their concatenation |
| `FsCount.BlockBytes` | Assignment 4/kernel/fs.c:466-475 | The bytes of a block that readi copies are the file's at that position |
| `FsCount.ChunkAccepted` | Assignment 4/kernel/file.c:155-174 | The next chunk of a write either passes the largest file, and then all that is accepted has been written, or is accepted as a whole |
| `Files.FileSystem.Bzero` | Assignment 4/kernel/fs.c:49-59 | The block is zero and logged; no other block changes |
| `Files.FileSystem.Balloc` | Assignment 4/kernel/fs.c:63-86 | The lowest block whose bit was clear, now set and the block zeroed; just its free map block and itself are logged |
| `Files.FileSystem.FirstClear` | Assignment 4/kernel/fs.c:73-82 | The first clear bit of one free map block, within the disk |
| `Files.FileSystem.Bfree` | Assignment 4/kernel/fs.c:88-103 | Exactly the block's bit is cleared |
| `Files.FileSystem.AllocFor` | Assignment 4/kernel/fs.c:384-398 | The new block comes from the free ones and goes to the one pointer; contents of all files are unchanged |
| `Files.FileSystem.LoadDirect` | Assignment 4/kernel/fs.c:383-387 | A direct block, allocated only if it was missing |
| `Files.FileSystem.LoadIndirect` | Assignment 4/kernel/fs.c:391-393 | The indirect block exists; it is allocated only if it was missing |
| `Files.FileSystem.LoadEntry` | Assignment 4/kernel/fs.c:394-401 | A block behind the indirect block, allocated only if it was missing |
| `Files.FileSystem.Bmap` | Assignment 4/kernel/fs.c:375-405 | The block of the given number; only what was missing is allocated, no byte of any file and no other pointer changes, and the blocks logged are named |
| `Files.FileSystem.Fill` | Assignment 4/kernel/fs.c:498-505 | The chunk is the file's content there; nothing else changes and one block is logged |
| `Files.FileSystem.WriteBlock` | Assignment 4/kernel/fs.c:497-506 | A round of the loop writes one block's part of the source and allocates what was missing for it |
| `Files.FileSystem.WriteAll` | Assignment 4/kernel/fs.c:497-506 | The loop writes all of the source, allocates exactly the missing blocks, and logs at most one block for each block touched, each block allocated and the indirect block |
| `Files.FileSystem.Iupdate` | Assignment 4/kernel/fs.c:218-237 | The inode on disk is the one in memory, and its block is logged |
| `Files.FileSystem.Writei` | Assignment 4/kernel/fs.c:479-517 | Refused with -1 and no change past the end or the largest file, wrap-around included; otherwise the source is spliced in at the offset, every other file is unchanged, the inode is on disk, and free and logged blocks are counted |
| `Files.FileSystem.Readi` | Assignment 4/kernel/fs.c:451-477 | Exactly the requested slice of the contents, clipped at the size, with no change of state |
| `Files.FileSystem.TruncDirect` | Assignment 4/kernel/fs.c:416-421 | Exactly the bits of the direct blocks are cleared, and their pointers |
| `Files.FileSystem.TruncIndirect` | Assignment 4/kernel/fs.c:423-434 | The rest of the file's bits are cleared, the indirect block's last |
| `Files.FileSystem.Itrunc` | Assignment 4/kernel/fs.c:407-437 | The file is empty; the free blocks gain exactly those it owned; other files keep their contents |
| `Files.FileSystem.Iget` | Assignment 4/kernel/fs.c:239-273 | One reference more; what memory holds of an inode without references is stale |
| `Files.FileSystem.Ilock` | Assignment 4/kernel/fs.c:286-313 | The inode is in memory as the disk has it, read at most once |
| `Files.FileSystem.FreeFile` | Assignment 4/kernel/fs.c:337-351 | The file's blocks are free, its inode is free in memory and on the disk, and all other files are unchanged |
| `Files.FileSystem.EndOp` | Assignment 4/kernel/log.c:144-175 | The last operation to end commits exactly the blocks logged; cut anywhere, the disk stands for the files at begin_op or now |
| `Files.FileSystem.Iput` | Assignment 4/kernel/fs.c:325-358 | The last reference to a file without links frees exactly its blocks and its inode; any other call only drops a reference; all other inodes and contents stay |
| `Files.FileSystem.WriteChunk` | Assignment 4/kernel/file.c:157-167 | One transaction of at most three blocks' worth of bytes: whatever the layout it logs at most MAXOPBLOCKS distinct blocks, and its commit, cut anywhere, leaves the disk standing for the files before or after it |
| `Files.FileSystem.FileWrite` | Assignment 4/kernel/file.c:132-181 | What fits the largest file is written whole and its length returned; of what does not, the whole chunks that fit, with -1. That much is spliced into the file, which grows to hold it; other files are unchanged, exactly the missing blocks are allocated, and the disk writes are safe to cut anywhere |
| `FsCommit.BytesOfWords` | Assignment 4/kernel/log.c:73-82 | Bytes of a block moved as C ints are the same bytes |
| `FsCommit.InodeRead` | Assignment 4/kernel/fs.c:220-237 | An inode written to its place in its block reads back as it was |
| `FsCommit.NotedAlloc` | Assignment 4/kernel/fs.c:63-86 | After balloc every block that changed has been given to log_write |
| `FsCommit.HoldsAfter` | Assignment 4/kernel/log.c:67-83 | A disk on which every logged block has its new content holds the new files |
| `FsCommit.CommitCut` | Assignment 4/kernel/log.c:193-203 | A commit of all the blocks given to log_write, cut after any disk write, stands for the files before or after; the complete one saves the files and empties the log |
| `FsCommit.RecoverySaves` | Assignment 4/kernel/log.c:116-123 | Recovery, cut and restarted any number of times, saves the files the disk stood for |
| `FileCrash.SafeFurther` | Assignment 4/kernel/file.c:157-174 | One more transaction keeps every cut of the disk writes at a whole number of chunks |
| `FileCrash.CrashDuringWrite` | Assignment 4/kernel/file.c:149-174 | A crash at any disk write of filewrite, then recovery cut any number of times: the file system is consistent, the file is its old contents with a whole number of chunks written over them and has grown just as far as they need, and every other file and inode is unchanged |
| `Paths.ResolveLast` | Assignment 4/kernel/fs.c:624-661 | Resolving a path is resolving all but its last name and looking that up |
| `Paths.ParentAgrees` | Assignment 4/kernel/fs.c:643-647 | In the directory that nameiparent returns, the name it returns leads where the whole path does; without such a directory the path leads nowhere |
| `Paths.NameCmp` | Assignment 4/kernel/fs.c:521-525 | Two names compare equal exactly when they agree up to the NUL or in all DIRSIZ characters |
| `Paths.ElementsSplit` | Assignment 4/kernel/fs.c:587-622 | The elements of two strings with a slash between them are those of the first and then those of the second |
| `Paths.OneElement` | Assignment 4/kernel/fs.c:587-622 | A string without a slash is one element, cut to 14 characters, or none if it is empty |
| `Paths.EntryFirst` | Assignment 4/kernel/fs.c:527-553 | The inode that a name leads to is that of the first entry in use with the name, and none just if no entry in use has it |
| `Paths.SkipElem` | Assignment 4/kernel/fs.c:587-622 | The next nonempty part of the path, cut to DIRSIZ characters, is in name; what follows starts at the element after it; there is none exactly when only slashes are left |
| `Paths.PlacedEntry` | Assignment 4/kernel/fs.c:569-580 | A new name in the first free entry, or behind the last, is found there, and every other name as before |
| `Paths.LinkedPath` | Assignment 4/kernel/fs.c:555-583 | The path whose last name dirlink entered in its parent leads to the linked inode, and led nowhere before |
| `Paths.LinkedKeepsPaths` | Assignment 4/kernel/fs.c:555-583 | Every path that resolved before a dirlink resolves to the same inode after it |
| `Paths.PlusMinus` | Assignment 4/kernel/fs.c:329-358 | Giving back a reference just gained restores the counts |
| `Paths.Namer.constructor` | Assignment 4/kernel/proc.c:262-285 | The first process is in the root directory, which has one reference |
| `Paths.Namer.Iget` | Assignment 4/kernel/fs.c:239-273 | A slot for the inode, its own if it has one, with one reference more; other slots keep their references |
| `Paths.Namer.Idup` | Assignment 4/kernel/fs.c:275-284 | One reference more to the same inode |
| `Paths.Namer.Iput` | Assignment 4/kernel/fs.c:356-358 | One reference less; other slots keep theirs |
| `Paths.Namer.DirLookup` | Assignment 4/kernel/fs.c:527-553 | The inode of the first entry in use with that name, with a reference gained, or none and nothing changed |
| `Paths.Namer.DirLink` | Assignment 4/kernel/fs.c:555-583 | A taken name gives -1 and changes nothing, references included; otherwise exactly that name of that directory is new |
| `Paths.Namer.Enter` | Assignment 4/kernel/fs.c:633-636 | The walk starts with one reference of its own, to the root if the path starts with a slash, and otherwise to the current directory's inode |
| `Paths.Namer.Descend` | Assignment 4/kernel/fs.c:649-654 | A round follows one name, the walk's reference moving along, or ends with the counts as before |
| `Paths.Namer.Namex` | Assignment 4/kernel/fs.c:624-674 | namei is the fold of lookups over the path's elements, from the root for a path that starts with a slash and from the current directory otherwise; nameiparent is the directory it reaches by all but the last name, with that name; on every way out the reference counts are as before but for one to the result |
| `PageTables.LeafWalks` | Assignment 4/kernel/vm.c:80-98 | The flat map is the three-level walk: nine bits of the page number at each level, the highest first, each entry with its valid bit leading to the next table |
| `PageTables.SlotOfOne` | Assignment 4/kernel/vm.c:80-98 | Different pages, or pages of different roots, never share an entry |
| `PageTables.PutLeaf` | Assignment 4/kernel/vm.c:149-153 | Storing a leaf entry changes the flat map at one page of one root |
| `PageTables.GrownLeaf` | Assignment 4/kernel/vm.c:90-95 | A new, empty table changes no entry of any flat map |
| `Frames.OwnersDiffer` | Assignment 4/kernel/vm.c:133-160 | Two mappings of a root never own one page |
| `Frames.FreedGood` | Assignment 4/kernel/kalloc.c:46-63 | A freed page joins the free list once, and pages in use stay a partition; no mapping changes |
| `Frames.TakenGood` | Assignment 4/kernel/kalloc.c:65-82 | A page taken leaves the free list, and pages in use stay a partition; no mapping changes |
| `Frames.OwnedRemoved` | Assignment 4/kernel/vm.c:174-186 | Freeing a mapped page and clearing its entry releases that page once and removes one page of the flat map |
| `Frames.AddingUndone` | Assignment 4/kernel/vm.c:230-242 | Taking back all that was added leaves no page lost but for new tables |
| `Frames.AddingGivenUp` | Assignment 4/kernel/vm.c:308-327 | After a failure and the removal of what was added, no mapping is new and no page is lost |
| `TableTrees.EmptyMapClear` | Assignment 4/kernel/vm.c:284-292 | When no page is mapped, no table under the root holds a leaf, so "freewalk: leaf" is not reached |
| `TableTrees.ReachedNext` | Assignment 4/kernel/vm.c:270-276 | The tables reached through each entry are disjoint from those reached before |
| `TableTrees.RootDroppedGood` | Assignment 4/kernel/vm.c:284-292 | Taking a root with no mappings out of use keeps the partition of all pages |
| `Vm.Memory.constructor` | Assignment 4/kernel/kalloc.c:26-31 | Before freerange every page is the kernel's and none is free |
| `Vm.Memory.FreeRange` | Assignment 4/kernel/kalloc.c:33-40 | Exactly the whole pages between the two addresses become free |
| `Vm.Memory.Kfree` | Assignment 4/kernel/kalloc.c:42-63 | The page is first on the free list and holds junk behind the link; no mapping changes |
| `Vm.Memory.Kalloc` | Assignment 4/kernel/kalloc.c:65-82 | The first free page, now junk, or 0 exactly when none is free |
| `Vm.Memory.AddTable` | Assignment 4/kernel/vm.c:91-94 | The new table continues the walk, and only a free page changed its use |
| `Vm.Memory.Walk` | Assignment 4/kernel/vm.c:68-98 | The entry of the page in the flat map's sense; all translations are unchanged, and with alloc only running out of pages stops it |
| `Vm.Memory.MapPage` | Assignment 4/kernel/vm.c:149-153 | One page is mapped, or none for want of pages |
| `Vm.Memory.Mappages` | Assignment 4/kernel/vm.c:133-160 | Success maps exactly the requested pages, failure a prefix of them; all other translations are unchanged |
| `Vm.Memory.UnmapPage` | Assignment 4/kernel/vm.c:174-186 | One page is removed, and freed just if asked |
| `Vm.Memory.Uvmunmap` | Assignment 4/kernel/vm.c:162-187 | Exactly the given pages are removed; with do_free each page they own becomes free once, and the free list grows by their number |
| `Vm.Memory.Uvmcreate` | Assignment 4/kernel/vm.c:189-200 | A new root that maps nothing, or 0 if no page is free; all other translations are unchanged |
| `Vm.Memory.AddPage` | Assignment 4/kernel/vm.c:230-242 | A fresh page with the right contents and rights is mapped, or it goes back and nothing is lost |
| `Vm.Memory.Uvmdealloc` | Assignment 4/kernel/vm.c:246-262 | Exactly the pages between the two sizes are unmapped and freed, each once |
| `Vm.Memory.Uvmalloc` | Assignment 4/kernel/vm.c:218-244 | Success adds zeroed pages between the two sizes, which the user may read, write and execute; it fails only with no more free pages than it needs, restores the leaf map there and loses no page but new tables |
| `Vm.Memory.Uvmcopy` | Assignment 4/kernel/vm.c:294-328 | Success gives the child fresh copies of the parent's pages with their rights; it fails only with no more free pages than it needs, leaves the child no leaf and loses no page but new tables |
| `Vm.Memory.Freewalk` | Assignment 4/kernel/vm.c:264-282 | Every table under the given one becomes free exactly once |
| `Vm.Memory.Uvmfree` | Assignment 4/kernel/vm.c:284-292 | Every page and every table of the root becomes free exactly once; all other roots keep their translations |
| `HeapList.EveryBlockReached` | Assignment 4/user/umalloc.c:24-44 | The list is one cycle: from the base it comes to every free block |
| `HeapList.BlocksDisjoint` | Assignment 4/user/umalloc.c:24-44 | Blocks, free or live, never overlap |
| `HeapList.ScanTests` | Assignment 4/user/umalloc.c:30-32 | The tests of the scan hold at the place of the block in address order and nowhere else |
| `HeapList.LeftSmaller` | Assignment 4/user/umalloc.c:30-32 | Each step leaves fewer blocks to scan, so the scan ends |
| `HeapList.FreedGood` | Assignment 4/user/umalloc.c:33-43 | Linking a block in and joining it with the neighbours it touches keeps the whole invariant: one cycle, units owned once, no two free blocks touching |
| `HeapList.UnlinkedGood` | Assignment 4/user/umalloc.c:76-77 | Handing out a whole block keeps the invariant |
| `HeapList.SplitGood` | Assignment 4/user/umalloc.c:78-82 | Handing out the tail of a block keeps the invariant |
| `HeapList.GrownGood` | Assignment 4/user/umalloc.c:54-58 | Memory from sbrk beyond all units becomes one live block |
| `HeapList.AllTried` | Assignment 4/user/umalloc.c:74-88 | Back at the start of the scan, every free block has been found too small |
| `HeapList.UnitsConserved` | Assignment 4/user/umalloc.c:24-90 | The sizes of the free blocks and of the live ones add up to the units of the heap |
| `Umalloc.Units` | Assignment 4/user/umalloc.c:69 | The units asked for are the fewest that hold nbytes and a header |
| `Umalloc.RequestExact` | Assignment 4/user/umalloc.c:46-54 | The size that sbrk gets as an int is the size meant if and only if nbytes is at most 0x7FFF_FFE0 |
| `Umalloc.RequestLost` | Assignment 4/user/umalloc.c:46-54 | For the largest requests sbrk is asked for 0 bytes |
| `Umalloc.Allocator.Start` | Assignment 4/user/umalloc.c:70-73 | The first call makes a list of the base header alone; later calls change nothing |
| `Umalloc.Allocator.FindPlace` | Assignment 4/user/umalloc.c:29-32 | The scan ends at the free block that the freed one comes after in address order |
| `Umalloc.Allocator.Relink` | Assignment 4/user/umalloc.c:33-42 | The headers written make the list with the block in its place, joined with the neighbours it touches |
| `Umalloc.Allocator.Free` | Assignment 4/user/umalloc.c:24-44 | The block's units become free, live blocks are as they were, free and live units are conserved, and the scan ends |
| `Umalloc.Allocator.Morecore` | Assignment 4/user/umalloc.c:46-61 | Exactly the units granted are added, all of them free, and the next scan will find room; without a grant nothing changes |
| `Umalloc.Allocator.Malloc` | Assignment 4/user/umalloc.c:63-90 | A block of the right size made of units that were free or new; the units of the heap are those sbrk granted, to which it adds one chunk or nothing; the kernel is asked only when no free block is big enough; both loops end, and 0 means that it had no more |
| `Umalloc.Allocator.Carve` | Assignment 4/user/umalloc.c:75-85 | The block taken has exactly the size asked for, and was free |
| `SleepLocks.StepKeepsInv` | Assignment 4/kernel/proc.c:759-831 | Every small step of acquiresleep, releasesleep, sleep, wakeup and kill keeps the invariant |
| `SleepLocks.StepWaiters` | Assignment 4/kernel/proc.c:761-806 | After every step, a process that has given up the inner lock in order to sleep on a lock that is not locked is about to be woken |
| `SleepLocks.RunKeepsInv` | Assignment 4/kernel/proc.c:759-831 | The invariant holds after every run, in any interleaving |
| `SleepLocks.MutualExclusion` | Assignment 4/kernel/sleeplock.c:21-31 | After any run at most one process holds a sleep lock |
| `SleepLocks.NoLostWakeup` | Assignment 4/kernel/proc.c:761-806 | After any run, when a lock is unlocked and its inner lock free, no process sleeps on it or is on the way to |
| `SleepLocks.OwnerReleases` | Assignment 4/kernel/sleeplock.c:33-41 | The process clearing a lock is its owner and holds the inner lock |
| `SleepResults.AcquireHolds` | Assignment 4/kernel/sleeplock.c:21-31 | In every reachable state, acquiresleep goes on or comes to its end with the process the holder of the lock |
| `SleepResults.TestDecides` | Assignment 4/kernel/sleeplock.c:24-29 | A lock that is free is taken at once, and one that is not sends the process to sleep |
| `SleepResults.ReleaseFrees` | Assignment 4/kernel/sleeplock.c:33-41 | releasesleep comes to its end with the lock free, its inner lock free, and no process asleep on it |
| `SleepResults.CallsEnd` | Assignment 4/kernel/proc.c:761-831 | Each step of a process within a call brings it closer to the end of the call, or to sleep |
| `SleepResults.NoDeadlock` | Assignment 4/kernel/proc.c:761-831 | In every reachable state with a process within a call and not asleep on a lock, some process within a call can go on |
| `ExitWait.StepKeepsInv` | Assignment 4/kernel/proc.c:309-465 | Every small step of exit, reparent, wait, fork, wakeup and kill keeps the invariant |
| `ExitWait.StepWaiter` | Assignment 4/kernel/proc.c:376-416 | A sleeping parent with a zombie child can only be init, and then it is about to be woken |
| `ExitWait.RunKeepsInv` | Assignment 4/kernel/proc.c:358-465 | The invariant holds after every run, in any interleaving |
| `ExitWait.NoZombieMissed` | Assignment 4/kernel/proc.c:420-465 | After any run, while wait_lock is free no process asleep in wait or on the way to has a zombie child, its own or reparented |
| `ExitWait.ReapedOnce` | Assignment 4/kernel/proc.c:438-450 | After any run each exit has been reaped at most once, and exactly once unless its zombie is still there |
| `ExitWait.ReapsOwnChild` | Assignment 4/kernel/proc.c:432-450 | wait frees only a zombie child of its own, which runs no more, under both locks |
| `WaitResults.WaitSleeps` | Assignment 4/kernel/proc.c:456-463 | In every reachable state, wait goes to sleep only with a child, with no zombie child, not killed, and holding wait_lock |
| `WaitResults.WaitReturns` | Assignment 4/kernel/proc.c:456-460 | wait comes to its end only with a child it found, or with no zombie child and either no child or killed |
| `WaitResults.ScanEnds` | Assignment 4/kernel/proc.c:430-463 | At the end of a scan wait sleeps if the process has a child and is not killed, and gives up otherwise |
| `WaitResults.WaitFinds` | Assignment 4/kernel/proc.c:438-453 | The child found is the process's own zombie; its slot is freed unless its status cannot be copied out |
| `WaitResults.WaitGoesOn` | Assignment 4/kernel/proc.c:420-465 | wait is left only by its last step, with wait_lock given back |
| `WaitResults.ParentAlive` | Assignment 4/kernel/proc.c:358-416 | Every process that runs or is a zombie, but init, has a parent that has not exited |
| `WaitResults.ExitedChildless` | Assignment 4/kernel/proc.c:358-372 | A process that has exited, or is about to become a zombie, has no children |
| `WaitResults.ForkStarts` | Assignment 4/kernel/proc.c:309-352 | fork lets a slot run that nothing ran in, as a child of the process that forks |
| `WaitResults.KillWakes` | Assignment 4/kernel/proc.c:811-831 | kill marks its victim, which sleeps no more, and touches no other process |
| `WaitResults.KilledStaysAwake` | Assignment 4/kernel/proc.c:456-460 | A killed process that has not decided to sleep in wait does not sleep there again, until its slot is freed |
| `WaitResults.KillMisses` | Assignment 4/kernel/proc.c:456-463 | After kill the victim still goes to sleep if and only if it has left the scan for sleep and has not taken its own lock yet |
| `WaitResults.SleepsThough` | Assignment 4/kernel/proc.c:761-779 | From that point five steps of its own put the process to sleep, killed or not |
| `WaitResults.CallsEnd` | Assignment 4/kernel/proc.c:309-465 | Each step of a process within wait, exit, fork or kill brings it closer to the end of the call, or to sleep in wait |
| `WaitResults.NoDeadlock` | Assignment 4/kernel/proc.c:309-465 | In every reachable state with a process within a call and not asleep in wait, some process within a call can go on |
| `VirtioQueue.SlotsDiffer` | Assignment 4/kernel/virtio_disk.c:259-265 | Eight consecutive ring indices are eight different entries, also across the wrap of the 16-bit index |
| `VirtioQueue.AtMostTwo` | Assignment 4/kernel/virtio_disk.c:187-201 | At most two requests are under way, and in either ring of eight entries, so none is overwritten before it is consumed |
| `VirtioQueue.DeviceReadsRequest` | Assignment 4/kernel/virtio_disk.c:223-265 | The next entry the device reads is the oldest request offered, and its chain describes that request |
| `VirtioQueue.ChainsDisjoint` | Assignment 4/kernel/virtio_disk.c:187-201 | Different requests use different descriptors |
| `VirtioQueue.SubmittedGood` | Assignment 4/kernel/virtio_disk.c:223-265 | Offering a request keeps every descriptor free or in one place of one chain, and both rings exact |
| `VirtioQueue.SubmittedRequest` | Assignment 4/kernel/virtio_disk.c:223-265 | The three descriptors, the header, the record and the ring entry of an offered request, in full |
| `VirtioQueue.TakenGood` | Assignment 4/kernel/virtio_disk.c:259-265 | The device taking a request keeps the queue in order |
| `VirtioQueue.PostedGood` | Assignment 4/kernel/virtio_disk.c:297-302 | The device completing any request it has taken keeps the queue in order |
| `VirtioQueue.SeenGood` | Assignment 4/kernel/virtio_disk.c:300-312 | The next completion is the oldest posted, with status 0 and the buffer that issued it |
| `VirtioQueue.FinishedGood` | Assignment 4/kernel/virtio_disk.c:276-277 | Giving back a finished chain keeps the queue in order |
| `VirtioQueue.FinishedFree` | Assignment 4/kernel/virtio_disk.c:156-185 | Exactly the three descriptors of the chain become free and zero |
| `Virtio.Disk.constructor` | Assignment 4/kernel/virtio_disk.c:136-138 | All descriptors are free and both rings empty |
| `Virtio.Disk.AllocDesc` | Assignment 4/kernel/virtio_disk.c:143-154 | A free descriptor, now taken, or -1 exactly when none is free |
| `Virtio.Disk.FreeDesc` | Assignment 4/kernel/virtio_disk.c:156-170 | The descriptor is free and zero; no other changes |
| `Virtio.Disk.Alloc3Desc` | Assignment 4/kernel/virtio_disk.c:187-201 | Three different free descriptors, or none taken at all when fewer are free |
| `Virtio.Disk.Submit` | Assignment 4/kernel/virtio_disk.c:203-269 | The first free descriptor holds the header with the direction and the sector of the block, the second the buffer, written by the device just for a read, the third the status byte; the next entry of the avail ring is the request; it is turned away exactly with fewer than three free, and then nothing changes |
| `Virtio.Disk.Format` | Assignment 4/kernel/virtio_disk.c:223-257 | The three descriptors lead from the request header to the buffer to the status byte, with the direction asked for |
| `Virtio.Disk.DeviceTake` | Assignment 4/kernel/virtio_disk.c:259-269 | The device gets the oldest request not yet taken |
| `Virtio.Disk.DevicePost` | Assignment 4/kernel/virtio_disk.c:297-302 | The device posts a completion in any order |
| `Virtio.Disk.IntrOne` | Assignment 4/kernel/virtio_disk.c:300-312 | One round clears the buffer of the oldest completion |
| `Virtio.Disk.Intr` | Assignment 4/kernel/virtio_disk.c:282-315 | Exactly the buffers whose requests were posted are finished, each by its own completion |
| `Virtio.Disk.Finish` | Assignment 4/kernel/virtio_disk.c:276-279 | Exactly the three descriptors of the finished request become free |
| `Virtio.Disk.FreeChain` | Assignment 4/kernel/virtio_disk.c:172-185 | Exactly the descriptors of the chain become free and zero |
| `ShellGrammar.NextToken` | Assignment 4/user/sh.c:262-308 | Tokens stay within the line; a word token is a maximal run of word characters |
| `Shell.Parser.GetToken` | Assignment 4/user/sh.c:265-308 | The token the grammar gives there; the parser stands behind it and the white space that follows |
| `Shell.Parser.Peek` | Assignment 4/user/sh.c:310-320 | White space is skipped; true exactly when the next character is one of those asked for |
| `Shell.Parser.ParseRedirs` | Assignment 4/user/sh.c:374-397 | The redirections the grammar gives there, or the same panic |
| `Shell.Parser.ParseExec` | Assignment 4/user/sh.c:415-446 | The command the grammar gives there, or the same panic; the recursion ends |
| `Shell.Parser.ParseWords` | Assignment 4/user/sh.c:431-445 | The rest of a simple command as the grammar gives it, with the limit on words |
| `Shell.Parser.ParseBlock` | Assignment 4/user/sh.c:399-413 | The parenthesised command the grammar gives there, or the same panic |
| `Shell.Parser.ParsePipe` | Assignment 4/user/sh.c:361-372 | The pipeline the grammar gives there, or the same panic |
| `Shell.Parser.ParseLine` | Assignment 4/user/sh.c:344-359 | The list the grammar gives there, or the same panic |
| `ShellRoundTrip.WrappedMeaning` | Assignment 4/user/sh.c:374-397 | A command with the redirections found is that command with each of them around it, in order, the last outermost |
| `ShellRoundTrip.SimpleParses` | Assignment 4/user/sh.c:415-446 | A simple command, with any number of redirections before, between and behind its words, parses to its words inside one redirection for each, in order, the last outermost |
| `ShellRoundTrip.PieceParses` | Assignment 4/user/sh.c:399-413 | A parenthesised script with any number of redirections behind it parses to what the script says inside those redirections, the last outermost |
| `ShellRoundTrip.Accepts` | Assignment 4/user/sh.c:327-446 | A line made of the tokens of a script, with redirections, blocks, pipes, any number of & and ;, is accepted and parses to what the script says |
| `ShellRoundTrip.Accepted` | Assignment 4/user/sh.c:327-446 | Any line that is accepted is made of the tokens of a script, with fewer than MAXARGS words to each simple command, and parses to what it says |
| `ShellRoundTrip.Language` | Assignment 4/user/sh.c:327-446 | A line is accepted with a meaning if and only if its tokens are those of a script that says so |
| `ShellRoundTrip.LexSpaced` | Assignment 4/user/sh.c:262-308 | Tokens written one after another, with white space left out anywhere but between words and before a second >, are read back as those tokens |
| `ShellRoundTrip.RoundTrip` | Assignment 4/user/sh.c:262-446 | Every script, written with any such white space, is accepted and parsed to what it says |
| `ShellRoundTrip.EveryTree` | Assignment 4/user/sh.c:327-446 | Every command tree of printable words with fewer than MAXARGS to a command is what some line means |
| `ShellWords.LineWords` | Assignment 4/user/sh.c:344-446 | Every argument and file name of a parsed command is a word of the line |
| `ShellWords.WordsStand` | Assignment 4/user/sh.c:448-493 | In the terminated line every argument and file name, as a C string, is the word that was read |
| `Shell.NulTerminate` | Assignment 4/user/sh.c:448-493 | Exactly the characters behind the command's words become NUL |
| `Shell.ParseCmd` | Assignment 4/user/sh.c:327-342 | The result is the grammar's; every word of the command, as a C string in the changed line, is its original text; a panic leaves the line as it was |
| `Grep.HereOne` | Assignment 4/user/grep.c:91-93 | A pattern that starts with one plain character denotes that character followed by the rest |
| `Grep.HereStar` | Assignment 4/user/grep.c:87-104 | A pattern that starts with a starred character denotes any run of it followed by the rest |
| `Grep.HereEnd` | Assignment 4/user/grep.c:89-90 | The pattern $ matches at the end of the text and nowhere else |
| `Grep.PlainMatches` | Assignment 4/user/grep.c:70-94 | A pattern of single characters, . standing for any, matches just the texts that have it somewhere; ^ ties it to the start of the text and $ to its end |
| `Grep.Match` | Assignment 4/user/grep.c:70-80 | True exactly when a text in the pattern's language is found in the text, at its start after ^ |
| `Grep.MatchHere` | Assignment 4/user/grep.c:82-94 | True exactly when a text in the pattern's language starts the text, and ends it under a final $; the mutual recursion ends |
| `Grep.MatchStar` | Assignment 4/user/grep.c:96-104 | True exactly when some run of the character is followed by a match of the rest |

## Left out

- Log.Log.LogWrite: the panics "too big a transaction" and "log_write outside of trans" are a false result after which nothing has changed; the size test comes first, so it also stops a block that is already logged, as in the code.
- Bio.Bcache.Bget: the lock of a buffer is taken at once, the class being sequential; readers that wait for a locked buffer are in `Storage`. The device number is always that of the root disk, and "bget: no buffers" is a precondition.
- Bio.Bcache.Bread: as Bget, it is called on blocks that nobody has locked.
- Bio.Bcache.DiskRw: a transfer is one step here; the requests behind it are in `Virtio`.
- Files.FileSystem.Iupdate: the records of inodes become words of the inode blocks at the commit, in `FsCommit`; device numbers are not modelled and 0 on the disk, and types and link counts are not cut to 16 bits.
- Files.FileSystem.Readi: a copy to a user address that fails partway; the same holds for Writei. Copies are whole.
- Files.FileSystem.Balloc: "balloc: out of blocks" is a precondition.
- Files.FileSystem.FileWrite: pipes, devices and files not open for writing.
- Files.FileSystem.EndOp: no other operation is open, so that the end of each commits; operations that are open together, waiting in begin_op and group commit are in `Storage`.
- Files.FileSystem.Iput: the slots of the inode table are in `Paths`.
- Files.FileSystem.Ilock: the sleep lock is in `SleepLocks`; "ilock: no type" is a precondition.
- Paths.Namer.DirLink: the bytes of a directory, and its growth by `writei`, are those of any file in `Files`; here a directory is its entries, and the write succeeds.
- Paths.Namer.Iput: the branch that frees a file without links is in `Files.FileSystem.Iput`; names in use lead to inodes that have links.
- Paths.Namer.Iget: "iget: no inodes" is a precondition; `ilock` and its read of the inode from disk are left out, the type being that on the disk.
- Vm.Memory.Mappages: entries are not cut to 64 bits, and addresses do not wrap; "mappages: remap" and a size of 0 are preconditions.
- Vm.Memory.Uvmunmap: its panics are preconditions. A range that is removed without freeing must hold no page that its entries own.
- Vm.Memory.AddPage: the loop bodies of uvmalloc and uvmcopy are one method, as both take, fill and map a page in the same way.
- Vm.Memory.Uvmfree: the trampoline and trapframe mappings have been removed before, as `proc_freepagetable` does.
- Umalloc.Allocator.Malloc: requests above 0x7FFF_FFE0 bytes that no free block can meet, for which `sbrk` does not get the size meant. Addresses count headers, so the end of memory is a multiple of 16. Whether the kernel grants memory is a parameter.
- SleepLocks.StepKeepsInv: `kill` names a process by its place in the table; the scheduler is the step by which a runnable process goes on; a spin lock is taken in one step when it is free.
- ExitWait.StepKeepsInv: closing files and dropping the current directory in exit, and copying memory and files in fork; `waitx` takes the same steps as `wait` and adds times.
- Virtio.Disk.Submit: the caller's sleep for descriptors and for the completion, which is repeated calls here; MMIO, fences and the notify register.
- Virtio.Disk.Intr: completions that the device posts while the handler runs are those of its next call.
- Virtio.Disk.DevicePost: a device that reports a failure, on which the kernel stops.
- Shell.Parser.ParseExec: tree nodes are values, so the arguments of a command are filled in before it is wrapped; lines are without NUL.
- Grep.Match: the loop of `grep` over its input buffer.
- The kernel page table, `uvminit`, `walkaddr`, `copyin` and `copyout`.
- The schedulers, ageing and the queue functions of proc.c; `yield`, `sched` beyond the release of a process's lock, and tick counts.
- `ialloc` and `iunlock`; system call arguments; pipes and devices.
- `runcmd` and `getcmd` of the shell; `exec`; the user programs that only print.
- Boot, traps, interrupts and devices other than the disk; memory barriers.
- `Assignment-1` and `Assignment 5`: scripts, simulations driven by time and chance, and a socket server.
