# A verified model of the xv6 storage stack, memory and concurrency primitives

This project models the parts of the xv6 fork in `xv6-public/` in which most can go wrong, and proves what they are for.

- **Files** (`Blocks`, `Counting`, `FileTree`, `Alloc`, `Fs`, `Content`, `Advance`, `Demand`, `Dinode`, `ReadWrite`, `Truncate`, `FileRuns`, `LogBound`, `FileWrite`, `TruncBound`, `FileCrash`): `fs.c`, `fileread` and `filewrite` on disk blocks of 512 bytes, with the free map as bits and the index blocks as 32-bit words. A block of a file is named by its *position* (inode, entry of `addrs[]`, path of table entries). The ghost map `owner` gives every block in use its one position, so that disjointness, freshness and freeing are statements about one map. What a call needs of the free map and of the log is counted in the state before it.
- **Log** (`LogMachine`, `LogRuns`, `Log`): `log.c` as a state machine whose steps are critical sections and single block writes, with a crash possible between any two; what holds over all its runs; and the code itself, which records the machine steps it takes.
- **Buffer cache** (`BufSpec`, `BufRuns`, `Bio`): `bio.c` as functions on the cache, over all runs, and as the linked ring.
- **Log on the cache** (`LogCache`, `LogProgress`, `Famine`): one state machine of the cache, the log, any operations, any readers and the committing process, which takes two buffers at a time among the others; every run of it is a run of the log machine, and its process gets done.
- **User heap** (`FreeList`, `Umalloc`): `umalloc.c` over headers in memory; a header unit is eight bytes.
- **Address spaces** (`Pages`, `Vm`, `Spaces`, `Fork`): `kalloc.c` and the page tables of `vm.c`. The ghost map `owner` gives every page its one role.
- **Shell** (`Grammar`, `Syntax`, `Shell`): the parser of `sh.c` on a character buffer, the grammar it follows, and every way to write a command as trees of their own, which the parser takes exactly.
- **Sleep locks, pipes, stride scheduling** (`SleepLock`, `Pipe`, `PipeRuns`, `PipeCalls`, `Stride`): `sleeplock.c` and `pipe.c` with `sleep` and `wakeup` statement by statement, for any number of processes, and `findMinPass`.

A panic is modelled as a result (`None` or `false`) where the code can reach it, and as a precondition where the code leaves it to its callers to avoid it (`remap` in `mappages`). A run stops at a panic. Arithmetic that wraps at 32 bits is written out.

Where a promise does not hold of the code, the code is modelled as it is and the exact condition is proved:

- `log_write` checks for a full log before it looks for the block in the list, and the log that `mkfs` makes has room for one block less than `begin_op` reckons with (`LogRuns.FewCallsNeverPanic`, `LogRuns.FullLogPanics`).
- `begin_op` counts what an operation has logged a second time, in its reservation. It refuses exactly if the operations under way and one more could outrun the log with `MAXOPBLOCKS` new blocks each from here on; that they could do so within what is left of their reservations is a stronger condition (`LogRuns.RefusedExactlyWhen`, `LogRuns.RefusalNeededExactlyWhen`, `LogRuns.RefusedWithoutNeed`).
- `bget` panics for lack of buffers exactly when the block has none and the logged blocks and the clean buffers in use are together all there are (`LogCache.NoBufferExactlyWhen`). With `NBUF` and `LOGSIZE` both 30 three operations within their `MAXOPBLOCKS` that together log 29 blocks, and one reader, are enough for `write_log` to fail (`Famine.NoBufferForTheLog`).
- One chunk of `filewrite` can log more than `MAXOPBLOCKS` blocks. It stays within them exactly when the file blocks it spans, the tables that get entries, the free-map blocks of as many of the lowest free blocks as it needs, and the inode block if the file grows, are at most that many in the state before it (`LogBound.ReservationHoldsExactlyWhen`, `LogBound.ChunkCanOutrunReservation`, `FileRuns.OverrunFromMkfs`).
- So can `itrunc`: it logs the inode block and the free-map blocks of the file's blocks, and stays within `MAXOPBLOCKS` exactly when these free-map blocks are fewer than that; on a disk as large as `mkfs` makes it they can be ten (`TruncBound.TruncationFitsExactlyWhen`, `TruncBound.TruncationOverrun`).
- `fileread` begins no operation, and `readi` of a hole allocates blocks. It panics in `log_write` exactly if the range has an empty position and no operation of any process is under way, and for lack of blocks exactly if one is and fewer blocks are free than empty positions lie on the way (`ReadWrite.Readi`, `FileWrite.Fileread`, `FileRuns.HoleReadPanics`).
- `writei` into a hole below the end of a file changes `addrs[]` and does not write the inode (`ReadWrite.SyncedExactlyWhen`, `FileRuns.StaleDinode`). `readi` of a hole does the same (`ReadWrite.ReadSyncedExactlyWhen`, `FileRuns.StaleByReading`).
- `malloc` of more than 2^32 - 8 bytes returns a chunk that is too small (`Umalloc.UnitsCoverRequest`).
- `copyuvm` loses a page exactly if the free pages run out when a page table is due (`Fork.Copyuvm`).
- A writer that has been killed, or whose readers' end is closed, leaves a reader asleep on a full pipe exactly if it fills the pipe with more to write (`PipeRuns.SleepersKept`, `PipeRuns.KilledWriterAbandons`).
- `uva2ka` reads through a null pointer where there is no page table (`Fork.Copyout`, outcome `Fault`).

## Model

| member | source | states |
|---|---|---|
| Blocks.SetWord | xv6-public/fs.c:388-400 | storing a 32-bit word in a block changes that word and no other |
| Blocks.SetBit | xv6-public/fs.c:64-70 | marking a block in a free-map block sets its bit and no other |
| Blocks.ClearBit | xv6-public/fs.c:88-94 | unmarking clears that bit and no other |
| FileTree.IndexSplitIsBijection | xv6-public/fs.c:373-483 | the split of a block number into direct, single, double and triple indices is a bijection between [0, MAXFILE) and the data positions of a file |
| FileTree.OwnershipIsDisjointUnion | xv6-public/fs.c:56-96 | under the ownership invariant the marked blocks are the disjoint union of the metadata and the blocks of each file, and no two positions share a block |
| FileTree.FlatMapIsInjective | xv6-public/fs.c:373-483 | different blocks of a file, and blocks of different files, lie on different disk blocks |
| FileTree.HangingChangesOne | xv6-public/fs.c:388-481 | storing a fresh block in one table entry changes the tree at that one position only |
| FileTree.HangingKeepsOwned | xv6-public/fs.c:388-481 | hanging a fresh, marked, zeroed block into a tree keeps the ownership invariant for every file |
| Alloc.AllocatingGrows | xv6-public/fs.c:373-483 | allocating one entry adds exactly one block, at that position, and keeps every other mapping of every file |
| Alloc.GrownTransitive | xv6-public/fs.c:373-483 | growth along one path composes over the levels of the tree |
| Alloc.LoggedThese | xv6-public/fs.c:56-78 | an allocated entry logs exactly the zeroed block, its free-map block and the table with the entry, and the block was the lowest free one |
| Alloc.LoggedCompose | xv6-public/fs.c:373-483 | that exact account of logged and taken blocks adds up over the levels of a tree and the blocks of a range |
| Fs.FileSystem.Mkfs | xv6-public/mkfs.c:237-251 | the empty file system, whose free map the loop fills for the metadata, satisfies the ownership invariant all operations keep |
| Fs.FileSystem.LogWrite | xv6-public/log.c:213-233 | the block is stored and listed as logged, and the panic outside of a transaction is reached, without effect, exactly if no operation is under way |
| Fs.FileSystem.Balloc | xv6-public/fs.c:56-78 | returns the first unmarked block, marked and zeroed, all others as before; none, without effect, only if every block is marked or no operation is under way |
| Fs.FileSystem.Bmap | xv6-public/fs.c:373-483 | returns the block of bn, allocating what is missing on the way to it; every other block of every file keeps its mapping and contents; a mapped block is found without change; ownership is kept; exactly which blocks were logged, and that nothing else on disk changed |
| Fs.FileSystem.RootBlock | xv6-public/fs.c:380-384 | an entry of `addrs[]` is filled with a fresh block only if it was 0 |
| Fs.FileSystem.ChildBlock | xv6-public/fs.c:388-400 | an entry of an index block is filled with a fresh block only if it was 0 |
| Fs.FileSystem.Walk | xv6-public/fs.c:386-481 | descending the levels of the single, double or triple tree ends at the block of the whole path |
| Content.GrowthKeepsContent | xv6-public/fs.c:373-483 | allocating blocks leaves every byte of every file as it was: a hole and a fresh block both read as zero |
| Content.StoringKeepsTrees | xv6-public/fs.c:665-670 | storing data in a data block keeps every tree and the ownership invariant |
| Content.StoringReplacesBlock | xv6-public/fs.c:665-670 | storing data in a file's block changes the bytes of that block of that file and no others |
| Advance.AdvanceByBmap | xv6-public/fs.c:662-671 | one iteration of the loops of readi and writei moves the mapped range on by its bytes |
| Advance.AdvanceByStore | xv6-public/fs.c:662-671 | storing the iteration's bytes keeps the mapped range |
| Demand.FreshAreEmpties | xv6-public/fs.c:373-483 | a range that gets all its blocks takes one new block for each position on the way to it that was empty |
| Demand.TakesWhatItNeeds | xv6-public/fs.c:56-78 | the free blocks become fewer by exactly the number of these positions |
| Demand.FoundEnough | xv6-public/fs.c:662-671 | a range that got all its blocks found at least as many free |
| Demand.StuckIsShort | xv6-public/fs.c:76-77 | a range that ran out of blocks found fewer free than it has empty positions |
| Demand.StuckHadEmpty | xv6-public/fs.c:662-671 | a range that stopped for want of a block or of an operation had an empty position |
| Demand.NothingTaken | xv6-public/fs.c:662-671 | a range that got all its blocks took none exactly if it had no empty position |
| Dinode.StoreInode | xv6-public/fs.h:33-40 | the words of the inode on disk: type and major, minor and nlink, size, thirteen addresses |
| Dinode.InodeRoundTrip | xv6-public/fs.c:221-237 | what iupdate stores is what ilock loads, and the other seven inodes of the block stay |
| ReadWrite.MapNext | xv6-public/fs.c:627-631 | the block under the next bytes is mapped without a change to any byte, and bmap's range panic is not reached; where no block is left, what is still without a place |
| ReadWrite.Readi | xv6-public/fs.c:611-635 | returns the file's bytes at off clipped to the size, -1 exactly for a start behind the end or a range that wraps; changes no byte of any file; comes back exactly if no position on the way is empty, or an operation is under way and as many blocks are free; changes anything at all exactly if one is empty; exactly which blocks were logged |
| ReadWrite.ReadSyncedExactlyWhen | xv6-public/fs.c:611-635 | readi leaves the inode on disk in step exactly if every `addrs[]` entry it goes through was set |
| ReadWrite.Iupdate | xv6-public/fs.c:221-237 | the inode on disk equals the one in memory, its block is logged, and no file and no other inode changes; panics, without effect, exactly outside of a transaction |
| ReadWrite.Writei | xv6-public/fs.c:640-680 | lays exactly the n bytes over the file at off and changes no other byte of any file and no other inode, sets the size to the larger end; -1 without effect exactly for a range past the largest file; comes back exactly if it has nothing to write, or an operation is under way and the range needs no more blocks than are free; exactly which blocks were logged |
| ReadWrite.LoggedStep | xv6-public/fs.c:667-673 | one iteration of writei logs exactly what bmap logs and the data block |
| ReadWrite.AppendKeepsFileDense | xv6-public/fs.c:640-680 | a file without holes and in step with its inode on disk stays so under writes at or below its end |
| ReadWrite.SyncedExactlyWhen | xv6-public/fs.c:673-679 | writei leaves the inode on disk in step exactly if the file grows or every `addrs[]` entry it goes through was set |
| ReadWrite.ReadBack | xv6-public/fs.c:611-680 | what writei stored is the slice readi returns |
| Truncate.Bfree | xv6-public/fs.c:81-96 | clears the block's mark only and logs its free-map block; fails exactly on a block that is free or outside of a transaction |
| Truncate.FreeTree | xv6-public/fs.c:506-587 | frees the blocks at and below a position, each once, and no others |
| Truncate.FreeSlot | xv6-public/fs.c:496-587 | frees what one entry of `addrs[]` leads to and clears the entry |
| Truncate.Itrunc | xv6-public/fs.c:490-594 | "freeing free block" is not reached, and it comes back exactly inside a transaction; exactly the file's data and index blocks become unmarked; the file is empty in memory and on disk; every other file keeps every byte and its inode on disk; logged are exactly the free-map blocks of the file's blocks and its inode block |
| FileRuns.MkfsIsDense | xv6-public/mkfs.c:237-251 | mkfs leaves every file without holes and in step with its inode on disk |
| FileRuns.StepKeepsDense | xv6-public/fs.c:490-680 | a call on any file keeps this of a file, but for a write to that file behind its end |
| FileRuns.DenseForever | xv6-public/fs.c:490-680 | over every run of readi, writei, itrunc and the making of files, a file written only at or below its end has no hole, its inode on disk is up to date, and reading it changes nothing |
| FileRuns.NewFile | xv6-public/sysfile.c:295-302 | a new file has type 2, one link, no major or minor number, size 0 and no blocks |
| FileRuns.Create | xv6-public/sysfile.c:295-302 | an unused inode becomes an empty file in memory and on disk, and nothing else changes |
| FileRuns.Perform | xv6-public/fs.c:490-680 | a call comes back exactly if the state before it says so, and then is exactly the step that the call and that state determine, with its result; a write logs exactly what a writei logs |
| FileRuns.ServeFromMkfs | xv6-public/fs.c:490-680 | any list of calls made in turn from mkfs on is a run whose steps are those of the calls, up to the first that cannot come back or writes this file behind its end; before that this file has no hole and its inode on disk is up to date |
| FileRuns.StaleDinode | xv6-public/file.c:159-196 | from mkfs on, a file is made, one byte written behind a hole and one into it, after which the inode on disk differs from the one in memory |
| FileRuns.StaleByReading | xv6-public/file.c:96-113 | the same when the hole is read while another operation is under way |
| FileRuns.HoleReadPanics | xv6-public/file.c:96-113 | from mkfs on, a file is made, one byte written behind a hole, and reading the hole panics though a block is free; with an operation under way it would come back |
| FileRuns.OverrunFromMkfs | xv6-public/file.c:159-196 | from mkfs on, a file is made and one chunk written to it at an offset of the caller's, which logs at least eleven blocks |
| LogBound.RangeTablesAreFew | xv6-public/fs.c:373-483 | the paths to any four consecutive blocks go through at most five tables |
| LogBound.FreshAreLowest | xv6-public/fs.c:56-78 | the blocks a range takes are exactly the lowest free ones |
| LogBound.WriteLogs | xv6-public/fs.c:640-680 | a writei adds to the log exactly as many blocks as WriteCost counts in the state before it: file blocks spanned, tables that get entries, free-map blocks of the lowest free blocks, the inode block if the file grows |
| LogBound.ReservationHoldsExactlyWhen | xv6-public/file.c:132-141 | a transaction of one writei stays within MAXOPBLOCKS exactly when that count does |
| LogBound.ChunkLogsFew | xv6-public/file.c:132-141 | for one chunk the count is at most four data blocks, five tables, the inode block and the map blocks of at most nine new blocks |
| LogBound.ChunkCanOutrunReservation | xv6-public/file.c:132-141 | for a first write across the edge of the triple table, with nine blocks free, it is at least eleven, one more than begin_op reserves |
| FileWrite.WritesCompose | xv6-public/file.c:133-153 | two adjacent writes have the effect of one |
| FileWrite.Stop | xv6-public/file.c:133-153 | how many bytes go through: all, or whole chunks up to the first chunk that would pass the largest file |
| FileWrite.WriteChunk | xv6-public/file.c:138-146 | one transaction between begin_op and end_op extends the prefix written so far, logs exactly WriteCost blocks, at most 19, all behind the log, and changes no other block; where it panics, what has no place |
| FileWrite.Filewrite | xv6-public/file.c:117-156 | the chunks together equal one writei of n bytes at the offset, or of a chunk-aligned prefix with result -1; the offset moves by as much; after each transaction the disk holds the first so many chunks; panics exactly if these bytes need more blocks than were free before the call |
| FileWrite.Fileread | xv6-public/file.c:96-113 | -1 for a file not open for reading; else the bytes at the offset, which moves by their number; panics exactly as readi does with the operations other processes have under way |
| TruncBound.TruncationFitsExactlyWhen | xv6-public/fs.c:490-594 | a transaction of one itrunc logs one block more than there are free-map blocks with bits of the file's blocks, so it stays within MAXOPBLOCKS exactly when these are fewer |
| TruncBound.FewPerMapBlock | xv6-public/fs.c:88-94 | blocks have their bits in at least one 4096th as many free-map blocks |
| TruncBound.LargeFileSpreads | xv6-public/fs.c:490-594 | a file with 36865 blocks mapped has its blocks in at least ten of them |
| TruncBound.TruncationOverrun | xv6-public/fs.c:490-594 | from mkfs on, on a disk of the size mkfs makes, a file is made, 36865 blocks of it are written with filewrite, and truncating it logs at least eleven blocks |
| FileCrash.CrashLeavesWholeChunks | xv6-public/file.c:133-153 | wherever a crash strikes the log while it carries these transactions, a recovery leaves the home blocks as after a whole number of chunks, as many as header writes were done |
| FileCrash.RebootKeepsFile | xv6-public/fs.c:221-237 | a file in step with its inode on disk reads after a reboot as before |
| FileCrash.CrashedWriteIsPrefix | xv6-public/file.c:133-153 | so a write at or below the end of a file without holes, cut short by a crash and recovered, is the write of a whole number of its chunks, size included |
| FileCrash.CarryOne | xv6-public/file.c:140-145 | begin_op, a log_write for each block of a transaction and end_op commit them as one group, or panic exactly if they are more than the log holds |
| FileCrash.CarryAll | xv6-public/file.c:135-152 | the transactions made one after the other on the log are at every step of its run the groups committed so far, whole and in order, so that the above applies to a crash at any step |
| FileCrash.FilewriteOnLog | xv6-public/file.c:117-156 | filewrite with its transactions on the log, from an empty log on: at every step of the log's run, a crash and a recovery leave the write of a whole number of chunks, size included; it comes back exactly if enough blocks are free, with the bytes written and the home blocks those of the file system |
| LogMachine.WithHeader | xv6-public/log.c:101-113 | the header block lists the blocks stored in it |
| LogMachine.CommittingAddsGroup | xv6-public/log.c:176-202 | the one write of the header commits the whole group: the committed contents become the old ones overlaid by it |
| LogMachine.InstallKeepsCommitted | xv6-public/log.c:69-82 | installing a block, in a commit or a recovery, keeps the committed contents |
| LogMachine.ClearKeepsCommitted | xv6-public/log.c:115-122 | clearing the header once every block is home keeps the committed contents |
| LogMachine.StepRefines | xv6-public/log.c:69-233 | every step, a crash included, keeps the invariant and does to the abstract store what its label says: write to the group, commit it whole, drop it, or nothing |
| LogRuns.RunRefines | xv6-public/log.c:69-233 | the same over every run |
| LogRuns.CrashAtomicity | xv6-public/log.c:69-202 | at every point of every run, with crashes after any block write also inside commits and recoveries, a recovery would leave the initial contents overlaid by exactly the groups whose header write completed |
| LogRuns.IdleMeansHome | xv6-public/log.c:69-122 | once a recovery has ended, the home blocks themselves are those contents |
| LogRuns.ViewIsLatest | xv6-public/log.c:177-190 | outside a recovery bread shows the committed contents with the writes of the group on top |
| LogRuns.CommitCoversGroup | xv6-public/log.c:145-202 | a commit runs while no operation is outstanding and covers exactly the distinct blocks its group wrote |
| LogRuns.OperationIsInOneGroup | xv6-public/log.c:125-174 | no commit falls between begin_op and end_op of an operation: all it logs is in one group |
| LogRuns.ReservationHolds | xv6-public/log.c:125-174 | over every interleaving the logged blocks and the unspent reservations fit LOGSIZE if no operation logs more than MAXOPBLOCKS new blocks |
| LogRuns.RefusedExactlyWhen | xv6-public/log.c:125-141 | outside of a commit begin_op refuses exactly if the operations under way and the new one could outrun LOGSIZE with MAXOPBLOCKS new blocks each from here on |
| LogRuns.RefusalNeededExactlyWhen | xv6-public/log.c:125-141 | they could outrun it within what is left of their reservations exactly if the logged blocks, these and one reservation exceed LOGSIZE, and then begin_op refuses |
| LogRuns.RefusedWithoutNeed | xv6-public/log.c:125-141 | a run in which a third operation is refused though all could use up their reservations |
| LogRuns.FewCallsNeverPanic | xv6-public/log.c:213-233 | with more than LOGSIZE log blocks and at most MAXOPBLOCKS calls per operation log_write does not panic |
| LogRuns.FullLogPanics | xv6-public/log.c:213-233 | on every smaller log, as mkfs makes it, three operations within their budget reach the panic, and on a larger log one call more than the budget does |
| Log.RedoLog.Initlog | xv6-public/log.c:53-122 | after a power failure at the end of any run the home blocks are what the committed groups made them |
| Log.RedoLog.BeginOp | xv6-public/log.c:125-141 | lets an operation in exactly if no commit is under way and its reservation fits |
| Log.RedoLog.LogWrite | xv6-public/log.c:213-233 | is the machine's write step with absorption, or the panic exactly if the log is full or no operation is outstanding |
| Log.RedoLog.EndOp | xv6-public/log.c:145-174 | takes the machine's steps of a whole commit if it is the last operation, after which every home block is what bread showed before and the log is empty |
| Log.RedoLog.Commit | xv6-public/log.c:192-202 | write_log, header, install_trans, header, in this order, as steps of the machine |
| Log.RedoLog.WriteLog | xv6-public/log.c:177-190 | copies every logged block, one machine step each |
| Log.RedoLog.InstallTrans | xv6-public/log.c:69-82 | installs every logged block, one machine step each |
| Log.RedoLog.RecoverFromLog | xv6-public/log.c:115-122 | takes the machine's recovery steps for the blocks the header lists |
| Log.GroupComesHome | xv6-public/log.c:145-202 | after the last end_op the home blocks are what bread showed before it |
| Log.RestartComesHome | xv6-public/log.c:53-122 | after a restart the home blocks are the initial contents overlaid by the committed groups |
| Log.FormHeader | xv6-public/log.c:101-113 | the loop of write_head forms the header block of the list |
| Log.ReadHeader | xv6-public/log.c:85-96 | the loop of read_head reads back the list of the header block |
| BufSpec.GetKeepsView | xv6-public/bio.c:61-93 | bget, also when it recycles a buffer, changes nothing bread shows; it fails only if every buffer is in use or dirty |
| BufSpec.FillKeepsView | xv6-public/bio.c:96-106 | the holder sees the block's contents |
| BufSpec.ModifyChangesView | xv6-public/bio.c:96-106 | data stored by the holder shows for that block and no other |
| BufSpec.PinKeepsView | xv6-public/log.c:231-232 | marking a buffer dirty changes nothing bread shows |
| BufSpec.WriteOutKeepsView | xv6-public/bio.c:109-116 | bwrite puts on the disk what bread shows |
| BufSpec.UnlockKeepsView | xv6-public/bio.c:126 | the first half of brelse changes nothing bread shows |
| BufSpec.DropKeepsView | xv6-public/bio.c:128-140 | nor does the second, when another may hold the buffer already |
| BufRuns.ActRefines | xv6-public/bio.c:61-141 | every act of a user keeps the invariant (one buffer per block, a valid clean buffer equals its disk block) and only a store changes what bread shows |
| BufRuns.RunIsPlainMap | xv6-public/bio.c:61-141 | over every run of any users, cache and disk are one plain map of blocks |
| BufRuns.ReferencesAddUp | xv6-public/bio.c:61-141 | over every run from binit a buffer's refcnt is the number of times bget returned it less the number of times brelse gave it back, and its lock is held exactly if it was taken once more than released |
| BufRuns.GivenBackIsFree | xv6-public/bio.c:75-92 | so bget may recycle a buffer exactly if every reference was given back and log_write has not pinned it |
| BufRuns.BreadAndBack | xv6-public/bio.c:96-141 | a bread and its brelse, act by act: the holder has what bread is to show, and the refcnt is as before |
| BufRuns.HolderWrites | xv6-public/bio.c:109-116 | who holds a buffer can store in it and bwrite it, after which the disk has the data and bread shows it |
| BufRuns.HolderLogs | xv6-public/log.c:213-233 | or log_write it, after which the disk is as before, the buffer is not to be recycled, and bread shows the data |
| BufRuns.RingIsRecency | xv6-public/bio.c:120-141 | the ring is at all times in order of last release |
| BufRuns.RecyclesLeastRecent | xv6-public/bio.c:78-91 | so the buffer bget recycles is, of those it may, one released longest ago |
| Bio.UnlinkLinked | xv6-public/bio.c:132-133 | the two assignments take a buffer out of the doubly linked ring |
| Bio.PushLinked | xv6-public/bio.c:134-137 | the four assignments put a buffer behind the head |
| Bio.BufferCache.Binit | xv6-public/bio.c:38-56 | the loop links every buffer into the ring once |
| Bio.BufferCache.Bget | xv6-public/bio.c:61-93 | the two walks along the links find what the specification finds: the block's buffer, else the least recent free one, else none |
| Bio.BufferCache.Fill | xv6-public/bio.c:96-106 | the holder's buffer is valid and has the block's contents |
| Bio.BufferCache.SetDirty | xv6-public/log.c:231 | the flag log_write sets pins the held buffer, and the ring stays a ring |
| Bio.BufferCache.Bwrite | xv6-public/bio.c:109-116 | the buffer is on disk and clean |
| Bio.BufferCache.ToHead | xv6-public/bio.c:132-137 | unlinking and relinking a buffer moves it to the front, and the links stay a ring |
| Bio.BufferCache.Unref | xv6-public/bio.c:128-140 | one reference less, and the last one out moves the buffer to the front of the ring, also when the lock is someone else's by now |
| Bio.BufferCache.Brelse | xv6-public/bio.c:120-141 | the lock is free, one reference less, and the last one out moves the buffer to the front of the ring |
| LogCache.GettingKeeps | xv6-public/bio.c:61-93 | a bget by any process, at any point of a commit or a recovery, keeps the invariant of cache and log: every dirty buffer has what log_write was last given, every logged block has a dirty buffer, the log's process has the buffers it took |
| LogCache.LoggingKeeps | xv6-public/log.c:213-233 | log_write on a held buffer is the log machine's write step |
| LogCache.BlockMove | xv6-public/log.c:74-78 | what write_log or install_trans moves into the target buffer is what the log machine copies, whoever reads or holds other buffers meanwhile |
| LogCache.HeaderMove | xv6-public/log.c:101-111 | what write_head forms in the header's buffer is the header of the list |
| LogCache.OutIsStep | xv6-public/log.c:69-113 | the bwrite that follows is the log machine's copy, header write, install or clear |
| LogCache.ReadKeeps | xv6-public/log.c:85-96 | read_head through the cache reads the header of the disk |
| LogCache.StepKeeps | xv6-public/log.c:53-233 | every act of every process keeps the invariant, and is a step of the log machine or nothing to it |
| LogCache.RunIsLogRun | xv6-public/log.c:53-233 | every run of readers, operations, commits, crashes and recoveries on one cache is a run of the log machine |
| LogCache.CrashAtomicityOnCache | xv6-public/log.c:69-202 | at every point of every such run a recovery would leave the initial contents overlaid by exactly the groups whose header write completed |
| LogCache.CacheShowsLatest | xv6-public/bio.c:61-141 | at every such point outside a recovery bread shows, for every block that no one is changing, the committed groups with the writes logged since on top |
| LogCache.ChangedByWhom | xv6-public/log.c:204-233 | a buffer is being changed only while an operation is outstanding or by the log's process that holds it |
| LogCache.NoBufferExactlyWhen | xv6-public/bio.c:75-92 | bget panics exactly if the block has no buffer and the logged blocks and the clean buffers in use are as many as the buffers |
| LogCache.LogFindsBuffer | xv6-public/log.c:69-190 | the log's process is never refused a buffer while these are fewer, and never one for a home block of the group it commits |
| LogProgress.NeverStuck | xv6-public/log.c:53-202 | while a commit or a recovery is under way its process can go on, or waits for a buffer another process holds, or bget panics for want of one |
| LogProgress.OwnActRanks | xv6-public/log.c:53-202 | every act of that process brings it nearer to its end, by a count of the acts that are left |
| LogProgress.OthersKeepRank | xv6-public/log.c:53-202 | no act of another process throws it back, but for a crash and the end_op that starts it |
| LogProgress.CommitIsBounded | xv6-public/log.c:53-202 | so over every run a commit or a recovery takes only so many acts, whatever the others do |
| LogProgress.OperationWrites | xv6-public/log.c:213-233 | an operation that holds a buffer of a home block can store and log it unless the log is full; the block is then listed with these contents and bread shows them |
| LogProgress.CrashCanStrike | xv6-public/log.c:53-64 | a crash can strike in every state, and what comes up is booting with the disk as it was |
| Famine.NoBufferForTheLog | xv6-public/log.c:177-190 | with n buffers, n - 1 blocks logged by three operations and one reader there is a run from boot in which write_log's first bread finds none, and no operation ever calls log_write more than MAXOPBLOCKS times; also for n = NBUF |
| FreeList.PutSorted | xv6-public/umalloc.c:33-42 | a freed chunk merged with what it touches leaves the list in address order with no two chunks touching |
| FreeList.PutCovers | xv6-public/umalloc.c:33-42 | it adds exactly its own units to the free ones |
| FreeList.TakeSorted | xv6-public/umalloc.c:75-82 | taking units off a chunk keeps the order |
| FreeList.TakeCovers | xv6-public/umalloc.c:75-82 | it removes exactly the units handed out |
| Umalloc.PutRep | xv6-public/umalloc.c:33-42 | the stores to the headers leave them the ring of the new list |
| Umalloc.TakeAllRep | xv6-public/umalloc.c:76-77 | so does unlinking a chunk |
| Umalloc.TakeTailRep | xv6-public/umalloc.c:79-81 | so does cutting off its end |
| Umalloc.FreePartition | xv6-public/umalloc.c:24-44 | free units and live units stay a partition of the units obtained |
| Umalloc.TakePartition | xv6-public/umalloc.c:63-90 | so they do when a chunk is handed out, which touches no live chunk |
| Umalloc.GrowPartition | xv6-public/umalloc.c:46-61 | and when core is added |
| Umalloc.UnitsFor | xv6-public/umalloc.c:69 | the fewest units that hold the request and a header, one unit if the request wraps |
| Umalloc.Core | xv6-public/umalloc.c:52-53 | what morecore asks for: what is needed, but at least 4096 units |
| Umalloc.UnitsAddUp | xv6-public/umalloc.c:24-90 | free and live units are disjoint and add up to the units obtained from sbrk |
| Umalloc.Allocator.FindSlot | xv6-public/umalloc.c:29-32 | from wherever freep points, the search ends behind the last free chunk below the freed one |
| Umalloc.Allocator.Free | xv6-public/umalloc.c:24-44 | the list is the old one with the chunk put in its place and merged; the chunk is no longer live; all else as before |
| Umalloc.Allocator.Morecore | xv6-public/umalloc.c:46-61 | adds the new core to the list, in which some chunk then fits the request, also when the core merged into its lower neighbour |
| Umalloc.Allocator.Malloc | xv6-public/umalloc.c:63-90 | terminates; asks for core exactly if no free chunk fits, and once; returns 0 exactly if it asked and sbrk failed, then without effect; else a chunk of the size asked for that overlaps no live one, cut off the end of the first chunk behind freep that fits, if it did not ask |
| Umalloc.UnitsCoverRequest | xv6-public/umalloc.c:69 | a chunk is large enough exactly if the request is at most 2^32 - 8, and sbrk's int argument is positive exactly if it is below 2^31 - 15 or wraps |
| Pages.UserPagesAreDistinct | xv6-public/vm.c:35-80 | under the page invariant two user pages of one or two address spaces never share a frame |
| Pages.InstallKeeps | xv6-public/vm.c:44-53 | a new page table keeps the partition of the pages and maps nothing |
| Pages.MapKeeps | xv6-public/vm.c:71-73 | mapping a page keeps the partition |
| Pages.UnmapKeeps | xv6-public/vm.c:272-279 | unmapping a page keeps the partition |
| Vm.SkipIsPageByPage | xv6-public/vm.c:268-271 | the jump over an absent directory entry equals unmapping page by page |
| Vm.Memory.Freerange | xv6-public/kalloc.c:46-53 | every page of the range is free |
| Vm.Memory.Kalloc | xv6-public/kalloc.c:82-95 | returns the first page of the free list, none exactly if it is empty |
| Vm.Memory.Walkpgdir | xv6-public/vm.c:35-55 | finds the page table or, if asked and a page is free, creates it, with an entry the user may use and write; no mapping and no data changes |
| Vm.Memory.MapPage | xv6-public/vm.c:60-80 | sets this entry and no other of any address space; fails exactly if a table is needed and no page is free, then without effect |
| Vm.Memory.Deallocuvm | xv6-public/vm.c:258-282 | exactly the pages between the sizes are unmapped and exactly their frames are free; every other entry, page and byte is as before |
| Vm.Memory.Allocuvm | xv6-public/vm.c:221-252 | succeeds exactly if enough pages are free for the pages and tables, then maps pages the user may write and that read as zero; otherwise every mapping and byte is as before and at most page tables stay |
| Spaces.Freevm | xv6-public/vm.c:286-301 | every page of the address space (directory, tables, user pages) is freed once and no other page changes |
| Spaces.Mappages | xv6-public/vm.c:60-80 | maps each page of the kernel's range to its frame with the flags given and no other page, or fails exactly when its tables outrun the free pages |
| Spaces.Setupkvm | xv6-public/vm.c:106-136 | takes 65 free pages for an address space whose entries are exactly those of kmap, or leaves every page with its role |
| Spaces.KernelSeesMemory | xv6-public/vm.c:106-116 | kmap shows the kernel physical memory at KERNBASE and the devices at their own addresses, nothing of it the user's, and all but the text writable |
| Spaces.NothingLeft | xv6-public/vm.c:130-133 | an address space made and torn down leaves every page with its old role |
| Fork.WhereItEnds | xv6-public/vm.c:328-340 | where a copy of n pages runs out of f free pages |
| Fork.Copyuvm | xv6-public/vm.c:318-346 | success exactly if enough pages are free: every byte and every page's flags are the parent's, on frames of its own that were free, every other address space and page untouched; failure restores every role, but for one page lost exactly if the pages run out when a table is due |
| Fork.PieceWritten | xv6-public/vm.c:381 | storing into one frame changes those bytes of that address space and no byte of any other |
| Fork.Uva2ka | xv6-public/vm.c:350-361 | finds the frame exactly of pages that are present and the user's; reads through a null pointer exactly where there is no page table |
| Fork.Copyout | xv6-public/vm.c:366-387 | page by page equals one flat write of a prefix, of all bytes exactly if every page is present and the user's, and no other byte of any address space changes; stopped by a page that is not, it is refused or, exactly where there is no page table, faults |
| Grammar.LineWords | xv6-public/sh.c:344-446 | every word of a line that parses is an argument or file of the command tree, once |
| Syntax.LineBack | xv6-public/sh.c:344-446 | whatever way a line is written, with `>` or `>>`, redirections anywhere among the words, any number of `&`s and parentheses, followed by the end or a closing parenthesis, the parser gives back what it means |
| Syntax.LineRead | xv6-public/sh.c:344-446 | and a line the parser accepts is one of these ways, with that meaning |
| Syntax.ParsesExactly | xv6-public/sh.c:327-446 | so a list of tokens parses to a command exactly if it is a way to write it |
| Syntax.ParsePrint | xv6-public/sh.c:327-446 | every command with at most nine words a piece can be written: precedence, associativity, nesting, order of arguments and redirections come back |
| Grammar.LineProper | xv6-public/sh.c:374-446 | the parser makes no other trees: at most nine arguments, redirections as the three operators give them |
| Shell.WordsAreRuns | xv6-public/sh.c:265-308 | the words among a line's tokens are its maximal runs of ordinary characters, each once |
| Shell.LexesExactly | xv6-public/sh.c:265-308 | the tokens of a line are exactly those written on its characters, symbol by symbol and word by word, with any white space between |
| Shell.LineMeansExactly | xv6-public/sh.c:327-446 | the parser over characters is exact: a line parses to a command exactly if its characters are a way to write it |
| Shell.Parser.Gettoken | xv6-public/sh.c:265-308 | returns the next token with its bounds and moves the cursor past it and past white space |
| Shell.Parser.Peek | xv6-public/sh.c:310-320 | tells whether the next token starts with one of the characters, and reads none |
| Shell.Parser.Parseredirs | xv6-public/sh.c:374-397 | follows the grammar's redirections, or fails where it does; what each sign means is in Syntax.LineBack |
| Shell.Parser.Parseexec | xv6-public/sh.c:415-446 | follows the grammar's command |
| Shell.Parser.Parseblock | xv6-public/sh.c:399-413 | follows the grammar's parenthesized command |
| Shell.Parser.Parsepipe | xv6-public/sh.c:361-372 | follows the grammar's pipeline |
| Shell.Parser.Parseline | xv6-public/sh.c:344-359 | terminates on every line and follows the grammar |
| Shell.Nulterminate | xv6-public/sh.c:449-493 | stores a NUL behind every word of the tree and changes nothing else |
| Shell.WordStrings | xv6-public/sh.c:449-493 | no NUL falls inside a word, so each word is a C string of its own |
| Shell.Parsecmd | xv6-public/sh.c:327-342 | returns a command exactly if the characters of the line are a way to write it; every maximal run of the line is a word of it exactly once and, in the buffer, a NUL-terminated string equal to the run |
| SleepLock.StepKeeps | xv6-public/sleeplock.c:22-42 | every step of acquiresleep, releasesleep, sleep, wakeup, kill and the scheduler keeps the invariant |
| SleepLock.MutualExclusion | xv6-public/sleeplock.c:22-42 | in every run of any number of processes at most one holds the lock, and the lock has its pid |
| SleepLock.Acquires | xv6-public/sleeplock.c:22-32 | acquiresleep of a lock that is free takes five steps, after which the caller holds it and nothing else has changed |
| SleepLock.FallsAsleep | xv6-public/proc.c:1188-1215 | of one that is held, six, after which the caller sleeps and the spin lock is free |
| SleepLock.Releases | xv6-public/sleeplock.c:34-42 | releasesleep frees the lock and lets every process that slept on it run, and no other state changes |
| SleepLock.WakesAndTakes | xv6-public/proc.c:1203-1215 | a woken sleeper that finds the lock free takes it |
| SleepLock.KilledSleepsOn | xv6-public/sleeplock.c:22-32 | a sleeper woken by kill finds the lock held and sleeps on |
| SleepLock.HandToHand | xv6-public/sleeplock.c:22-42 | a run from boot in which one process takes the lock, another sleeps on it, the first lets it go and the second takes it |
| SleepLock.LockIsKept | xv6-public/sleeplock.c:22-42 | who has the lock keeps it until its own releasesleep, which begins only in its critical section; the lock is taken only by who found it free |
| SleepLock.NoLostWakeup | xv6-public/proc.c:1188-1246 | whenever the spin lock is free and the lock is not held, no process sleeps on it |
| SleepLock.NoDeadlock | xv6-public/sleeplock.c:22-42 | while a process is in acquiresleep or releasesleep, some process can take a step or some process is in its critical section |
| Pipe.CountersTell | xv6-public/pipe.c:85-114 | the wrapping 32-bit counters tell full and empty exactly |
| Pipe.WriteSection | xv6-public/pipe.c:84-97 | the next bytes of the caller are appended, all of them exactly if it returns their number, else the ring is full and it sleeps or, killed or without reader, fails |
| Pipe.ReadSection | xv6-public/pipe.c:106-120 | an empty ring that is still written returns -1 exactly if the caller is killed and else sleeps, without a wakeup; otherwise the oldest bytes come out, n of them or all, their number is returned, and the writers are woken |
| Pipe.Ring.Write | xv6-public/pipe.c:78-98 | between two sleeps stores the bytes that fit and returns, fails or sleeps as the specification says |
| Pipe.Ring.Read | xv6-public/pipe.c:100-121 | between two sleeps copies out the oldest bytes, as many as asked for and there |
| PipeRuns.ReadIsPrefix | xv6-public/pipe.c:78-121 | in every run of any readers, writers and closers the bytes read are the first bytes stored, and at most 512 more are in the ring |
| PipeRuns.LocksKept | xv6-public/proc.c:1188-1246 | every step of piperead, pipewrite, pipeclose, sleep, wakeup, kill and the scheduler keeps who has which lock, and that one about to sleep has reason to |
| PipeRuns.OneWriterDelivers | xv6-public/pipe.c:78-121 | with one writer, nobody killed and the read end open, the bytes stored are all bytes written so far but what the current call has yet to store, and the bytes read are a prefix of them |
| PipeRuns.SleepersKeptElsewhere | xv6-public/proc.c:1188-1246 | no step of sleep, wakeup, the locks, kill or the scheduler lets a sleeper be forgotten |
| PipeRuns.SleepersFit | xv6-public/pipe.c:78-121 | in every run without such a writer, whoever sleeps or is about to is a reader of an empty pipe or a writer of a full one, or a wakeup under way will find them; so no wakeup is lost |
| PipeRuns.NobodyAbandoned | xv6-public/pipe.c:84-92 | there is no such writer as long as nobody is killed and the read end stays open |
| PipeRuns.SleepersKept | xv6-public/pipe.c:78-121 | a call's part under the lock forgets a sleeper exactly if it is that of a writer, killed or without readers' end, that fills the pipe with more to write while a reader sleeps |
| PipeRuns.KilledWriterAbandons | xv6-public/pipe.c:84-92 | a run, statement by statement, that ends with a reader asleep on a full open pipe and no one else in a call |
| PipeCalls.ReadGoesThrough | xv6-public/pipe.c:100-121 | piperead with no one in the way, statement by statement: n bytes or all come out in order, every writer asleep can run, the locks are free, and nothing else changes |
| PipeCalls.WriteGoesThrough | xv6-public/pipe.c:78-98 | so pipewrite of bytes there is room for: all go in, and every reader asleep can run |
| PipeCalls.ReadFallsAsleep | xv6-public/pipe.c:105-112 | piperead of an empty pipe that is still written ends asleep with the pipe's lock free |
| PipeCalls.WriteFallsAsleep | xv6-public/pipe.c:84-92 | pipewrite of more than there is room for fills the ring, wakes the readers and ends asleep |
| PipeCalls.CloseGoesThrough | xv6-public/pipe.c:59-75 | pipeclose closes its end, and whoever waits for it can run |
| PipeCalls.ReaderIsServed | xv6-public/pipe.c:78-121 | a reader asleep on an empty pipe is woken by the next write, run, and returns with the writer's bytes |
| PipeCalls.WriterIsServed | xv6-public/pipe.c:78-121 | a writer asleep on a full pipe is woken by the next read and stores the rest |
| PipeCalls.KilledReaderLeaves | xv6-public/pipe.c:106-112 | a reader asleep on an empty pipe is woken by kill and returns |
| Stride.FindMinPass | xv6-public/proc.c:954-983 | chooses the first runnable process of the least truncated pass, or leaves the turn to MLFQ exactly if its pass is smaller or there is none |
| Stride.WhoseTurn | xv6-public/proc.c:954-983 | the turn is a runnable process' outside of MLFQ, of the least pass among these, and MLFQ's exactly if none of them is below the bound and not above MLFQ's pass |
| Stride.PicksOne | xv6-public/proc.c:954-983 | the choice is determined by the table |
| Stride.Scheduler.Turn | xv6-public/proc.c:1116-1119 | the chosen process' pass grows by its stride and nothing else changes |
| Stride.TurnKeepsClose | xv6-public/proc.c:986-1002 | no process gets further ahead of another than its stride and one |
| Stride.Fair | xv6-public/proc.c:954-1002 | after any number of choices the turns of two processes, weighed with their strides, differ by less than the larger stride plus one |

## Left out

- `iderw` and the disk driver: a block read or write is one atomic step.
- `ialloc`, `iget`, `iput`, directories and path names: `fs.c` is modelled from the inode down.
- ReadWrite.Readi: device inodes, for which the code calls the driver, are left out.
- ReadWrite.Writei: device inodes, for which the code calls the driver, are left out.
- FileWrite.Filewrite: device inodes and pipes, which it hands on, are left out; a pipe's write is `Pipe.Ring.Write`.
- FileRuns.Perform: device inodes are left out, as in the calls it makes.
- Fs.FileSystem.Mkfs: the root directory and the files that mkfs copies in afterwards are left out.
- FileWrite.WriteChunk: the waits of `begin_op` and `ilock` are not part of it; it begins when they have ended.
- FileWrite.Fileread: device inodes and pipes, which it hands on, are left out; a pipe's read is `Pipe.Ring.Read`.
- FileRuns.Create: the search for an unused inode and the directory entry are left out; the caller names the inode.
- Fs.FileSystem.LogWrite: the panic of a full log is left out; `LogRuns.FewCallsNeverPanic`, `LogBound.WriteLogs` and `TruncBound.TruncationFitsExactlyWhen` say what it depends on.
- `pfilewrite` and `pfileread`: the first never advances its offset, so beyond one chunk there is nothing to promise.
- The file model stores through `log_write` as if bread showed it at once, which is what `LogCache.CacheShowsLatest` says of the cache and the log.
- FileCrash.CrashLeavesWholeChunks: the log carries the transactions of this one write; a group that also holds other processes' operations commits them together.
- FileCrash.CrashedWriteIsPrefix: as for CrashLeavesWholeChunks, groups shared with other processes' operations are left out.
- FileCrash.FilewriteOnLog: the log carries this one write and has room for 19 blocks, the most one chunk can log; it starts empty.
- Log.ReadHeader: a header that lists more than LOGSIZE blocks, which the log never writes, is left out.
- Bio.BufferCache.Brelse: its two halves run one after the other; that another process gets in between is in `BufSpec.DropKeepsView` and `Bio.BufferCache.Unref`.
- Bio.BufferCache.Fill: the wait for the buffer's sleep lock is not part of it; the lock is free when it runs.
- `sbrk` is a parameter of malloc: it fails or returns core above all obtained so far, as it does when nobody shrinks the process.
- Umalloc.Allocator.Malloc: requests for which sbrk's int argument is negative, and would shrink the process, are left out; `Umalloc.UnitsCoverRequest` says which they are.
- The links of `kmem.freelist` through the free pages, and the byte patterns of kernel page-table entries beside their flags.
- Vm.Memory.Deallocuvm: an old size above KERNBASE, which no process has, is left out.
- Fork.Copyout: nothing is promised of memory once it has read through a null pointer.
- `inituvm`, `loaduvm`, `clearpteu`, and the switch of page tables.
- Shell command nodes are values: argv entries that parseexec adds to a node already wrapped in redirections are added before the wrapping.
- `runcmd`, `getcmd` and built-in commands of the shell.
- The reuse of a pipe's page after both ends are closed.
- MLFQ scheduling, CPU shares and thread life cycle.
- Rounding of doubles in the stride scheduler.
