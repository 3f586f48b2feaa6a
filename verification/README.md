# Verified models of xv6

A Dafny model of the parts of the xv6 kernel and user programs (under lab1) that hold a
small, heavily shared state and must agree with a much simpler object, with proofs that they do.

- **Storage stack** — kernel/log.c, bio.c, fs.c, file.c. The redo log makes groups of blocks
  atomic across crashes at any write (`LogDisk`); the buffer cache, with its doubly linked ring,
  stands for a plain block map (`BufferCache`, `CacheRuns`) and gives up the buffer let go of longest
  ago (`CacheLru`); operations are scheduled into groups
  (`LogOps`, `LogSleep`). `Journal` puts these together in one machine, in which processes inside
  operations, readers and the committer interleave at every cache step, and `JournalRuns` has its
  theorems: the block map is refined, pins follow the header, a commit's writes are those of the
  crash model, and a crash anywhere loses whole groups only (`JournalStuck` is one run of it). `Log` is the code of commit and
  recovery for a process alone in the cache. The block allocator and inodes stand for files that
  are byte sequences, with the exact blocks a write needs and logs (`FsLayout`, `FsBlocks`,
  `FsFiles`, `FsSpace`, `FileSystem`, `FsTight`).
- **Virtual memory** — kernel/vm.c, kalloc.c and the page-table functions of proc.c. The
  three-level tree stands for a finite map from virtual to physical pages, every physical page
  is accounted for on every path and every failure comes exactly when memory is short
  (`PageTable`, `PageOps`, `PageWalk`, `PageCount`, `AddressSpace`, `TableFree`, `VirtualMemory`),
  and user memory is one flat array of bytes (`UserCopy`).
- **Protocols** — pipes with sleep and wakeup (`PipeBuffer`, `PipeRuns`, and in terms of the calls
  made `PipeCalls`), exit and wait (`ExitWait`, `ExitCalls`, `InitSleeps`), the virtio ring, its
  sleepers and the blocks it transfers (`VirtioRing`, `VirtioSleep`, `VirtioTransfer`), each over
  every interleaving of its steps.
- **User programs** — the K&R heap of umalloc.c (`Arena`, `Malloc`), grep's matcher and loop
  (`Regex`, `Grep`), the shell's parser (`ShellGrammar`, `Shell`, `ShellRoundTrip`,
  `ShellLine`, `ShellAccepts`).

`Machine`, `Param`, `Blocks` and `Counting` hold the words, sizes, blocks and pigeonhole facts the
others share.

Code that changes things in place is written as classes and loops. Where a class has a ghost field
`st`, it is a value that every method keeps equal to its fields, and methods are the steps of the
protocol on that value; the properties are proved of those values and of whole runs of steps on
them. `dafny verify dfyconfig.toml` checks everything.

What the code does that its comments or callers might not lead one to expect:

- NBUF equals LOGSIZE, so a transaction of LOGSIZE blocks pins every buffer. With no reader in the
  cache commit then panics in bget before its first write, and exactly then (`Log.Commit`), and
  `LogOps.FullLogReachable` shows that the scheduler admits such a transaction. Readers call no
  begin_op and take buffers during a commit, so a smaller transaction can meet the same panic, at
  any write: `JournalRuns.CommitPanics` gives the exact condition for each bread and
  `JournalStuck.ReaderStopsCommitMidway` a run in which one reader stops a commit of 29 blocks after
  its first write. The writes done are a prefix of the commit's all the same.
- A log of NBUF blocks cannot be recovered: recovery panics with all but the last block installed
  (`Log.Recover`).
- Recovery unpins blocks that were never pinned. `Log.RecoveredCounts` gives the exact condition:
  the counts are right if and only if the log was empty. If it was not, a block logged later can
  lose its only copy to bget before the commit (`Log.LoggedBlockLooksFree`). The results over runs
  of the cache and the log (`JournalRuns`) are for machines that booted with an empty log, and
  `LogDisk.CrashAtomicity`, which is about the writes to the disk alone, describes the code for
  such boots only.
- log_write tests for a full log before it looks for the block, so an absorbed write can meet that
  panic; `LogOps.FullLogPanics` gives a run that leads there.
- The size of filewrite's chunks is exact: `FsSpace.ChunkBound` bounds a chunk by MAXOPBLOCKS blocks
  and `FsTight.WriteTen` reaches the bound.
- An exit can leave init asleep in wait with a zombie child and nothing left to run
  (`InitSleeps.InitMayMiss`); the comment in exit calls the missed wakeup harmless. This happens to
  children that woke another parent and were given to init afterwards, and to no others
  (`ExitWait.InitMissesAdopted`, `ExitWait.NoLostExit`).
- growproc by a negative amount larger than the size changes nothing and reports success
  (`VirtualMemory.Memory.Growproc`).
- filewrite returns -1 with the earlier chunks already in the file when the file would grow too
  long (`FileSystem.FileSys.FileWrite`).
- grep stops for good at the first line longer than its buffer and never prints a last line
  without newline (`Grep.Printed`, `Grep.Grep`, `Grep.AllLinesPrinted`).

What is taken as given: block writes are atomic; buffers are used for the root device, whose number
is not 0; a block's buffer is changed by its holder only and only inside an operation, the holder
calls log_write on it before letting go of it and lets go before end_op, no operation logs more
than MAXOPBLOCKS blocks, and file system code uses no block of the log area; NPROC processes are
never all waiting for one buffer; copies between user and kernel memory inside readi, writei, pipes
and wait succeed; a file end is closed only when no process is inside a call on it, as file reference
counts ensure; sbrk returns memory above all it returned before and within 32-bit reach of a
header's size field, and malloc is asked for no more than an int of bytes; grep's and the
shell's inputs have no NUL in them and read does not fail; the disk device follows the chain it is given, carries
out a request as one step and fails only for blocks it does not have; a block has one buffer, and no
request is for a block from 2^31 on; spin
locks and sleep locks work. Disk contents, read sizes, schedules, the device's order of completion
and sbrk's answer are arbitrary.

## Model

| member | source | states |
|---|---|---|
| `LogDisk.HeadRoundTrip` | lab1/kernel/log.c:84-113 | reading back a header written by write_head gives the block numbers written, whatever the header block held before |
| `LogDisk.InstalledIn` | lab1/kernel/log.c:67-82 | install_trans puts into every listed home block the contents of its log block |
| `LogDisk.InstalledOut` | lab1/kernel/log.c:67-82 | install_trans changes no block that is not listed |
| `LogDisk.CrashInRecovery` | lab1/kernel/log.c:115-122 | a crash after any of recovery's writes, followed by another recovery, ends on the very disk an undisturbed recovery leaves; a finished one leaves an empty log |
| `LogDisk.CrashInCommit` | lab1/kernel/log.c:176-202 | a crash after any of commit's 2n + 2 writes recovers to all-old home blocks up to the header write and to all-new ones after it |
| `LogDisk.EventStep` | lab1/kernel/log.c:115-122 | one commit, crash or recovery changes what recovery would show by exactly the surviving group |
| `LogDisk.CrashAtomicity` | lab1/kernel/log.c:67-202 | in every run of commits, recoveries and crashes at any write of either, the recovered disk is the first disk with exactly the groups whose header was written, applied whole and in order |
| `BufferCache.CountKeeps` | lab1/kernel/bio.c:66-73 | counting a cached buffer keeps the invariant (one buffer per block, counts are holders plus pins, a buffer differing from disk is held or pinned) and the block map |
| `BufferCache.RecycleKeeps` | lab1/kernel/bio.c:75-87 | recycling a buffer with count zero keeps the invariant and loses no contents |
| `BufferCache.HoldKeeps` | lab1/kernel/bio.c:92-103 | the process that gets the sleep lock sees the block's latest contents |
| `BufferCache.ModifyKeeps` | lab1/kernel/log.c:204-212 | a holder's change of its buffer changes that block of the map and no other |
| `BufferCache.WriteKeeps` | lab1/kernel/bio.c:105-112 | bwrite keeps the invariant and the block map |
| `BufferCache.ReleaseKeeps` | lab1/kernel/bio.c:114-137 | a holder that lets go of a pinned buffer, or of one that equals the disk, keeps the invariant and the block map; `Journal.Allowed` proves that every holder does so |
| `BufferCache.PinKeeps` | lab1/kernel/bio.c:139-144 | bpin keeps the invariant and the block map |
| `BufferCache.UnpinKeeps` | lab1/kernel/bio.c:146-151 | bunpin of a held buffer keeps the invariant and the block map, down to one bunpin too many |
| `BufferCache.Relink` | lab1/kernel/bio.c:126-134 | the six pointer writes of brelse take the buffer out of the doubly linked ring and put it in front, leaving one ring through all buffers |
| `BufferCache.Cache.constructor` | lab1/kernel/bio.c:36-53 | binit builds one ring through all buffers, the last one in front; nothing is cached, counted or locked |
| `BufferCache.Cache.FindCached` | lab1/kernel/bio.c:65-73 | the forward scan finds the one buffer of the block, if there is one |
| `BufferCache.Cache.FindUnused` | lab1/kernel/bio.c:75-87 | the backward scan finds the least recently used buffer with count zero, if there is one |
| `BufferCache.Cache.Bget` | lab1/kernel/bio.c:58-89 | a cached block is counted, otherwise the least recently used uncounted buffer is recycled; the panic happens exactly when the block is not cached and every buffer is counted |
| `BufferCache.Cache.Acquire` | lab1/kernel/bio.c:92-103 | after acquiresleep and the disk read the buffer holds the block's latest contents |
| `BufferCache.Cache.Bread` | lab1/kernel/bio.c:92-103 | where nobody else has it locked, bread returns a locked buffer with the latest contents, or panics exactly as bget does |
| `BufferCache.Cache.SetData` | lab1/kernel/bio.c:91-103 | the write to the data of a buffer, on the whole state |
| `BufferCache.Cache.Bwrite` | lab1/kernel/bio.c:105-112 | one disk block is written from the buffer; the panic happens exactly when it is not locked |
| `BufferCache.Cache.MoveToFront` | lab1/kernel/bio.c:126-134 | the pointer writes in place move the buffer to the front of the ring |
| `BufferCache.Cache.Brelse` | lab1/kernel/bio.c:114-137 | unlock, uncount, and at count zero move to the front; the panic happens exactly when the buffer is not locked; `CacheLru.MissRecyclesOldest` says what the move is for |
| `BufferCache.Cache.Bpin` | lab1/kernel/bio.c:139-144 | one more pin on the buffer |
| `BufferCache.Cache.Bunpin` | lab1/kernel/bio.c:146-151 | one pin less on the buffer, in 32-bit arithmetic |
| `CacheRuns.Step` | lab1/kernel/bio.c:58-151 | every step of any process keeps the invariant and does to the block map what a plain map would do, and a reader sees that map, if buffers let go of are pinned or as on the disk and no bunpin comes without its bpin, which `Journal.Allowed` proves |
| `CacheRuns.Effects` | lab1/kernel/bio.c:58-151 | each step changes the pins, the lock and the waiters of its own block only, also when it evicts another |
| `CacheRuns.CleanWhenUncounted` | lab1/kernel/bio.c:75-87 | a buffer that may be evicted equals the disk |
| `CacheLru.RingSorted` | lab1/kernel/bio.c:114-137 | in every run of the cache the ring has the buffers in the order of the last brelse that left each uncounted, those never let go of last |
| `CacheLru.MissRecyclesOldest` | lab1/kernel/bio.c:75-87 | in every run a miss recycles, of the uncounted buffers, one never let go of, the lowest numbered of those, or, if all have been, the one whose last brelse to count zero is the oldest; stated over the steps of the run |
| `CacheLru.JustReleasedStays` | lab1/kernel/bio.c:126-134 | in every run the buffer let go of in the step before a miss is not the one recycled while another is uncounted |
| `Journal.Allowed` | lab1/kernel/log.c:204-234 | log_write's callers and the committer use the cache as it needs: bpin and bunpin are matched, and a buffer let go of is in the header or as on the disk |
| `Journal.MoveKeeps` | lab1/kernel/log.c:67-202 | each cache step of write_log, write_head and install_trans, with readers and other holders in the cache, keeps the invariant and every home block of the block map |
| `Journal.LogWriteKeeps` | lab1/kernel/log.c:204-234 | log_write pins the block exactly when it is new to the header, and keeps the invariant |
| `Journal.StartApply` | lab1/kernel/log.c:192-202 | when a commit starts, the disk with the listed blocks' latest contents is the block map: nothing else differs |
| `Journal.Keeps` | lab1/kernel/log.c:67-234 | every step of operations, readers and committer keeps the invariant; only an operation's own change moves a home block |
| `JournalRuns.RunsRefineMap` | lab1/kernel/bio.c:58-151 | in every run of operations, readers and commits the cache stands for the map that the operations' changes alone produce, and each bread, also during a commit, returns that map's contents, whatever was evicted |
| `JournalRuns.PinsFollowHeader` | lab1/kernel/log.c:213-234 | in every run a block is pinned, once, exactly when the header lists it, until install_trans unpins it; a home block that is neither pinned nor being changed equals the disk |
| `JournalRuns.CommitBegan` | lab1/kernel/log.c:145-174 | the commit under way writes the header and the contents there were when it began, with no operation open |
| `JournalRuns.CommitPrefix` | lab1/kernel/log.c:176-202 | in every run, at every point of a commit and whoever reads meanwhile, the writes done are the first of the crash model's 2n + 2 and the disk is what they leave |
| `JournalRuns.CrashAnywhere` | lab1/kernel/log.c:67-202 | crash at any step of any run: recovery shows the block map as it was when the last header was written, every change up to then and none since, with no operation open at that point |
| `JournalRuns.CommitPanics` | lab1/kernel/bio.c:75-88 | in every run a bread inside a commit panics exactly when its block is not cached and the blocks pinned, held or awaited by anyone number NBUF; for a home block it never does |
| `JournalRuns.ReaderStopsCommit` | lab1/kernel/file.c:120-124 | a commit of NBUF - 1 blocks panics, with writes already done or not, when one reader holds another block and the log block is not cached |
| `JournalStuck.ReaderStopsCommitMidway` | lab1/kernel/file.c:120-124 | a run in which three operations log 29 blocks, the commit writes its first log block, a reader takes the last buffer and the commit's next bread panics: with readers the panic is neither before the first write nor at NBUF blocks only |
| `JournalRuns.CommitterMoves` | lab1/kernel/log.c:67-202 | in every run the committer's next step can be taken unless another process holds the buffer it waits for or bget panics |
| `JournalRuns.ReadyAtStart` | lab1/kernel/log.c:192-202 | in every run, a commit that starts with no reader in the cache starts in the state `Log.Commit` asks for |
| `Log.FreeIffRoom` | lab1/kernel/bio.c:75-88 | there is a buffer to recycle exactly while pinned and held blocks are fewer than NBUF |
| `Log.Read` | lab1/kernel/bio.c:92-103 | bread of a process alone in the cache: it panics exactly when the block is not cached and pinned and held blocks use up every buffer |
| `Log.WriteLog` | lab1/kernel/log.c:176-190 | alone in the cache, write_log performs the first n writes of the commit; it panics exactly when the transaction has NBUF blocks, before any write |
| `Log.WriteHead` | lab1/kernel/log.c:98-113 | alone in the cache, write_head writes the header block with the given entries and nothing else |
| `Log.FillHead` | lab1/kernel/log.c:104-110 | the header buffer is filled entry by entry |
| `Log.InstallTrans` | lab1/kernel/log.c:67-82 | alone in the cache, install_trans writes the home blocks one by one from the log and unpins each; what it does to the disk it does to the block map; in a recovery it panics exactly at NBUF blocks, with all but the last written |
| `Log.ReadHead` | lab1/kernel/log.c:84-96 | read_head returns the entries of the header block |
| `Log.Commit` | lab1/kernel/log.c:192-202 | alone in the cache, commit performs exactly the writes of the crash model, in order, and leaves nothing pinned and the home blocks as the cache showed them; it panics in bget exactly when the transaction has NBUF blocks, before its first write |
| `Log.Recover` | lab1/kernel/log.c:115-122 | recovery performs exactly the writes of the crash model and leaves every block it installed unpinned once too often; it panics exactly on a log of NBUF blocks, after installing all but the last |
| `Log.RecoveredCounts` | lab1/kernel/log.c:78 | after recovery the reference counts are those of an unused cache exactly when the log was empty; otherwise they are 2^32 - 1 on the installed blocks |
| `Log.RecoveredBlockLooksFree` | lab1/kernel/bio.c:78 | the next bread of such a block holds a buffer whose count is zero, which bget takes for free |
| `Log.LoggedBlockLooksFree` | lab1/kernel/log.c:213-234 | whatever is then written to such a block and logged, after bpin and brelse the count is zero again, so bget may recycle the only copy |
| `LogOps.SpaceBegin` | lab1/kernel/log.c:124-141 | what begin_op's test admits fits in the log even if every open operation logs its full share |
| `LogOps.SpaceWrite` | lab1/kernel/log.c:213-234 | a block new to the log uses one slot its operation had reserved |
| `LogOps.RunKeeps` | lab1/kernel/log.c:124-234 | every interleaving of begin_op, log_write, end_op and commit steps of any number of processes keeps the space, exclusion and grouping invariants |
| `LogOps.CommitIsAlone` | lab1/kernel/log.c:145-174 | in every run the log never outgrows LOGSIZE and lists no block twice, no operation is open during a commit, and the panics of end_op and of log_write outside an operation are unreachable |
| `LogOps.GroupsAreWhole` | lab1/kernel/log.c:145-202 | in every run a committed group is exactly the blocks logged by operations that have all ended and logged nothing in any other group |
| `LogOps.BeginEnters` | lab1/kernel/log.c:128-137 | in every run begin_op lets a process in exactly when nobody commits and the header's blocks and ten for every open operation and the new one fit 30 |
| `LogOps.HeaderIsWrites` | lab1/kernel/log.c:204-234 | in every run the header lists exactly the blocks of the log_write calls made since the last commit; stated over the calls |
| `LogOps.OperationIsWhole` | lab1/kernel/log.c:124-163 | in every run no commit ends between a process's begin_op and its end_op, so what it logs is in one group |
| `LogOps.LastEndCommits` | lab1/kernel/log.c:145-163 | in every run an end_op starts a commit exactly if no other operation is open |
| `LogOps.FullLogReachable` | lab1/kernel/log.c:213-234 | some run fills the log to LOGSIZE blocks, which is the transaction commit panics on |
| `LogOps.FullLogPanics` | lab1/kernel/log.c:209-210 | some run fills the log and leaves an operation that may log a block it has logged already, which meets the test for a full log and panics |
| `LogOps.LogState.constructor` | lab1/kernel/log.c:54-65 | an empty log with no operation open |
| `LogOps.LogState.BeginOp` | lab1/kernel/log.c:124-141 | one pass of begin_op's loop enters exactly when no commit runs and the blocks logged and ten for each open operation and the new one are at most 30; entering is the protocol's Begin step, and nothing changes otherwise |
| `LogOps.LogState.EndOp` | lab1/kernel/log.c:143-163 | end_op panics exactly when a commit is running, and is the protocol's End step otherwise; it starts a commit exactly if one operation was open |
| `LogOps.LogState.LogWrite` | lab1/kernel/log.c:204-234 | log_write is the protocol's Write step and pins the block exactly when new; it panics exactly on a full log, tested before absorption, or outside an operation |
| `LogOps.LogState.Erase` | lab1/kernel/log.c:199 | clearing the header in memory is the protocol's Erase step |
| `LogOps.LogState.Reopen` | lab1/kernel/log.c:169-172 | the end of end_op is the protocol's Reopen step |
| `LogSleep.StepStable` | lab1/kernel/log.c:124-174 | every step of begin_op, log_write, end_op and commit, with sleep and wakeup, keeps sleepers those that would fail the test again |
| `LogSleep.NoneStranded` | lab1/kernel/log.c:124-174 | in every run, while a process sleeps in begin_op its test would fail and an operation is open or a commit runs, so the end_op that wakes it is still to come |
| `LogSleep.SleepsUntilWoken` | lab1/kernel/log.c:128-172 | in every run whom begin_op does not let in sleeps, until an end_op that leaves operations open or the end of a commit, and each of these wakes it |
| `FsBlocks.AllocKeeps` | lab1/kernel/fs.c:377-405 | allocating a free block into an empty slot keeps every block owned by exactly one slot and marked exactly if owned or metadata |
| `FsBlocks.AllocAddr` | lab1/kernel/fs.c:377-405 | after an allocation that one slot holds the block and every other slot of every inode is as before |
| `FsBlocks.AllocBytes` | lab1/kernel/fs.c:377-405 | allocation changes no byte of any file |
| `FsBlocks.OverwriteByte` | lab1/kernel/fs.c:493-502 | writing one file block changes the bytes of that block of that file and no others |
| `FsBlocks.FreedIs` | lab1/kernel/fs.c:409-437 | after j slots itrunc has cleared the marks of exactly the blocks it visited |
| `FsBlocks.TruncatedKeeps` | lab1/kernel/fs.c:409-437 | itrunc frees exactly the inode's own blocks and the ownership invariant holds again |
| `FsBlocks.TruncatedByte` | lab1/kernel/fs.c:409-437 | truncating one file changes no byte of another |
| `FsFiles.ProgressEnd` | lab1/kernel/fs.c:482-514 | a finished write leaves no holes, the file spliced and every other file as it was |
| `FsFiles.SpliceTwice` | lab1/kernel/file.c:157-174 | writing on where a write ended is one longer write |
| `FsFiles.TruncatedGood` | lab1/kernel/fs.c:409-437 | truncation empties its file, leaves the others, and keeps all files free of holes |
| `FileSystem.FileSys.Balloc` | lab1/kernel/fs.c:61-86 | balloc finds the lowest unmarked block, marks and zeroes it; it fails exactly when every block is marked |
| `FileSystem.FileSys.FirstClear` | lab1/kernel/fs.c:70-81 | the inner loop finds the first unmarked block of one bitmap block |
| `FileSystem.FileSys.Bfree` | lab1/kernel/fs.c:88-103 | bfree clears one mark and panics exactly when the block is free already |
| `FileSystem.FileSys.AllocDirect` | lab1/kernel/fs.c:383-393 | a fresh block in a direct slot or as indirect block; it fails exactly when no block is free |
| `FileSystem.FileSys.AllocEntry` | lab1/kernel/fs.c:394-399 | a fresh block in an entry of the indirect block; it fails exactly when no block is free |
| `FileSystem.FileSys.Bmap` | lab1/kernel/fs.c:371-405 | the block of a file position, allocated if missing; it panics exactly when the position is too large or the blocks it needs, one or two, are more than there are free; no byte of any file changes, nothing else is allocated, and exactly the new blocks, their bitmap blocks and the indirect block are logged |
| `FileSystem.FileSys.TruncDirect` | lab1/kernel/fs.c:416-421 | the direct blocks are freed and their slots cleared, with no panic |
| `FileSystem.FileSys.TruncIndirect` | lab1/kernel/fs.c:423-433 | the indirect entries and then the indirect block are freed, with no panic |
| `FileSystem.FileSys.Itrunc` | lab1/kernel/fs.c:407-437 | the file is empty, its blocks are free, every other file is as it was, and bfree's panic is not reached; it logs the bitmap blocks of exactly the blocks it held and block inodestart + n / 16, and nothing else |
| `FileSystem.FileSys.Readi` | lab1/kernel/fs.c:451-476 | readi returns the slice of the file the offset and length ask for, for all 32-bit values of both, and allocates nothing |
| `FileSystem.FileSys.ReadChunk` | lab1/kernel/fs.c:466-474 | one turn of readi's loop returns the slice inside one block |
| `FileSystem.FileSys.WriteChunk` | lab1/kernel/fs.c:493-502 | one turn of writei's loop extends the bytes written so far by one chunk; it fails exactly when the blocks needed are more than there are free |
| `FileSystem.FileSys.WriteLoop` | lab1/kernel/fs.c:493-502 | writei's loop writes all of the bytes and logs exactly their footprint, or fails, exactly when the blocks needed are more than there are free |
| `FileSystem.FileSys.Writei` | lab1/kernel/fs.c:478-514 | writei is a splice into the file for every offset up to its end, other files are unchanged, there are no holes after, and exactly the footprint and the inode's block are logged; it returns -1 exactly when the offset is past the end or the file would be too long, and panics exactly when the blocks it needs are more than there are free |
| `FileSystem.FileSys.FileWrite` | lab1/kernel/file.c:148-175 | the chunking loop writes one splice in transactions of at most MAXOPBLOCKS distinct blocks each; it returns the length exactly when the offset is not past the end and the whole fits in the largest file, and otherwise -1 with the earlier chunks written; it panics only with every block in use |
| `FsSpace.RoomFree` | lab1/kernel/fs.c:61-86 | balloc finds a block exactly while owned blocks are fewer than data blocks |
| `FsSpace.MappedTwo` | lab1/kernel/fs.c:383-399 | mapping a block whose indirect block is missing allocates two blocks and logs those, their bitmap blocks and the indirect block |
| `FsSpace.TakenRoom` | lab1/kernel/fs.c:493-502 | running out part way means that the whole range needed more blocks than were free |
| `FsSpace.FootprintStep` | lab1/kernel/fs.c:493-502 | each turn adds to the footprint exactly what mapping and writing one block logs |
| `FsSpace.FootprintSize` | lab1/kernel/file.c:149-155 | a write logs at most its data blocks, a bitmap block per block allocated, the indirect block and the inode's block |
| `FsSpace.ChunkBound` | lab1/kernel/file.c:149-160 | a chunk of three blocks at any offset up to the file's end logs at most MAXOPBLOCKS distinct blocks |
| `FsTight.TenLogged` | lab1/kernel/file.c:149-160 | where the four free blocks have their bits in four bitmap blocks and a file ends inside its last direct block, the footprint of a chunk and the inode's block are exactly MAXOPBLOCKS blocks |
| `FsTight.WriteTen` | lab1/kernel/file.c:149-160 | there writei of such a chunk succeeds and logs exactly MAXOPBLOCKS blocks: the bound cannot be lowered |
| `FsTight.TightState` | lab1/kernel/file.c:149-160 | such a file system exists, free of holes and with every block owned as it should be |
| `PageTable.PxIsBits` | lab1/kernel/riscv.h:342-345 | the index taken at each level is the address divided by the power of two of PXSHIFT, modulo 512: PX(level, va) |
| `PageTable.IndicesRebuild` | lab1/kernel/riscv.h:342-351 | below MAXVA the three indices determine the page number, so no two pages share a path |
| `PageWalk.EntriesDistinct` | lab1/kernel/vm.c:71-89 | in every tree state, walks for distinct pages, of one space or of two, end at distinct entries in memory: different table pages or different indices |
| `PageWalk.DownFacts` | lab1/kernel/vm.c:77-87 | on the way to a page the entry at PX is valid exactly if the next table exists, and then points to it |
| `PageOps.TakeKeeps` | lab1/kernel/kalloc.c:65-82 | kalloc keeps the tree, the finite map and the page accounting |
| `PageOps.GiveKeeps` | lab1/kernel/kalloc.c:42-63 | kfree keeps the tree, the finite map and the page accounting |
| `PageOps.SetLeafKeeps` | lab1/kernel/vm.c:161 | writing a leaf entry updates the finite map at one page and nothing else |
| `PageOps.AddTableKeeps` | lab1/kernel/vm.c:82-86 | allocating an intermediate table never changes the finite map |
| `PageWalk.PteParts` | lab1/kernel/riscv.h:329-341 | an entry gives back the page number and the flags it was made of |
| `AddressSpace.FramesCount` | lab1/kernel/vm.c:228-252 | the user pages of a space are distinct physical pages |
| `AddressSpace.SizeBound` | lab1/kernel/vm.c:228-252 | every reachable size is at most physical memory |
| `AddressSpace.GrownUndone` | lab1/kernel/vm.c:239-249 | unmapping what was grown restores every mapping and every page in use |
| `AddressSpace.SpaceSmall` | lab1/kernel/proc.c:238-254 | with at most 128 MB of pages no process is larger than 128 MB |
| `TableFree.UnderChild` | lab1/kernel/vm.c:272-290 | what is below a table is below one of its entries |
| `TableFree.DropKeeps` | lab1/kernel/vm.c:283-289 | freeing a table with no valid entry keeps the tree, the accounting and every mapping |
| `TableFree.WholeTree` | lab1/kernel/vm.c:272-290 | after freeing from the root down every table of the space is free and no other |
| `TableFree.MadeAndFreed` | lab1/kernel/proc.c:155-186 | freeing a space made meanwhile leaves every table, page and free page as before |
| `PageCount.FreeCount` | lab1/kernel/kalloc.c:42-82 | free pages, tables and pages in use add up to all pages |
| `PageCount.WalkFound` | lab1/kernel/vm.c:71-89 | a walk that reaches the leaf table has added exactly the tables that were missing on the way |
| `PageCount.WalkStuck` | lab1/kernel/vm.c:80-83 | a walk that runs out of memory needed more tables than there were free pages |
| `PageCount.Starved` | lab1/kernel/vm.c:239-249 | running out part way means that the whole range, with its tables, needed more pages than were free |
| `PageCount.FedAll` | lab1/kernel/vm.c:239-249 | getting to the end means that they were enough |
| `PageCount.SpecialTables` | lab1/kernel/proc.c:166-186 | a new space needs two tables for the trampoline and none more for the trapframe |
| `VirtualMemory.Memory.constructor` | lab1/kernel/kalloc.c:26-40 | every whole page of the range is free, each once |
| `VirtualMemory.Memory.Walk` | lab1/kernel/vm.c:59-89 | walk panics exactly beyond MAXVA, never changes the finite map, returns the page's leaf entry, and fails only when a table is missing, when allocating exactly if more tables are missing than pages are free |
| `VirtualMemory.Memory.NewTable` | lab1/kernel/vm.c:82-86 | a zeroed table is entered in its parent; the finite map stays |
| `VirtualMemory.Memory.Kalloc` | lab1/kernel/kalloc.c:65-82 | the head of the free list, filled with 5s, or none |
| `VirtualMemory.Memory.Kfree` | lab1/kernel/kalloc.c:42-63 | the page is the new head of the free list |
| `VirtualMemory.Memory.MapPage` | lab1/kernel/vm.c:157-161 | one page is mapped; the remap panic happens exactly on a valid entry, and failure exactly when more tables are missing than pages are free |
| `VirtualMemory.Memory.Mappages` | lab1/kernel/vm.c:144-168 | the pages of any byte range, aligned or not, are mapped to consecutive physical pages; out of memory leaves a prefix mapped, a panic means the next page is mapped or beyond MAXVA |
| `VirtualMemory.Memory.UnmapPage` | lab1/kernel/vm.c:183-193 | one mapping goes; the panics happen exactly when there is no leaf entry |
| `VirtualMemory.Memory.UvmunmapKeep` | lab1/kernel/vm.c:170-195 | a range is unmapped without freeing; it panics exactly when one of the pages has no leaf entry |
| `VirtualMemory.Memory.UvmunmapFree` | lab1/kernel/vm.c:170-195 | the user pages of a range are unmapped and their physical pages freed, each once; it panics exactly when one is not mapped, with those before it gone |
| `VirtualMemory.Memory.AddPage` | lab1/kernel/vm.c:239-249 | a filled page is mapped, or the failed attempt leaves every mapping and page in use as before; it fails exactly when the page and the tables missing for it are more than there are free pages, and mappages' panics are not reached |
| `VirtualMemory.Memory.Uvmalloc` | lab1/kernel/vm.c:226-252 | growing adds zeroed pages for exactly the new size, each with the bits V, R, W, X and U set and no other, or fails with every mapping and page in use restored; it fails exactly when the pages asked for and the tables missing for them are more than there are free pages; whatever size is asked, no panic is reached |
| `VirtualMemory.Memory.Uvmdealloc` | lab1/kernel/vm.c:254-270 | shrinking removes and frees exactly the pages above the new size |
| `VirtualMemory.Memory.Growproc` | lab1/kernel/proc.c:236-254 | the 32-bit size arithmetic is exact; grown pages have the bits V, R, W, X and U set; growing fails exactly when pages and tables needed are more than there are free, and failure changes nothing; shrinking below zero changes nothing |
| `VirtualMemory.Memory.Uvmcopy` | lab1/kernel/vm.c:302-336 | the child gets its own pages with the parent's bytes and flags, or every mapping and page in use is back; it fails exactly when the copy and its tables are more than there are free pages |
| `VirtualMemory.Memory.Freewalk` | lab1/kernel/vm.c:272-290 | with no leaf mapping left, the table and every table below it are freed, each once, with no panic |
| `VirtualMemory.Memory.Uvmfree` | lab1/kernel/vm.c:292-300 | the user pages and all tables of the space are free and every other space is as it was |
| `VirtualMemory.Memory.Uvmcreate` | lab1/kernel/vm.c:197-208 | an empty tree, or none when out of memory |
| `VirtualMemory.Memory.ProcPagetable` | lab1/kernel/proc.c:155-186 | a space with the trampoline and the trapframe only, neither accessible to the user; it fails exactly with fewer than three free pages, and then every page is back where it was; the second mappages never fails |
| `VirtualMemory.Memory.ProcFreepagetable` | lab1/kernel/proc.c:188-196 | every page and table of the space is returned, each once, and every other space is as it was |
| `VirtualMemory.Memory.Walkaddr` | lab1/kernel/vm.c:91-112 | the physical page of a user-accessible page, and of no other |
| `VirtualMemory.Memory.Copyout` | lab1/kernel/vm.c:351-374 | copyout succeeds exactly when every destination byte is accessible and then stores into one flat memory, no other byte of any space changing; otherwise it stores up to the first inaccessible page |
| `VirtualMemory.Memory.Copyin` | lab1/kernel/vm.c:376-399 | copyin succeeds exactly when every source byte is accessible and returns the bytes of the flat memory |
| `VirtualMemory.Memory.Copyinstr` | lab1/kernel/vm.c:401-442 | copyinstr succeeds exactly when a NUL lies within max bytes of accessible memory, and returns the string up to it |
| `VirtualMemory.Memory.GrowAndUse` | lab1/kernel/vm.c:226-252 | growproc succeeds exactly when there are pages enough, and then a copyout of any bytes into the new pages succeeds and copyin reads them back |
| `AddressSpace.RwxEntry` | lab1/kernel/vm.c:245 | the entry of a grown page has bits 0 to 4 set and bits 5 to 9 clear |
| `UserCopy.UsableBytes` | lab1/kernel/vm.c:91-112 | every byte of pages with those five bits can be copied to and from |
| `UserCopy.SpecialsHidden` | lab1/kernel/proc.c:166-186 | a space with only the trampoline and the trapframe has nothing the user can reach |
| `UserCopy.SpaceSound` | lab1/kernel/vm.c:91-112 | in a space whose special pages are not for the user, every user-accessible entry is a user page of that space |
| `UserCopy.ChunkWrote` | lab1/kernel/vm.c:367 | a memmove into the page of an address is a store into the flat memory |
| `UserCopy.CopyRoundTrip` | lab1/kernel/vm.c:351-399 | what copyout stored copyin returns |
| `UserCopy.CopyIsolated` | lab1/kernel/vm.c:351-374 | a store into one space is invisible in every other |
| `UserCopy.ForkCopies` | lab1/kernel/vm.c:302-336 | after uvmcopy the child may use the same addresses and finds the same bytes |
| `Arena.LinkKeeps` | lab1/user/umalloc.c:36-43 | linking a block that touches no free block keeps the free list in address order with no two blocks touching |
| `Arena.UnlinkKeeps` | lab1/user/umalloc.c:76-77 | taking a whole free block out keeps the list; exactly its units stop being free |
| `Arena.MergeLeftKeeps` | lab1/user/umalloc.c:38-40 | a block joined to the free block before it keeps the list; exactly its units become free |
| `Arena.MergeRightKeeps` | lab1/user/umalloc.c:33-35 | a free block joined to the one before it keeps the list and the free units |
| `Arena.SplitKeeps` | lab1/user/umalloc.c:78-82 | cutting the tail off a free block keeps the list; exactly the tail's units stop being free |
| `Arena.RegionKeeps` | lab1/user/umalloc.c:54-58 | memory from sbrk adds exactly its units |
| `Arena.FreeListCanonical` | lab1/user/umalloc.c:24-44 | the free units alone determine the free list: blocks, order and sizes |
| `Arena.FreeUndoesMalloc` | lab1/user/umalloc.c:24-90 | freeing what malloc returned gives back the very heap there was before |
| `Arena.HistoryDoesNotMatter` | lab1/user/umalloc.c:24-90 | two heaps with the same memory obtained and the same blocks allocated are equal, whatever calls led there |
| `Arena.RunInOneBlock` | lab1/user/umalloc.c:33-42 | a run of free units lies in one free block |
| `Malloc.StopsAtSlot` | lab1/user/umalloc.c:30-32 | free's search stops at the block after which the freed one belongs, and nowhere else |
| `Malloc.CloseWith` | lab1/user/umalloc.c:37-42 | the pointer writes that link a block leave one cycle through the list |
| `Malloc.CloseSkip` | lab1/user/umalloc.c:77 | the pointer write that takes a block out leaves one cycle through the list |
| `Malloc.Heap.constructor` | lab1/user/umalloc.c:21-22 | no list and no memory before the first malloc |
| `Malloc.Heap.Search` | lab1/user/umalloc.c:30-32 | the loop ends, at the free block the freed one goes after |
| `Malloc.Heap.Free` | lab1/user/umalloc.c:24-44 | the units of the block are free, touching free blocks are joined, no other allocated block changes, and no unit is lost; freep is the last free block below; 32-bit sizes do not wrap |
| `Malloc.Heap.Morecore` | lab1/user/umalloc.c:46-61 | at least 4096 units are asked for; all of the new memory is free, or nothing changes |
| `Malloc.Heap.Take` | lab1/user/umalloc.c:75-85 | the last units of the block are handed out, were free, and are no more; freep is the block before |
| `Malloc.Heap.Malloc` | lab1/user/umalloc.c:63-90 | malloc ends; it takes the tail of the first block that fits after freep in ring order; it calls morecore once exactly when no free block is large enough and never otherwise; it returns 0 exactly when that call fails; the block has room for the bytes asked and was free; the units of the heap are those before plus exactly what sbrk gave |
| `PipeBuffer.TestsExact` | lab1/kernel/pipe.c:85 | the tests for full and empty are exact although the counters wrap at 2^32 |
| `PipeBuffer.PutTracks` | lab1/kernel/pipe.c:95 | a byte put into a ring that is not full joins the end of the accepted bytes and overwrites none that is unread |
| `PipeBuffer.GetTracks` | lab1/kernel/pipe.c:118-120 | a byte taken is the next one accepted |
| `PipeBuffer.Buffer.constructor` | lab1/kernel/pipe.c:33-36 | an empty ring |
| `PipeBuffer.Buffer.Fill` | lab1/kernel/pipe.c:84-96 | the loop of pipewrite accepts bytes in order until done or full |
| `PipeBuffer.Buffer.Drain` | lab1/kernel/pipe.c:117-123 | the loop of piperead delivers accepted bytes in order until n or empty |
| `PipeRuns.StepKeeps` | lab1/kernel/pipe.c:58-127 | every step of every process, with wakeup looking at one process at a time and sleep releasing the pipe lock before the process is asleep, keeps the invariant |
| `PipeRuns.WakeKeeps` | lab1/kernel/proc.c:588-600 | while wakeup scans, a sleeper it has passed has nothing to wait for that already happened |
| `PipeRuns.FallKeeps` | lab1/kernel/proc.c:554-584 | between releasing the pipe lock and being asleep no wakeup is lost, because the process holds its own lock |
| `PipeRuns.RunKeeps` | lab1/kernel/pipe.c:58-127 | the invariant holds after every interleaving |
| `PipeRuns.PipeIsFifo` | lab1/kernel/pipe.c:76-127 | in every run the bytes delivered followed by the bytes in the ring are the bytes accepted; `PipeCalls` ties these to the calls |
| `PipeRuns.NoLostWakeup` | lab1/kernel/pipe.c:76-127 | in every run, whenever the pipe lock is free, a sleeping reader has an empty pipe with the write end open and a sleeping writer a full one with the read end open |
| `PipeRuns.NeverBothAsleep` | lab1/kernel/pipe.c:76-127 | readers and writers are never asleep together |
| `PipeRuns.FreedIsQuiet` | lab1/kernel/pipe.c:58-74 | once the pipe's page is freed no process is in a pipe call and none gets in |
| `PipeCalls.CallsGetTheirBytes` | lab1/kernel/pipe.c:76-127 | in every run the bytes accepted from one write call are, in order, a prefix of what its caller passed, and those delivered to one read call are at most as many as asked for and a segment of the bytes accepted |
| `PipeCalls.BytesHaveCalls` | lab1/kernel/pipe.c:84-123 | in every run every byte accepted belongs to a write call, made before, and every byte delivered to a read call |
| `PipeCalls.WriteReturns` | lab1/kernel/pipe.c:84-100 | in every run a write that returns has put in exactly what its caller passed, or the read end is closed and the pipe full |
| `PipeCalls.ReadReturns` | lab1/kernel/pipe.c:109-126 | in every run a read that returns got all it asked for or all there was, and nothing only if it asked for nothing or the write end is closed |
| `PipeCalls.OpenUntilClosed` | lab1/kernel/pipe.c:58-74 | in every run an end is open until some process closes it |
| `ExitWait.StepKeeps` | lab1/kernel/proc.c:256-447 | every step of fork, also one that runs out of memory, exit, reparent and wait of any process keeps the locking, family and pid invariants |
| `ExitWait.Exit5Keeps` | lab1/kernel/proc.c:305-327 | giving a child to init, with the parent read before its lock is taken, keeps the invariants |
| `ExitWait.Exit6Keeps` | lab1/kernel/proc.c:382-383 | waking the parent noted earlier keeps the invariants, whoever is in its entry now |
| `ExitWait.Exit7Keeps` | lab1/kernel/proc.c:385-388 | becoming a zombie keeps the invariants: the parent is awake, or is init |
| `ExitWait.ReapKeeps` | lab1/kernel/proc.c:418-432 | reaping a child keeps the invariants |
| `ExitWait.RunKeeps` | lab1/kernel/proc.c:256-447 | the invariants hold after every interleaving, and a pid once reaped stays so with the same status |
| `ExitWait.NoLostExit` | lab1/kernel/proc.c:329-447 | in every run a process other than init asleep in wait has no zombie child |
| `ExitWait.InitMissesAdopted` | lab1/kernel/proc.c:354-383 | in every run a zombie child that init sleeps through noted, and woke, another parent when it exited, and was given to init afterwards |
| `ExitWait.InitSleepsOn` | lab1/kernel/proc.c:364-383 | in every run a child of init whose exit finds init asleep leaves it so exactly when the parent it noted is not init |
| `ExitWait.ReapedOnce` | lab1/kernel/proc.c:418-432 | in every run wait hands its caller one of its own children with that child's pid and exit status, and no pid twice; `ExitCalls.WaitGivesExit` says which status that is |
| `ExitWait.NoExitForgotten` | lab1/kernel/proc.c:329-393 | in every run a pid that exited has been reaped or is a zombie in the table with its status |
| `ExitWait.WaitFailsChildless` | lab1/kernel/proc.c:438-442 | in every run wait by a process other than init returns -1 only without children |
| `ExitWait.OrphansAdopted` | lab1/kernel/proc.c:305-327 | in every run a process not yet reaped has a live parent, or is init |
| `ExitCalls.StatusIsArgument` | lab1/kernel/proc.c:334-393 | in every run the status recorded for a pid is the argument of the exit call made by the process that had that pid |
| `ExitCalls.ForkCall` | lab1/kernel/proc.c:256-327 | in every run a process's parent is the one that forked it, or init, and then that one has called exit |
| `ExitCalls.WaitGivesExit` | lab1/kernel/proc.c:395-432 | in every run what wait hands over is a child its caller forked, or init was given, and the status is the argument of that child's own exit call, whatever integer it is; no pid twice |
| `ExitCalls.SleeperHasChild` | lab1/kernel/proc.c:405-446 | in every run a process asleep in wait has a child |
| `InitSleeps.InitMayMiss` | lab1/kernel/proc.c:354-361 | a run of three processes after which init sleeps in wait, its child is a zombie and no process can take a step: the exception for init is needed |
| `VirtioRing.NotThree` | lab1/kernel/virtio_disk.c:154-166 | three requests in flight would need nine descriptors |
| `VirtioRing.TestsExact` | lab1/kernel/virtio_disk.c:256 | the index tests modulo NUM and modulo 2^16 tell exactly whether there is work |
| `VirtioRing.SubmitKeeps` | lab1/kernel/virtio_disk.c:168-238 | posting a request keeps the invariant and overwrites no entry the device has not read |
| `VirtioRing.CompleteKeeps` | lab1/kernel/virtio_disk.c:256-265 | the device's completion, in any order, overwrites no entry the driver has not read |
| `VirtioRing.IntrFinds` | lab1/kernel/virtio_disk.c:256-262 | the completion the handler finds is a request in flight with its own buffer |
| `VirtioRing.FreesChain` | lab1/kernel/virtio_disk.c:141-152 | free_chain frees exactly the request's three descriptors, all in use, and reaches no panic |
| `VirtioRing.StepKeeps` | lab1/kernel/virtio_disk.c:116-270 | every driver and device step keeps the invariant; `VirtioSleep` adds who sleeps |
| `VirtioRing.TwoInFlight` | lab1/kernel/virtio_disk.c:154-249 | in every run at most two requests are in flight, with disjoint chains of three descriptors |
| `VirtioRing.NeverAmbiguous` | lab1/kernel/virtio_disk.c:251-268 | in every run the index tests are exact although the counters wrap |
| `VirtioRing.CompletionIsOwn` | lab1/kernel/virtio_disk.c:256-265 | in every run handling a completion clears the flag of the completed request's buffer, which was set, and no other |
| `VirtioRing.FinishFreesOwn` | lab1/kernel/virtio_disk.c:240-246 | in every run a buffer's flag is set until its own request is handled, and finishing frees its three descriptors and no others |
| `VirtioRing.Driver.constructor` | lab1/kernel/virtio_disk.c:91-110 | zeroed rings, and every descriptor free |
| `VirtioRing.Driver.AllocDesc` | lab1/kernel/virtio_disk.c:115-126 | the lowest free descriptor is marked, or there is none |
| `VirtioRing.Driver.FreeDesc` | lab1/kernel/virtio_disk.c:128-139 | one descriptor is freed; the panics happen exactly out of range or on a free one |
| `VirtioRing.Driver.Alloc3Desc` | lab1/kernel/virtio_disk.c:154-166 | the three lowest free descriptors, or, exactly with fewer than three free, none taken |
| `VirtioRing.Driver.FreeChain` | lab1/kernel/virtio_disk.c:141-152 | each descriptor of the chain is freed |
| `VirtioRing.Driver.Submit` | lab1/kernel/virtio_disk.c:168-233 | virtio_disk_rw up to its wait posts the request as the protocol's Submit step, or, exactly with fewer than three descriptors free, does nothing |
| `VirtioRing.Driver.Intr` | lab1/kernel/virtio_disk.c:256-265 | a turn of the handler's loop is the protocol's Intr step, exactly when there is a completion |
| `VirtioRing.Driver.Finish` | lab1/kernel/virtio_disk.c:243-246 | the end of virtio_disk_rw is the protocol's Finish step and reaches no panic |
| `VirtioSleep.StepStable` | lab1/kernel/virtio_disk.c:168-270 | every step with its sleeps and wakeups keeps sleepers those that have something to wait for, and every request with the process that made it |
| `VirtioSleep.NoneStranded` | lab1/kernel/virtio_disk.c:168-270 | in every run, while a process sleeps for descriptors fewer than three are free and another's request is in flight, whose end wakes it; a process asleep for its buffer has a request not yet handled |
| `VirtioTransfer.SectorExact` | lab1/kernel/virtio_disk.c:171 | the 32-bit sector of a block is its first sector exactly for blocks below 2^31 |
| `VirtioTransfer.ServedIs` | lab1/kernel/virtio_disk.c:193-228 | a device that follows the chain it finds in memory writes the caller's data to the caller's block, or reads that block into its buffer, touches nothing else and reports an error exactly if the block is not on the disk |
| `VirtioTransfer.RunFine` | lab1/kernel/virtio_disk.c:168-270 | in every run each request in flight has its header, data and status descriptors as its call filled them in, for a block no other request is for, and is untouched or carried out in full |
| `VirtioTransfer.RwReturns` | lab1/kernel/virtio_disk.c:168-249 | in every run a call of virtio_disk_rw that returns has written to its block the data its buffer held at the call, or has read into its buffer what the block held at the call, whatever else was in flight |
| `VirtioTransfer.DiskChanges` | lab1/kernel/virtio_disk.c:193-228 | in every run the disk changes only in the block of a write request, to the data of its buffer at the call |
| `VirtioTransfer.StatusPanics` | lab1/kernel/virtio_disk.c:259-260 | in every run the handler finds a status other than 0, and panics, exactly for a block that is not on the disk |
| `VirtioTransfer.Controller.constructor` | lab1/kernel/virtio_disk.c:91-110 | a ring with nothing in flight |
| `VirtioTransfer.Controller.Rw` | lab1/kernel/virtio_disk.c:168-233 | virtio_disk_rw up to its wait fills in the three descriptors and posts them as the Rw step, or, exactly with fewer than three free, does nothing |
| `VirtioTransfer.Controller.Intr` | lab1/kernel/virtio_disk.c:256-265 | a turn of the handler's loop is the Intr step, or a panic on a status other than 0 |
| `VirtioTransfer.Controller.Finish` | lab1/kernel/virtio_disk.c:128-152 | the end of virtio_disk_rw frees the chain and forgets its addresses |
| `Regex.HereOne` | lab1/user/grep.c:91-92 | one character matches exactly if it fits and the rest matches after it |
| `Regex.HereStar` | lab1/user/grep.c:87-88 | a starred character matches exactly if the rest matches after some run of fitting characters |
| `Regex.MatchHere` | lab1/user/grep.c:82-94 | matchhere returns 1 exactly when a prefix of the text is in the pattern's language, the whole text under a final '$' |
| `Regex.MatchStar` | lab1/user/grep.c:96-104 | matchstar returns 1 exactly when the rest matches after some run of the character |
| `Regex.Match` | lab1/user/grep.c:70-80 | match ends and returns 1 exactly when some substring is in the pattern's language, a prefix under '^' and a suffix under a final '$' |
| `Grep.Strchr` | lab1/user/grep.c:21 | the first newline before the NUL |
| `Grep.OneLine` | lab1/user/grep.c:22-26 | a line is written with its newline exactly if it matches |
| `Grep.ScanLine` | lab1/user/grep.c:21-27 | one turn of the inner loop handles one line, or finds no newline |
| `Grep.Scan` | lab1/user/grep.c:20-28 | every complete line in the buffer is handled once, in order |
| `Grep.Turn` | lab1/user/grep.c:18-32 | one read's worth: what is printed and what is kept for the next read |
| `Grep.Grep` | lab1/user/grep.c:10-34 | for every NUL-free input and every way read splits it, the same is printed: the matching lines up to the first line longer than the buffer |
| `Grep.AllLinesPrinted` | lab1/user/grep.c:10-34 | all matching lines are printed, and nothing else, exactly when no complete line from the first one on that is longer than the buffer matches |
| `ShellGrammar.Lex` | lab1/user/sh.c:274-318 | a token lies in the line after the cursor; a word is a maximal run of word characters |
| `ShellGrammar.ParseArgs` | lab1/user/sh.c:444-459 | at most nine arguments; the cursor stays in the line |
| `ShellGrammar.ArgsAreWords` | lab1/user/sh.c:444-459 | every argument and file name recorded is a maximal run of word characters |
| `ShellGrammar.ParseLine` | lab1/user/sh.c:354-371 | parsing ends on every input with the cursor inside the line, and every word of the command is a maximal run of word characters |
| `ShellGrammar.ParseCmd` | lab1/user/sh.c:336-352 | a command returned has only such words |
| `Shell.Parser.Peek` | lab1/user/sh.c:320-329 | peek moves past white space and tells whether the next character is one of those given |
| `Shell.Parser.GetToken` | lab1/user/sh.c:274-318 | gettoken moves the cursor past one token of the grammar |
| `Shell.Parser.ParseRedirs` | lab1/user/sh.c:387-412 | the loop returns the redirections of the grammar, innermost first |
| `Shell.Parser.ParseExec` | lab1/user/sh.c:430-462 | the loop returns the command of the grammar, or panics where it fails; `ShellLine.SimpleCommand` says what that command is |
| `Shell.Parser.ParseBlock` | lab1/user/sh.c:414-428 | the command in parentheses, with its redirections |
| `Shell.Parser.ParsePipe` | lab1/user/sh.c:373-385 | the pipeline of the grammar |
| `Shell.Parser.ParseLine` | lab1/user/sh.c:354-371 | the line of the grammar |
| `Shell.Parser.ParseCmd` | lab1/user/sh.c:336-352 | the whole line, or a panic on what is left over |
| `Shell.NulTerminate` | lab1/user/sh.c:465-510 | a NUL is written where a recorded word ends and nowhere else |
| `Shell.WordKept` | lab1/user/sh.c:464-510 | no word's end lies inside a word, so every word is a C string equal to its token |
| `Shell.ParseCommand` | lab1/user/sh.c:336-352 | after parsing and termination every word of the command is a C string in the buffer, exactly the token it was |
| `ShellRoundTrip.ArgsBack` | lab1/user/sh.c:444-459 | a printed list of words is parsed into those words |
| `ShellRoundTrip.BlockBack` | lab1/user/sh.c:414-428 | a parenthesised command is parsed first and the redirections after it are wrapped around |
| `ShellRoundTrip.LineBack` | lab1/user/sh.c:354-462 | a printed command, followed by a closing parenthesis or the end, is parsed back |
| `ShellRoundTrip.RoundTrip` | lab1/user/sh.c:336-462 | for every command with at most nine arguments per exec and well-formed words, parsing its parenthesised printing gives it back |
| `ShellRoundTrip.Reprints` | lab1/user/sh.c:336-462 | every NUL-free line the shell accepts means the same as its parenthesised printing |
| `ShellRoundTrip.ParsePrinted` | lab1/user/sh.c:336-352 | printing a command and giving it to parsecmd leaves the command's words, and no others, as the C strings the parsed command points to |
| `ShellLine.RedirsBack` | lab1/user/sh.c:387-412 | a typed list of redirections is parsed into those redirections, in order |
| `ShellLine.PlainBack` | lab1/user/sh.c:430-462 | a typed simple command is parsed into the exec of its words with its redirections around it |
| `ShellLine.SimpleCommand` | lab1/user/sh.c:387-462 | for every list of words and redirections mixed in any order, peeling the parsed tree gives every redirection, the last typed outermost and the first innermost, and then the exec of exactly the words |
| `ShellLine.TypedPipe` | lab1/user/sh.c:373-385 | a typed pipeline is parsed into pipes that group to the right |
| `ShellLine.TypedLine` | lab1/user/sh.c:354-371 | a typed list is parsed into a list that groups to the right, each pipeline in the background once for every & behind it |
| `ShellLine.CommandLine` | lab1/user/sh.c:336-462 | every ordinary command line (words, redirections, pipes, lists, background jobs, groups in parentheses, any white space that keeps the tokens apart) is accepted to its end and parsed into what it means |
| `ShellLine.ParseTyped` | lab1/user/sh.c:336-352 | parsecmd on such a line returns that command, every word a C string in the buffer |
| `ShellAccepts.TokenIs` | lab1/user/sh.c:274-318 | gettoken returns a word or symbol whole: no word character follows a word and no > follows a > |
| `ShellAccepts.Spelled` | lab1/user/sh.c:274-318 | every line is its tokens with white space around them, some wherever two tokens would run together |
| `ShellAccepts.LineFrom` | lab1/user/sh.c:354-462 | what the parser consumes is a command line's tokens |
| `ShellAccepts.AcceptsLines` | lab1/user/sh.c:336-462 | the shell accepts a NUL-free line if and only if its tokens are those of a command line with at most nine words to a command, and makes of it the command that line means |
| `ShellAccepts.OneMeaning` | lab1/user/sh.c:336-462 | a line has one meaning |

## Left out

- Devices, traps, assembly, the console and printf: registers and control flow outside this logic.
- Lock internals and memory ordering: a lock operation is one atomic step.
- kill and the killed flag: it is read without the lock that guards it, and a killed writer leaves a pipe without a wakeup.
- A copy that fails inside writei, piperead, pipewrite or wait: the model follows the path on which copies succeed.
- Directories, path names, inode reference counts and system call wrappers: scanning loops that would add easy members.
- exec's loading of programs: it enters only as a caller of uvmalloc, whose contract is for every size.
- Time: no claim is made that a sleeping process is scheduled again, or that locks are taken in an order free of deadlock.
- Log.Read: is for a process alone in the cache; with readers `JournalRuns.CommitPanics` says when a bread panics.
- Log.WriteLog: is for a process alone in the cache; `Journal` has its steps with readers.
- Log.WriteHead: is for a process alone in the cache; `Journal` has its steps with readers.
- Log.InstallTrans: is for a process alone in the cache, which it is at boot; in a commit `Journal` has its steps with readers.
- Log.Commit: is for a process alone in the cache; with readers `JournalRuns.CommitPrefix` and `JournalRuns.CommitPanics` hold instead.
- BufferCache.Cache.Bread: is for a caller that finds the sleep lock of its buffer free, also of one it recycles; `BufferCache.Cache.Bget` and `BufferCache.Cache.Acquire` are its two halves for any other.
- BufferCache.UnpinKeeps: does not cover a second bunpin too many, which no code reaches.
- JournalRuns.CrashAnywhere: does not cover a boot that recovered blocks, because their counts are wrong afterwards.
- FileSystem.FileSys.Writei: keeps inodes beside the disk and does not encode them in blocks, so the crash results are about blocks and not about files.
- FileSystem.FileSys.Balloc: returns failure where the code panics for lack of blocks, and so do its callers.
- FileSystem.FileSys.FileWrite: says that a panic means every block is in use, and not how many blocks the whole write needs.
- VirtualMemory.Memory.Kfree: asks for a page in use, as the code's comment does; a second kfree of a page is not detected by the code.
- VirtualMemory.Memory.UvmunmapFree: is for ranges below the trapframe, where what is mapped are user pages.
- VirtualMemory.Memory.Mappages: does not say exactly how many pages a range needs; `VirtualMemory.Memory.MapPage` does for one page.
- VirtualMemory.Memory.Walkaddr: names physical pages by number and returns -1 where the code returns address 0, which is never a page that is handed out.
- VirtioTransfer.RwReturns: is for blocks below 2^31, where `VirtioTransfer.SectorExact` shows that the sector does not wrap, and says nothing of a request whose block is not on the disk, which ends in `VirtioTransfer.StatusPanics`.
- Shell.Parser.ParseExec: collects arguments and redirections and builds the command at its end, where the code fills in a command it has already wrapped.
- Memory is modelled by maps and sequences that methods reassign where the code follows pointers into pages; aliasing of kernel memory with itself is therefore excluded by construction.
- Running the shell's commands, find, xargs, primes and the other small programs: plumbing.
