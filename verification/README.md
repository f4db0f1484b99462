# A model of xv6 in Dafny

This project models the state machines and algorithms at the core of the x86 xv6 kernel with a
lottery scheduler, and of two of its user programs, and proves what they promise for all inputs
and all runs.

- **Redo log** (`RedoLog`, `LogDevice`, `GroupCommit`): commit and recovery as block writes any of
  which may be the last before the machine stops, and the group-commit protocol among any number of
  processes.
- **Buffer cache** (`BufferCache`, `Bio`, `Eviction`): interleaved readers and writers over the ring of
  buffers, against the latest logical contents of the disk.
- **Cache and log together** (`Journal`, `CommitOrder`, `LogSpace`, `Overrun`): one machine of
  operations, readers and a committer, from boot to crash to recovery, and exactly which sizes of log
  and cache it needs.
- **Files** (`Disk`, `Blocks`, `Files`, `Truncate`, `FileSystem`, `TightChunk`, `Durability`): the free
  map, block ownership, files as flat byte strings, the size of a transaction, and what a crash in
  the middle of write(2) leaves.
- **Links** (`Links`, `Sysfile`, `NameSpace`): link counts, and what names lead to, over create, link,
  unlink and iput.
- **Scheduler** (`Rand`, `Fairness`, `Lottery`, `Processes`, `Lifecycle`, `Kills`, `ProcTable`): the
  generator's period, the fairness of the lottery, the process tree and the life of a process.
- **Sleep locks and pipes** (`SleepLock`, `Pipe`).
- **Memory** (`FreeList`, `Umalloc`, `PageTables`, `AddressSpaces`, `Vm`): the user-level allocator, the
  page pool and address spaces.
- **Shell and grep** (`Lexer`, `Grammar`, `CommandLine`, `Derivations`, `ParsePrint`, `Parentheses`,
  `ShellLimits`, `Shell`, `Grep`).

Code that changes things in place is a class whose methods have the source's loops; each method is
proved against a function or a step of a state machine, and the theorems are about those. A panic
stops the model: it is an outcome, a `false` result, or a precondition where the source leaves the
matter to its caller. Concurrent code is a state machine whose steps are the source's critical
sections, or single acquires and releases where that granularity matters (`SleepLock`). Integers are
unbounded except where wrap-around is the point: the generator, the pipe's counters, `readi` and
`writei`'s offset test.

## What the code does not promise

Properties one might expect and that this code does not have, each with exactly when it fails or
holds:

- `log_write` also stops at `log.size - 1`, and mkfs makes the log LOGSIZE blocks long, so a full
  reservation panics (`GroupCommit.NeverPanicsIff`), and two operations that pass the guard together
  overrun the log in memory (`GroupCommit.AlwaysFitsIff`). Both need more than LOGSIZE blocks. On disk
  such a race loses data if and only if there are also more buffers than log blocks
  (`Overrun.RecoversIff`); NBUF is LOGSIZE, so here it ends in bget's panic (`Overrun.MkfsRecovers`).
- The guard comes before absorption, so an operation at its limit can panic on logging a block
  again (`GroupCommit.RepeatPanics`): the guard fires exactly when no block is left, and never on an
  operation with room (`GroupCommit.GuardIff`). `filewrite` always has room (`FileSystem.WriteChunk`).
- A killed writer that fills a pipe returns without waking its readers (`Pipe.StrandsIff`,
  `Pipe.KilledWriterStrandsReader`).
- Creating in a directory that has been unlinked breaks link counts (`Links.MakesKeepsIff`,
  `Links.CreateInUnlinkedDirectory`).
- `kill` of a pid that only a free slot holds marks that slot, and the next child is born killed
  (`Kills.CleanIff`, `Kills.BornKilled`).
- `malloc` of more than 0x7FFFFFF0 bytes claims more than it asks sbrk for (`Umalloc.AskedIff`,
  `Umalloc.AsksNothing`).
- `>>` does not append: it parses as `>`, always (`ShellLimits.AppendIsCreate`).
- `MAXARGS` is 10, but a command is refused exactly from ten arguments on (`ShellLimits.TooManyArgsIff`).

## Hypotheses

- One disk, with atomic synchronous block writes (memide.c:38-60); logged blocks lie outside the log.
- In `FileSystem` the inode table is kept beside the data blocks, as `dinodes`; `Durability` puts it into
  the blocks that the same transactions log. An inode is its size and addresses; the rest of its bytes
  are carried along unread.
- In `Journal` an operation passes what it has changed to `log_write` before it releases the buffer or
  ends; only commit calls `bwrite`, as in the source (log.c:78, 111, 186).
- A process that reads or writes a pipe has that end open, so an end is never closed under it.
- Names are compared as strings of at most DIRSIZ bytes; path lookup hands the operations of `Sysfile`
  their inodes.
- In `Allocuvm` nothing is mapped yet in the range to grow, and in `Copyuvm` everything below the size
  is; otherwise the source panics.
- Values from outside become parameters: what `sbrk` grants, how many block writes the power lasts for,
  the value drawn by `rand` in `Schedule`, the linker's start of the kernel's data in `Kmap`.

## Model

| member | source | states |
|---|---|---|
| `RedoLog.HeaderRoundTrip` | log.c:86-112 | writing the header and reading it back gives the same block numbers, for every list that fits |
| `Disk.WordBytes` | log.c:84-97 | a number in a block is four bytes, the low one first |
| `RedoLog.InstallKeepsHome` | log.c:69-81 | stopping install_trans after any number of its writes leaves what recovery is to restore unchanged |
| `RedoLog.RecoveryKeepsHome` | log.c:69-122 | recovery stopped after any number of its block writes keeps every block it is to restore; run to the end it leaves an empty log |
| `RedoLog.CommitEarly` | log.c:177-202 | up to and including the last log block nothing of the transaction shows |
| `RedoLog.CommitLate` | log.c:192-202 | from the header write on all of the transaction shows, also in the middle of installing and of clearing the header |
| `RedoLog.CommitAtomic` | log.c:177-202 | commit stopped after p writes: the old home blocks if p is at most the number of logged blocks, the new ones otherwise, and an empty log at the end |
| `RedoLog.Boots` | log.c:115-122 | any number of recoveries, each stopped anywhere, keep the home blocks that recovery will restore |
| `RedoLog.CrashAtomic` | log.c:69-122 | a commit stopped anywhere, any number of stopped recoveries and one complete one leave the home blocks wholly old or wholly new, and which of the two is decided by the header write alone |
| `RedoLog.HistoryAtomic` | log.c:69-202 | over any history of transactions, crashes and reboots every home block holds exactly what the transactions whose header reached the disk wrote, in order |
| `LogDevice.Log.WriteLog` | log.c:177-189 | with power for k more block writes the disk is the old one with the first k log writes applied, the cached contents being what is logged |
| `LogDevice.Log.WriteHead` | log.c:101-113 | the header block is written in one write or not at all |
| `LogDevice.Log.InstallTrans` | log.c:69-81 | home blocks are written from the log in order until the power ends; when it gets through, exactly the logged blocks are no longer pinned |
| `LogDevice.Log.Commit` | log.c:192-202 | the loop-by-loop commit performs a prefix of the write sequence that RedoLog reasons about, as long as the power lasts |
| `LogDevice.Log.ReadHead` | log.c:85-97 | the block numbers in memory are those of the header on disk |
| `LogDevice.Log.RecoverFromLog` | log.c:115-122 | recovery performs a prefix of RedoLog's recovery writes, as long as the power lasts |
| `GroupCommit.GuardIff` | log.c:214-221 | for a running operation in any reachable state log_write's guard fires if and only if the log has no block left; in a log of more than LOGSIZE blocks that means LOGSIZE logged blocks, and then every operation has used up its reservation |
| `GroupCommit.StepKeeps` | log.c:126-174 | every critical section keeps: outstanding counts the running operations, committing excludes them, an idle log is empty, logged numbers are distinct, lh.n plus all unspent reservations is at most LOGSIZE, and a begin_op sleeper exists only while somebody will wake it; the only panic is log_write's, exactly when no block is left |
| `GroupCommit.RunKeeps` | log.c:126-233 | so does every interleaving of any number of processes, repeated log_writes included; end_op's committing panic is out of reach, and in a log of more than LOGSIZE blocks so is log_write's for operations that call it with room left |
| `GroupCommit.NeverPanicsIff` | log.c:218-221 | with three processes or more, no run whose log_writes all have room left panics if and only if the log has more than LOGSIZE blocks; mkfs gives it LOGSIZE (mkfs.c:25) |
| `GroupCommit.RepeatPanics` | log.c:218-228 | without room left, and however large the log, there is a run that panics on a block the operation has logged already, since the guard comes before absorption |
| `GroupCommit.AlwaysFitsIff` | log.c:218-231 | the guard is read without the lock: the logged blocks fit the log in every interleaving if and only if it has more than LOGSIZE blocks or is only a header; otherwise two operations pass the guard for one block |
| `GroupCommit.Log.BeginOp` | log.c:126-141 | a turn of begin_op is a step of the protocol and keeps its invariant: it admits the operation if and only if nobody is in commit and what is logged leaves a full reservation for every running operation and for this one; an admitted operation finds room for all that the running ones may still log, one sent to sleep has somebody in flight who will wake it |
| `GroupCommit.AdmittedIff` | log.c:129-138 | in every reachable state begin_op admits exactly then, the running operations being counted over the processes, and puts the caller to sleep exactly otherwise |
| `GroupCommit.NeverHeldUp` | log.c:126-174 | in every run from an idle log nobody sleeps in begin_op while there is room for an operation: whoever makes room wakes the sleepers |
| `GroupCommit.Log.Guarded` | log.c:218-221 | the two tests are the guard step; they pass every operation that has room, in a log of more than LOGSIZE blocks |
| `GroupCommit.Log.LogWrite` | log.c:222-231 | the loop and the store are the append step: the logged numbers gain the block once, however often it is logged |
| `GroupCommit.Log.EndOp` | log.c:145-161 | a step of the protocol that keeps its invariant and never meets its panic; it makes the caller the committer if and only if no operation is left running |
| `GroupCommit.Log.FinishOp` | log.c:166-172 | leaves an empty log, no operation running and nobody asleep |
| `BufferCache.FilledIsLatest` | bio.c:96-106 | when bread reads the disk, the disk holds the latest contents of that block |
| `BufferCache.NeverRecycledInUse` | bio.c:79-92 | no step takes a referenced or pinned buffer away from its block, or touches a buffer other than its own |
| `BufferCache.StepKeeps` | bio.c:61-141 | every critical section and locked action keeps: no two buffers for one assigned block, reference counts equal to the processes involved, valid buffers equal to the latest contents, a disk that is behind only where a buffer holds the block, and a ring that is a permutation of the buffers |
| `BufferCache.RunKeeps` | bio.c:61-141 | so does every interleaving |
| `BufferCache.BreadSeesLatest` | bio.c:96-106 | in every run from boot a buffer that has been read holds what the last lock holder of its block stored, or the first disk contents |
| `Eviction.EvictsOldest` | bio.c:79-138 | in every run from boot the buffer that bget recycles was let go of no later than any other unused one, never used ones first: least recently used |
| `BufferCache.MovedFront` | bio.c:130-138 | moving a buffer to the front leaves a permutation of all buffers |
| `Bio.Unlinked` | bio.c:131-132 | the two stores that take a buffer out leave a ring of the others, wherever it was |
| `Bio.Fronted` | bio.c:133-136 | the four stores that put it in front leave a ring with it first |
| `Bio.Bcache.constructor` | bio.c:38-56 | the ring leads once around all buffers both ways, and no buffer is in use |
| `Bio.Bcache.Find` | bio.c:67-75 | finds the buffer of the block, or reports that none has it |
| `Bio.Bcache.FindUnused` | bio.c:77-81 | finds the least recently released buffer that is neither referenced nor pinned, or reports that there is none |
| `Bio.Bcache.Bget` | bio.c:61-94 | one more reference to the block's only buffer; it panics exactly when the block is not cached and every buffer is referenced or pinned |
| `Bio.Bcache.Bread` | bio.c:96-106 | the buffer is valid and holds the latest contents |
| `Bio.Bcache.Bwrite` | bio.c:109-116 | the disk now holds the buffer's data, and the buffer is no longer pinned |
| `Bio.Bcache.Brelse` | bio.c:120-141 | one reference less, and a buffer nobody uses moves to the front of a ring that stays whole |
| `Journal.StepKeeps` | log.c:126-233 | cache and log together, with operations, readers and a committer interleaved; every step but a copy past the end of the log keeps: exactly the logged and uninstalled blocks are dirty, log blocks on disk hold their copies, the header on disk names exactly what is being installed, a block is ahead of the durable contents only where it is logged or about to be, and what recovery would restore is the durable contents |
| `Journal.RunKeeps` | log.c:126-233 | so does every run that does not copy past the end of the log, the durable contents being the logical ones at the last header write |
| `Journal.OnlyUnderHeader` | log.c:177-202 | whenever a home block changes on disk the header on disk names it at that moment, and it changes to its contents at the last header write |
| `Journal.NotBeforeHeader` | log.c:192-233 | in every such run from boot a home block that the header on disk does not name is as it was at the last header write, whatever operations have changed and logged since |
| `Journal.PinnedUntilInstalled` | bio.c:79-92 | in every such run from boot the dirty buffers are exactly those of logged blocks not yet installed, and they hold the latest contents |
| `Journal.SealsBetween` | log.c:145-202 | at a header write no operation is running and no change of one is outstanding, so operations become durable as a whole |
| `Journal.CommitGoesOn` | log.c:177-202 | the order of commit never blocks it: holding the buffers it has read, its next step is open in every reachable state |
| `Journal.CrashRecovers` | log.c:69-202 | a crash after any such run from boot, any number of stopped recoveries and one complete one leave in every home block what was last stored into it before the last header write, no more and no less |
| `Journal.HistoryRecovers` | log.c:69-233 | so does any history of boots, such runs and crashes |
| `LogSpace.PinCount` | bio.c:79-92 | at every moment as many buffers are dirty as logged blocks are not yet installed |
| `LogSpace.BgetIff` | bio.c:61-94 | whoever calls it, bread gets past bget's panic if and only if the block is cached or some buffer is neither referenced nor dirty |
| `LogSpace.RoomSuffices` | bio.c:61-94 | in particular always while the logged blocks and the referenced buffers together are fewer than the buffers, commit's reads included |
| `LogSpace.AllPinnedStops` | log.c:177-189 | and never for a log block once as many blocks are logged as there are buffers: commit stops before its first write |
| `LogSpace.AlwaysContained` | log.c:177-231 | every run stays within the log when it has more than LOGSIZE blocks, or no fewer than there are buffers, or is only a header |
| `LogSpace.SerialContained` | log.c:218-231 | and so does every run in which no two operations are between log_write's guard and its lock at once, whatever the sizes |
| `Overrun.RecoversIff` | log.c:177-231 | with three processes or more, every run from boot recovers from every crash if and only if the log has more than LOGSIZE blocks, or no fewer than there are buffers, or is only a header; no assumption on the run |
| `Overrun.OverrunLoses` | log.c:177-231 | in every other case there is a run in which two operations pass the guard together and commit overwrites the block after the log before there is a header |
| `Overrun.MkfsRecovers` | mkfs.c:25-25 | so every run recovers on the volumes mkfs makes, with the kernel's NBUF buffers; where the race overruns such a log all buffers are pinned and no log block can be read, so commit panics before it has written anything |
| `CommitOrder.LatestIsView` | log.c:177-189 | while commit runs the latest contents of a home block are its pinned buffer's if it has one and the disk's otherwise, which is what LogDevice assumes |
| `CommitOrder.CommitIsRedo` | log.c:192-202 | among any number of readers, the disk holds at every moment of the commit of a transaction that fits the log what a prefix of the redo log's write sequence leaves, with the values of the pinned buffers, so that RedoLog.CrashAtomic applies to it |
| `Blocks.AllocatedFrame` | fs.c:56-78 | taking a free block changes no block in use but the free map, and no slot of any inode |
| `Blocks.GrowDirect` | fs.c:378-382 | a free block hung on a direct or indirect slot keeps one owner for every block; a new indirect block reads as wholly unmapped |
| `Blocks.GrowIndirect` | fs.c:385-397 | the same for an entry of the indirect block, and exactly one slot of one inode changes |
| `Files.StoreImage` | fs.c:498-504 | storing bytes into the block that holds offset off splices them into the file's flat string |
| `Files.StoreElsewhere` | fs.c:498-504 | and leaves every other file as it was |
| `Truncate.FreeNext` | fs.c:413-418 | at every point of itrunc the next slot's block is still in use, so "freeing free block" is out of reach |
| `Truncate.Truncated` | fs.c:407-435 | what is left is consistent again, with the inode's blocks owned by nobody |
| `FileSystem.Volume.Balloc` | fs.c:56-78 | takes the lowest free block, marks it and zeroes it; fails exactly on a full disk |
| `FileSystem.Volume.Bfree` | fs.c:81-95 | frees the block; reports the panic case exactly when it was free already |
| `FileSystem.Volume.Bmap` | fs.c:372-400 | the address of the file block, allocated on the way if need be; every block keeps its one owner, mapped slots and their bytes are kept, a mapped block costs nothing, and what is logged is bounded and includes every new block with its map block |
| `FileSystem.Volume.Readi` | fs.c:452-476 | returns exactly the slice of the flat string and changes nothing; -1 exactly past the end or on wrap-around |
| `FileSystem.Volume.WriteRun` | fs.c:498-504 | the file becomes the old string with src spliced in at off, across direct and indirect blocks; counts the blocks logged and allocated |
| `FileSystem.Volume.Writei` | fs.c:481-511 | old[..off] + src + old[off+n..] with the size grown to match, all other files untouched, rejected exactly when off is past the end or the file would be too long; it logs at most LogCost blocks, with fewer than that logged before its last log_write, and fails only if fewer than Touched + 2 data blocks were free |
| `FileSystem.Volume.Itrunc` | fs.c:407-435 | frees exactly the inode's blocks, leaves every other file alone, never finds a block free already |
| `FileSystem.ChunkFits` | file.c:125-136 | a chunk of at most 1536 bytes can log at most MAXOPBLOCKS blocks, wherever it starts |
| `FileSystem.WriteChunk` | file.c:136-144 | one transaction splices its chunk in, logs every block and every inode it changes, at most MAXOPBLOCKS distinct blocks, and calls log_write only with fewer than that logged, which is what GroupCommit asks of an operation |
| `FileSystem.FileWrite` | file.c:117-156 | write(2) splices all of its bytes in, advances the offset and leaves other files alone; one that would make the file too long is taken in whole chunks up to where it fits; every transaction has logged all that it changed, stays within its reservation and leaves a consistent volume with a whole number of chunks written, also when the disk fills up |
| `Durability.GetPut` | fs.c:220-236 | an inode written into its block of the table reads back as it was, and the other inodes of the block are untouched |
| `Durability.StoredSame` | fs.c:220-236 | with the table encoded in its blocks, a block that a transaction has not logged is the same before and after it |
| `Durability.StoppedLeaves` | log.c:69-202 | a machine stopped anywhere in transaction k, and any number of stopped recoveries, leave the disk image after k transactions, or after k + 1 exactly if the header was written |
| `Durability.WriteSurvives` | file.c:117-156 | so a write(2) stopped anywhere leaves, after recovery, a consistent volume whose inode table, read from the disk, shows a whole number of chunks written, or all of them, and every other file as it was |
| `TightChunk.ConsistentHere` | fs.c:56-78 | the file system with one free block under each of 142 map blocks is consistent |
| `TightChunk.TightTransaction` | file.c:125-144 | the bound is met: on that file system an unaligned 1536-byte chunk whose first block is mapped logs exactly ten distinct blocks |
| `TightChunk.OverrunTransaction` | file.c:125-144 | and 1536 is the largest chunk: for every greater length that a file can have writei logs more than MAXOPBLOCKS blocks on that file system, at some offset |
| `Links.EmptyNamedOnce` | sysfile.c:211-229 | an empty directory that is still linked is named once, by its parent |
| `Links.UnlinkNeverPanics` | sysfile.c:204-216 | for every entry unlink can reach nlink is at least 1, exactly 1 for an empty directory, and the parent's at least 2 |
| `Links.UnlinkKeeps` | sysfile.c:218-229 | unlink keeps every link count equal to the entries naming the inode, and the directory tree a tree |
| `Links.MakesKeepsIff` | sysfile.c:241-283 | creating or linking in a directory keeps the counts right if and only if that directory is itself still linked |
| `Links.QuietKeeps` | sysfile.c:140-163 | so do raising nlink, taking it back after a failed link, and reference counting |
| `Links.RunKeeps` | sysfile.c:118-283 | so does every run that makes no entry in an unlinked directory |
| `Links.NlinkCounts` | sysfile.c:118-283 | in every such run from mkfs's file system nlink is the number of entries in linked directories that name the inode, "." excluded and ".." counted, plus links being made |
| `Links.IputFreesIff` | fs.c:331-352 | iput frees an inode if and only if no entry names it, no link to it is being made and nobody else refers to it; otherwise it only counts down |
| `NameSpace.LeadsTo` | fs.c:524-582 | what every name of every directory leads to after a step: create and link make their name lead to the inode, unlink makes its name lead nowhere, a new directory has its two dots, and no other name changes |
| `NameSpace.RunDistinct` | fs.c:553-582 | in every run no directory has a name twice, so a name leads to one inode |
| `NameSpace.KindsAndRefs` | sysfile.c:260-282 | a new inode is of the kind asked for and is referred to once; only iget, iput and freeing change reference counts and kinds besides |
| `Links.CreateInUnlinkedDirectory` | sysfile.c:241-283 | a run after which creating a file in an unlinked directory breaks its count |
| `Sysfile.Tree.Dirlookup` | fs.c:524-548 | finds a slot with the name if and only if there is one |
| `Sysfile.Tree.Dirlink` | fs.c:551-578 | refuses a name that is there, and else fills the first free slot or a new one |
| `Sysfile.Tree.Isdirempty` | sysfile.c:168-181 | tells whether any slot past the first two is in use |
| `Sysfile.Tree.Link` | sysfile.c:118-165 | links if and only if the target is no directory, the parent was found and the name is new; otherwise everything is as before |
| `Sysfile.Tree.Unlink` | sysfile.c:184-239 | removes the entry or refuses for one of four named reasons, and keeps all counts |
| `Sysfile.Tree.Create` | sysfile.c:241-283 | a name that is there gives the file it leads to one reference more if a file is asked for and is there, and is refused otherwise; a new name makes the inode, which is counted right if and only if its directory is still linked |
| `Sysfile.Tree.Iput` | fs.c:331-352 | drops a reference, and frees the inode if and only if it was the last and no entry names it or is about to |
| `Rand.Generator.Rand` | rand.c:10-16 | the n-th call since the seed returns the upper half of the state n steps after it, so what is proved of Iter holds of what rand returns |
| `Rand.ClosedForm` | rand.c:10-16 | the state after n calls in closed form |
| `Rand.Returns` | rand.c:10-16 | a state comes back after t calls if and only if t is a multiple of 2^32 |
| `Rand.FirstDraws` | rand.c:10-16 | from the first seed the draws begin with 16838, 38526 and 10113 |
| `Fairness.FullPeriod` | rand.c:10-16 | from any seed 2^32 calls visit every state exactly once |
| `Fairness.EachOutput` | rand.c:10-16 | each of 0..65535 is returned exactly 65536 times in a period |
| `Fairness.FairShare` | proc.c:375-387 | of a period's rounds the holder of k of t tickets wins between 65536*k*floor(65536/t) and 65536*k*ceil(65536/t) |
| `Lottery.HolderUnique` | proc.c:381-387 | no ticket has two holders |
| `Lottery.HolderExists` | proc.c:375-387 | every ticket from 1 to the total has one |
| `Lottery.SharesAreNice` | proc.c:375-387 | exactly nice of the tickets select the process |
| `Lottery.FairDraws` | proc.c:375-413 | while the same processes are runnable each gets its share of a period's rounds, whatever the seed |
| `Lottery.NoStarvation` | proc.c:375-413 | a runnable process is drawn at least 655360*nice times in a period of a table of NPROC slots |
| `Processes.ExitKeeps` | proc.c:260-301 | exit keeps the tree, the pids and the wakeups: its children go to init and nobody is left asleep in wait with a zombie child |
| `Processes.WaitKeeps` | proc.c:305-345 | so does a turn of wait |
| `Processes.PublishKeeps` | proc.c:240-254 | so does fork's last step; the child is runnable, and its tickets and parent are those of the process that forked it |
| `Lifecycle.LifeCycle` | proc.c:89-690 | slot by slot, for every step: from which state to which a process goes and for what reason, and why its pid, parent, channel, flag and tickets change; for no other reason and in no other slot |
| `Lifecycle.WokenExactly` | proc.c:600-616 | after wakeup(addr) nobody sleeps on addr; whoever did is runnable and else unchanged, as is everybody else |
| `Lifecycle.RousedRuns` | proc.c:261-302 | a sleeper becomes runnable if and only if the step is a wakeup of its channel, a kill of it, the exit of a child of the process it sleeps on, or the handing over of zombie children to it as init |
| `Lifecycle.AsleepUntil` | proc.c:559-616 | over any run without such a step it is still asleep on the same channel |
| `Lifecycle.NobodyWaitsInVain` | proc.c:306-345 | in every run whoever sleeps in wait has a child that has not exited |
| `Processes.StepKeeps` | proc.c:88-345 | every critical section of fork, exit, wait, sleep, wakeup, kill, renice and the scheduler keeps: live pids distinct, parents up and older than their children, zombies without children, no sleeper in wait with a zombie child, 1 to 100 tickets for everyone runnable |
| `Processes.RunKeeps` | proc.c:88-345 | so does every run |
| `Processes.BootedInv` | proc.c:147-180 | all of it holds after userinit |
| `Processes.RootIsInit` | proc.c:207-301 | following parents from any process leads to init |
| `ProcTable.Table.Wakeup1` | proc.c:600-607 | afterwards nobody sleeps on the channel; exactly its sleepers became runnable, and nothing else changed |
| `ProcTable.Table.AllocProc` | proc.c:88-143 | the first free slot becomes an embryo with the next pid, or nothing changes |
| `ProcTable.Table.Exit` | proc.c:260-301 | the scanning exit does to the table what the specification of exit says |
| `ProcTable.Table.Wait` | proc.c:305-345 | reaps the first zombie child, or reports that there are no children, or sleeps |
| `ProcTable.Table.Kill` | proc.c:621-639 | does to the table what the specification of kill says, and tells whether a slot has that pid |
| `Kills.KillMarks` | proc.c:621-639 | kill marks the live process of the pid and no other if there is one; otherwise a free slot that still holds the pid, if there is one, and else nothing |
| `Kills.CleanIff` | proc.c:88-143 | exactly a kill that finds only a free slot, and a failing fork of a killed child, leave the killed flag behind in a free slot, from which allocproc does not clear it |
| `Kills.RunClean` | proc.c:88-143 | runs without these two never have it in a free slot |
| `Kills.BornKilled` | proc.c:621-639 | kill(0) after boot, and the next child is born killed |
| `Kills.RunChans` | proc.c:559-591 | in every run only processes in sleep, asleep or woken and not yet running, have a channel |
| `ProcTable.Table.Renice` | proc.c:671-690 | exactly the live slots of that pid get the value, and nothing else of any slot changes; a value outside 1..100 or an unknown pid changes nothing |
| `ProcTable.Table.NiceSum` | proc.c:486-496 | the total of the runnable processes' tickets |
| `ProcTable.Table.Schedule` | proc.c:365-413 | a step of the process table that chooses a process exactly when one is runnable: the unique one whose ticket interval contains the drawn ticket |
| `SleepLock.StepIsLocal` | proc.c:559-597 | a step moves one process, and a spinlock passes only to it or from it |
| `SleepLock.StepKeeps` | sleeplock.c:22-42 | every acquire, release, test and store of acquiresleep, releasesleep, sleep, wakeup and kill keeps: the spinlocks exclusive, pid the one owner, and nobody on the way to sleep unless the lock is held or a wakeup is coming |
| `SleepLock.MutualExclusion` | sleeplock.c:22-32 | in every run at most one process owns the lock |
| `SleepLock.NoLostWakeup` | sleeplock.c:22-42 | in every run, with the spinlock free and the lock unlocked nobody sleeps on it or is committed to |
| `SleepLock.HoldingsleepExact` | sleeplock.c:44-53 | holdingsleep is true of the owner and of nobody else |
| `SleepLock.SpinlocksProgress` | proc.c:575-597 | whoever holds ptable.lock can go on, and with ptable.lock free so can the holder of the other spinlock |
| `SleepLock.FreeLockProgress` | sleeplock.c:22-32 | with the lock and both spinlocks free every process can take its next step |
| `SleepLock.AcquireEndsOwning` | sleeplock.c:22-32 | acquiresleep does not end without the lock: over any run, wakeups and kills included, a call is still under way or has owned the lock |
| `SleepLock.OwnerKeeps` | sleeplock.c:34-42 | whatever anybody does the lock stays its owner's until its owner's releasesleep, which unlocks it |
| `SleepLock.KillWakes` | proc.c:621-639 | a kill lets a process that sleeps on the lock go on |
| `Pipe.Ring.Pipewrite` | pipe.c:78-98 | a turn under the lock accepts bytes in order until all are in or the pipe is full; it returns if and only if all are in, and fails if and only if they are not and the readers are gone or the writer was killed |
| `Pipe.Ring.Piperead` | pipe.c:100-121 | a turn that returns hands over the next bytes sent, as many as asked for or all there are; it returns if and only if there are bytes or the writers are gone, and fails if and only if neither and the reader was killed |
| `Pipe.StepKeeps` | pipe.c:59-121 | occupancy stays in 0..512 and the bytes read a prefix of the bytes written, in every step of readers, writers, closers and killers |
| `Pipe.Fifo` | pipe.c:78-121 | in every interleaving what readers were handed is a prefix of what writers had accepted, at most 512 bytes behind |
| `Pipe.ReadHandsOver` | pipe.c:100-121 | in every reachable state a read that finds bytes, or no writers, hands over the smaller of what was asked for and what is there |
| `Pipe.EofIsDrained` | pipe.c:105-121 | in every run, a read of some bytes that returns none to a process not killed means that the writers are gone and all they put in has been delivered |
| `Pipe.ClosedAcceptsNothing` | pipe.c:59-76 | and after that nothing more is accepted |
| `Pipe.WriteIsWhole` | pipe.c:78-98 | over any run a write takes its caller's bytes in order, and when it is over has taken all of them, unless it was killed or the readers are gone |
| `Pipe.ReadIsWhole` | pipe.c:100-121 | and a read is over with at most the bytes asked for, and at least one, unless it was killed or the writers are gone |
| `Pipe.KillsGetOut` | pipe.c:84-112 | in every run nobody who has been killed sleeps in a call |
| `Pipe.StrandsIff` | pipe.c:84-98 | from a state where nobody is stranded a step strands somebody if and only if it is a killed writer's turn with more than 512 bytes left and a reader asleep |
| `Pipe.NeverStranded` | pipe.c:59-121 | a run without such a turn leaves no reader asleep on a pipe with bytes or without writers, and no writer on one with room or without readers |
| `Pipe.NoKillsNoStrand` | pipe.c:59-121 | a run without kills has no such turn |
| `Pipe.KilledWriterStrandsReader` | pipe.c:86-89 | a run that leaves a reader asleep on a full pipe |
| `FreeList.LinkedKeeps` | umalloc.c:30-44 | linking a block in at its place keeps the ring circular and in address order, and every unit in exactly one block |
| `FreeList.MergedKeeps` | umalloc.c:33-43 | so does merging two blocks that touch |
| `FreeList.SplitKeeps` | umalloc.c:77-81 | so does handing out the tail of a block |
| `FreeList.UnlinkedKeeps` | umalloc.c:75-76 | so does handing out a whole one |
| `FreeList.ObtainedKeeps` | umalloc.c:46-61 | memory from sbrk is one more live block, apart from all others |
| `Umalloc.FreedKeeps` | umalloc.c:24-45 | free as a whole leaves no two free blocks touching |
| `Umalloc.Allocator.Free` | umalloc.c:24-45 | exactly the block is given back, the units obtained from sbrk are the same, and free blocks stay apart; the search for its place ends |
| `Umalloc.Allocator.Morecore` | umalloc.c:46-61 | one request to sbrk, which grants exactly the chunk or refuses if and only if it has less left; afterwards a block that large is at freep or next to it, or nothing changed |
| `Umalloc.Allocator.Malloc` | umalloc.c:63-90 | a block of enough units that overlaps no live block, or 0 if and only if no free block is large enough and sbrk refuses; live blocks are kept, each of the bytes asked for, from the address returned on, lies in the new block past its header and so in no other; sbrk is asked once if no free block is large enough and not otherwise, what it grants and keeps is conserved, the circular search ends |
| `Umalloc.Allocator.Conserved` | umalloc.c:24-90 | after any calls, the sizes of the blocks in the ring and in use add up to the units sbrk has granted: none is lost, and none is in two blocks |
| `Umalloc.UnitsHold` | umalloc.c:69-69 | the units taken for a size hold its bytes beside the header, with less than a unit to spare |
| `Umalloc.ChunkLeast` | umalloc.c:52-54 | morecore asks for the least that is enough and at least 4096 units |
| `Umalloc.AskedIff` | umalloc.c:52-59 | for a size whose rounding does not wrap, the argument of sbrk is the chunk that morecore goes on to claim if and only if at most 0x7FFFFFF0 bytes are asked for |
| `Umalloc.AsksNothing` | umalloc.c:52-59 | malloc(0xFFFFFFF8) asks sbrk for nothing and claims 0x20000000 units |
| `Umalloc.Allocator.Search` | umalloc.c:30-32 | stops at the header after which the block belongs |
| `PageTables.MapUserKeeps` | vm.c:66-78 | mapping a page in hand keeps one role for every page |
| `PageTables.UnmapKeeps` | vm.c:267-276 | so does taking one out |
| `PageTables.AddTableKeeps` | vm.c:43-54 | so does a new zeroed table, which maps nothing |
| `PageTables.DetachKeeps` | vm.c:283-299 | a directory without user pages can be dismantled: its tables are distinct and nobody else's |
| `PageTables.WalkSkips` | vm.c:265-266 | where there is no table a page-by-page walk does nothing up to the next table |
| `AddressSpaces.PagesDistinct` | vm.c:221-250 | two mapped user pages, of one address space or of two, are never the same physical page |
| `AddressSpaces.KernelAbsent` | vm.c:104-115 | kmap maps nothing outside its ranges |
| `Vm.KmapFits` | vm.c:104-115 | kmap never maps a page twice, and maps page by page: physical memory from KERNBASE up, of which only the text is not writable, the devices at their own addresses, nothing else, and nothing open to user code |
| `Vm.UserMayIff` | vm.c:35-56 | directory entries leave it to the tables: what user code may read and write is decided by the page's entry alone |
| `Vm.KernelIsClosed` | vm.c:104-134 | in every address space that setupkvm or copyuvm built, user code can touch no page from KERNBASE up |
| `Vm.GrownIsOpen` | vm.c:221-250 | and the pages that allocuvm added it can read and write |
| `Vm.KmapNeeds` | vm.c:104-136 | wherever the kernel's data starts, a directory takes 65 pages |
| `AddressSpaces.AllReached` | vm.c:60-80 | once all is mapped a directory has exactly the tables that its ranges and pages reach |
| `AddressSpaces.MissingHooked` | vm.c:43-54 | mapping a page costs a table exactly when its slot of the directory was empty |
| `AddressSpaces.RangeHasTables` | vm.c:221-250 | a range with every page mapped lacks no table |
| `Vm.Machine.Kalloc` | kalloc.c:82-95 | takes a free page out of the pool, or reports that there is none |
| `Vm.Machine.Kfree` | kalloc.c:59-77 | puts back a page that nothing maps, and disturbs no mapping |
| `Vm.Machine.Deallocuvm` | vm.c:255-279 | frees page for page what a plain walk over every page would, jumping over absent tables: exactly the user pages in the range |
| `Vm.Machine.MapPage` | vm.c:60-80 | maps the page and changes no other mapping; fails only with an empty pool, and then changes nothing |
| `Vm.Machine.MapRange` | vm.c:60-80 | a kernel range is mapped in order, all of it or up to where the pool ran out |
| `Vm.Machine.Setupkvm` | vm.c:118-136 | a fresh directory that maps exactly the kernel's ranges, if and only if the pool has a page for it and for each table the ranges reach; otherwise every page is back as it was |
| `Vm.Machine.Allocuvm` | vm.c:221-250 | fresh zeroed pages in the whole range, nothing else changed; or every mapping and every page as before but for page tables kept. It succeeds if and only if the pool has a page for each page and for each table missing in the range |
| `Vm.Machine.Freevm` | vm.c:283-299 | every user page, page-table page and the directory go back to the pool, each once, and nothing of any other address space |
| `Vm.Machine.Copyuvm` | vm.c:315-345 | the same contents and flags in fresh pages, the parent untouched, if and only if the pool has a page for the directory, each page and each table reached; otherwise every page is back as it was |
| `Lexer.Gettoken` | sh.c:265-308 | the next token, its bounds, and a position from which the remaining tokens follow |
| `Lexer.Peek` | sh.c:310-320 | whether the next token starts with one of the symbols, the tokens ahead being the same |
| `Derivations.LexIff` | sh.c:265-308 | the tokens are the one way to read the text as blanks, longest words, ">>" and single symbols |
| `Grammar.SimpleRead` | sh.c:415-446 | parseexec reads a printed simple command back, redirections and parentheses included |
| `Grammar.PipeRead` | sh.c:361-372 | parsepipe reads a printed pipeline back |
| `Grammar.BackRead` | sh.c:349-353 | parseline's loop reads a printed background command back |
| `Grammar.LineRead` | sh.c:344-359 | parseline reads a printed line back |
| `ParsePrint.ParseInvertsPrint` | sh.c:327-446 | parsing the printed text of any tree the grammar can build gives that tree |
| `ParsePrint.ParsePrintParse` | sh.c:327-446 | every text that parses gives such a tree, and printing it and parsing again changes nothing |
| `CommandLine.SimpleIs` | sh.c:415-446 | for every token list: a simple command is accepted if and only if it has fewer than ten words and what follows ends a command; its arguments are then the words in order, wherever its redirections stand, and its redirections the operator and file pairs in order |
| `CommandLine.BlockIs` | sh.c:399-413 | a parenthesised line is the line inside with the redirections after it around it, in order |
| `Derivations.ParseIff` | sh.c:327-446 | parsecmd yields a tree if and only if the text is a command line with that tree by the grammar of words, redirections, parentheses, "|", "&" and ";", and panics otherwise |
| `Derivations.OneTree` | sh.c:327-446 | and no text is a command line in two ways |
| `ShellLimits.TooManyArgsIff` | sh.c:425-446 | a simple command is refused for its arguments if and only if ten words or more stand before its end, not counting files of redirections, wherever these stand |
| `ShellLimits.AppendIsCreate` | sh.c:375-397 | replacing any ">>" of a command line by ">" and a blank changes neither the tree it parses to nor the reason it fails |
| `Parentheses.FewestParentheses` | sh.c:399-413 | no text that parses to a tree has fewer parentheses than the printed one |
| `Shell.Parseredirs` | sh.c:374-397 | the loop agrees with the grammar on every input |
| `Shell.Parseargs` | sh.c:431-444 | so does the argument loop, panics included |
| `Shell.Parseexec` | sh.c:415-446 | so does parseexec |
| `Shell.Parseblock` | sh.c:399-413 | so does parseblock, a missing parenthesis included |
| `Shell.Parsepipe` | sh.c:361-372 | so does parsepipe |
| `Shell.Parseline` | sh.c:344-359 | so does parseline; the parser ends on every input |
| `Shell.Nulterminate` | sh.c:448-493 | the buffer changes exactly where a word of the tree ends, to NUL |
| `Shell.WordsExact` | sh.c:448-493 | no word ends inside another, so each keeps its bytes and reads as exactly its token |
| `Shell.Parsecmd` | sh.c:327-342 | on a buffer holding any C string: the grammar's tree with every word a C string of its own, or its panic with the buffer as it was |
| `Grep.HereStar` | grep.c:90-106 | a starred character denotes any run of it, then the rest of the pattern |
| `Grep.HereOne` | grep.c:92-94 | a plain character or '.' denotes one character, then the rest |
| `Grep.MatchHere` | grep.c:83-95 | true if and only if a prefix of the text, the whole of it under '$', is in the pattern's language |
| `Grep.MatchStar` | grep.c:97-106 | true if and only if some run can be followed by a match |
| `Grep.Match` | grep.c:72-81 | true if and only if some stretch of the text is in the language, from its start under '^' |

## Left out

- Device drivers, boot code, traps, system-call argument fetching, `exec`, console output: hardware and formatting.
- Spinlocks: a critical section is one step, memory ordering and interrupt masking are not modelled.
- Path walking (`namex`, `skipelem`) and the inode cache (`iget`, `ilock`): operations start from the inodes a path led to, and the references a lookup holds for a moment are not counted.
- Directory contents as bytes of the directory's file: `Links` and `Sysfile` keep entries as a sequence of slots, so running out of disk blocks in `dirlink` is not modelled.
- `sys_open`, `fileread`, `filedup` and `fileclose`: file descriptors and their reference counts are not modelled, so neither is when a file's last reference goes.
- Timing statistics of processes and the reporting calls that print them.
- `kinit`, `freerange`, `inituvm`, `loaduvm`, `clearpteu`, `uva2ka`, `copyout`: how the pool is first filled, how a program is loaded, and the kernel's access to user memory are not modelled.
- `runcmd` and the shell's loop, and grep's reading loop: running processes and buffered input.
- 32-bit overflow of pids and link counts: bounded by hypothesis.
- BufferCache: `iderw` is one atomic action, so a buffer is never seen half read.
- FileSystem.Volume.Writei: a disk that fills up in the middle ends the model there, as the source panics; what was written by then is not described.
- Processes: a process that `fork` gives up on leaves its slot free in one step; its stack and memory are in `Vm`'s terms not tied to it.
- Durability.WriteSurvives: the write has its transactions to itself, as when no other operation joins their commits; that commits of several operations are atomic too is `Journal.CrashRecovers`, block by block.
- Journal: a `bget` panic ends a run (`LogSpace.BgetIff` says when), and recovery writes the disk directly instead of through the cache.
- Umalloc.Allocator.Malloc: sizes of more than 0x7FFFFFF0 bytes are not described beyond `AskedIff`, and the bytes of a block are not modelled, only which units belong to whom.
- Umalloc.Allocator.Morecore: the same sizes, for which `sbrk` is asked for something else than the chunk, are not described.
