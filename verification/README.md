# A model of the xv6 kernel and user library, with two user-space lock protocols and a fiber scheduler

The system under `signal/alarm` is an xv6 kernel with its file system, virtual memory, processes, pipes, and the user
programs `sh`, `grep` and the `malloc` library. `atomic/seqlock`, `atomic/rwlock` and `fibers/fibers` hold two lock
protocols and a scheduler of cooperative fibers. The project models the parts of these where a mistake is hardest to
see, and proves what each of them is for.

Methods with loops follow the C functions of the same name statement by statement. Where the C code relies on
interleaving (the log, sleeplocks, process exit, pipes, the two lock protocols, fibers) the model is a state machine
over its atomic steps, and the theorems speak of every run of it. A pointer into a fixed table or a string is an
index; memory the kernel or a program hands out is a map from addresses; `panic` halts, and is a false `ok` or a
result of its own.

## The storage stack

- `Bytes` has 512-byte blocks with the words and bits the kernel reads out of them.
- `LogSpec`, `Log`, `LogRuns`, `LogFollows` and `LogSpace` are the redo log. A block write is one step, and a crash may
  come between any two. `LogSpec.CrashAtomicity` is the promise: crash during a commit, crash again any number of times during
  recovery, and what the last recovery leaves is the old contents or the new, whole. `LogRuns` extends this to every
  interleaving of operations with group commit, and `LogFollows` shows that the code takes those steps; `LogSpace` is
  about the reservation that keeps the log from filling up.
- `Memide`, `BufferRing` and `Bio` are the buffer cache over the disk in memory. `LogCache` shows that what the log
  takes for granted, a dirty copy of a block or else the disk, is what this cache gives its callers.
- `FsSpec`, `FsSteps`, `FsWrite`, `FsRead`, `Fs`, `File` and `FsRuns` are the bitmap allocator, the block map of an
  inode, reading and writing, truncating and freeing. `own` says for every block in use which slot of which inode
  holds it; it is ghost, and `FsSpec.OwnershipIsUnique` says the same without it. `FsSpace` counts: blocks that leave
  the bitmap turn up in the inode, so an operation runs out of blocks exactly when it needs more than are free at its
  start. `Mkfs` builds the initial image, and says which files fit in it.
- `FsCrash` puts the file system on the log. From the image of `mkfs`, any schedule of transactions, operations, block
  writes, panics, crashes and recoveries goes through states each of which follows from the one before by its command
  (`FsCrash.Stepped`), and from each of which recovery leaves a consistent file system: the result of exactly the
  operations whose group reached the disk, in order (`FsCrash.Run`, `FsCrash.FromMkfs`).

## Memory

- `UmallocSpec` and `Umalloc` are the circular free list of `malloc`. An address counts headers; `own` gives for every
  unit obtained from `sbrk` the block it belongs to. `Sbrk` has the sizes that `sbrk` computes with, in 32 bits.
- `VmSpec`, `VmSpace` and `Vm` are the page free list and the two-level page tables kept in the same pages. A page is
  named by its physical page number; `role` gives for every page of the pool who holds it. `VmSpace` counts the pages
  and tables a mapping takes: memory runs out exactly when the free list is shorter than that.

## Concurrency

- `Sleeplock` and `SleeplockEnds`, `Seqlock` and `Rwlock` are the locks: exclusion, no lost wakeup, consistent
  snapshots, and that every call that has started comes to its end.
- `Proc`, `ProcWait`, `ProcKill`, `ProcSleep` and `ProcEnds` are the process table under `fork`, `exit`, `wait`,
  `kill`, `sleep`, `wakeup` and the scheduler: who is reaped, woken and killed, what `wait` answers, and that the calls
  end.
- `PipeSpec` is one stretch of a pipe operation under the pipe's lock, and runs of them; `PipeCalls` is whole calls, cut
  up by sleeping; `PipeBuffer` is the code on the pipe's array.
- `FiberQueue` and `Fiber` are the fibers' round robin and the circular list that does it.

Any number of processes, threads, fibers, protected words and runs; atomic operations and fences are sequentially
consistent steps.

## Languages

- `ShellSpec`, `ShellGrammar`, `ShellPrint` and `Shell` are the command parser. It accepts exactly the lines of a
  grammar over tokens, and builds the one tree the grammar gives (`ShellGrammar.ParsesExactly`); it inverts a printer,
  terminates, and never writes inside a word.
- `Grep` is the regular expression matcher, proved equal to the language of the expression.

## Where the code does not meet what one would expect of it

Each is proved, with the exact condition.

- `log_write` tests for a full log before it looks for the block in the log. A transaction that fits can panic: if
  operations use all ten of their blocks the log can be full, and logging a block again panics although it would be
  absorbed. With n blocks to an operation the log can come to hold 10 + 2n, and `log_write` never panics exactly when
  that is below both `LOGSIZE` and `log.size - 1` (`LogSpace.AllBlocksSafeIff`); on blocks new to the operation,
  exactly when it does not exceed them (`LogSpace.NewBlocksSafeIff`). `mkfs.c:25` makes `log.size` equal to `LOGSIZE`:
  nine blocks are safe, ten are not.
- `mkfs` rounds the size of the root directory up past its last block when it already ends on a block boundary, which
  leaves a hole: exactly when the number of files plus two is a multiple of 32 (`Mkfs.MakeFs`, `Mkfs.RootRounded`), as
  with thirty empty files (`Mkfs.RootWithHole`). `readi` then allocates a block for the hole and the inode is not saved:
  the block is lost to the disk. Reading the root of a fresh image leaves the disk consistent exactly when there is no
  hole (`FsRuns.ReadRoot`).
- `malloc` keeps its promise, a block with room for what was asked in memory that `sbrk` granted, exactly below
  `2^31 - 15` bytes (`UmallocSpec.PromiseIff`). Above `2^32 - 8` the rounding wraps and the block is too small
  (`UmallocSpec.RoomIff`). In between, `morecore` passes `sbrk` a number that is negative or zero as an int
  (`Sbrk.HonestIff`): at `2^32 - 8` bytes `sbrk` grants nothing and reports success (`UmallocSpec.AsksForNothing`), and
  a page less takes a page away from the top of the heap (`UmallocSpec.AsksForLess`).
- `growproc` that reports an error leaves the process its size and pages, except exactly when the process gives up its
  last byte: the pages are gone and the size is as before (`Sbrk.FailedShrinkIff`; a process of one page:
  `Sbrk.FailedShrink`). `Vm.Memory.Growproc` is the same for the page tables.
- `kill` compares pids whatever the state of a slot, a free slot has pid 0 or that of a fork that failed, and
  `allocproc` does not clear the mark. A process is marked exactly when somebody has called `kill` with its pid, or
  `fork` took a slot for it that was marked while free (`ProcKill.KilledIff`); `kill(0)` and a `fork` do it
  (`ProcKill.BornKilled`).
- `pipewrite` that gives up on a full pipe does not wake the readers it has stored bytes for. A wakeup is lost exactly
  when a reader sleeps, more than 512 bytes are left to write, and the writer is killed or the read end closed
  (`PipeSpec.LostExactly`, `PipeSpec.LostWakeup`).

## Model

| member | source | states |
|---|---|---|
| LogSpec.HeaderRoundTrip | signal/alarm/log.c:84-113 | A header written by write_head is read back by read_head: the count and every block number, whatever else the block held |
| LogSpec.RecoverAnyPrefix | signal/alarm/log.c:68-124 | A recovery cut short after any number of installed blocks, run again, gives the same disk as one run to the end |
| LogSpec.CommitCrashAtomic | signal/alarm/log.c:161-202 | A crash after any single block write of commit recovers to the contents before the transaction or to all of it |
| LogSpec.CommitCompletes | signal/alarm/log.c:191-202 | A commit that runs to the end leaves every logged block with the transaction's data, all other blocks as they were, and an empty log |
| LogSpec.CrashChainRecovers | signal/alarm/log.c:116-124 | Any number of crashes inside recoveries, one after another, does not change what recovery ends with |
| LogSpec.CrashAtomicity | signal/alarm/log.c:68-202 | Crash at any write of commit, then any number of times in recover_from_log: every block outside the log ends with its old value or the transaction's, all of them alike |
| Log.Log.WriteLog | signal/alarm/log.c:161-176 | Logged block i of the cache reaches log slot i, and the disk passes through exactly the states in between |
| Log.Log.WriteHead | signal/alarm/log.c:101-114 | The header block on disk lists the logged blocks; one write |
| Log.Log.InstallTrans | signal/alarm/log.c:69-82 | Log slot i is copied to its home block for every i, one write each |
| Log.Log.ReadHead | signal/alarm/log.c:85-96 | The header in memory is what the header block says |
| Log.Log.RecoverFromLog | signal/alarm/log.c:116-123 | The disk ends as recovery of what it was, passing through the states of a recovery |
| Log.Log.Commit | signal/alarm/log.c:191-202 | The writes of a commit happen in the order that crash atomicity is proved for, and the log in memory ends empty |
| Log.Log.BeginOp | signal/alarm/log.c:126-141 | The operation joins exactly when no commit is running and its ten blocks still fit |
| Log.Log.LogWrite | signal/alarm/log.c:213-233 | The block is in the header once, its new data is kept dirty in the cache, and the call is refused exactly on the two panics |
| Log.Log.Leave | signal/alarm/log.c:150-163 | Counts the operation out; the last one bars others from beginning until its commit is over |
| Log.Log.EndOp | signal/alarm/log.c:145-176 | The last operation out commits the whole group; any other only leaves |
| LogRuns.StepKeeps | signal/alarm/log.c:126-202 | Each step of operations, commit, crash and recovery keeps the invariant that ties disk, cache, header and history together |
| LogRuns.CommitExcludesOperations | signal/alarm/log.c:126-176 | In every run, while a commit runs no operation is outstanding |
| LogRuns.OneGroupPerOperation | signal/alarm/log.c:126-233 | In every run, all the blocks one operation logs are committed together |
| LogRuns.CrashAnywhere | signal/alarm/log.c:116-202 | In every run, crashing at any step and recovering gives the initial contents plus exactly the groups whose header reached the disk, in order |
| LogRuns.DurableIsForever | signal/alarm/log.c:191-202 | A group that has become durable stays so, through every later crash |
| LogRuns.ReturnedIsDurable | signal/alarm/log.c:145-202 | In every run, once the last end_op of a group has returned, the group is durable if it logged anything, and stays so through every later crash |
| LogRuns.DiskLoopsNeverStick | signal/alarm/log.c:68-202 | In every run the next disk write of a commit or recovery in progress can be taken, and lies inside the disk |
| LogFollows.CommitFollows | signal/alarm/log.c:145-202 | The last end_op is, in LogRuns, the end of the operation, the block writes of commit one by one, through the same disks, and the close |
| LogFollows.RecoverFollows | signal/alarm/log.c:116-124 | recover_from_log is reading the header and the block writes of a recovery one by one, through the same disks |
| LogFollows.Follow | signal/alarm/log.c:126-233 | Each call of begin_op, log_write and end_op leaves the log in memory and on disk as the steps of LogRuns do, and is refused exactly when the step is; the last end_op is EndOp, its block writes with every disk in between, and Close |
| LogFollows.Boot | signal/alarm/log.c:116-124 | So does recover_from_log at boot: ReadHead, then its block writes with every disk in between |
| LogSpace.LogFits | signal/alarm/log.c:126-141 | If every operation logs at most ten blocks, no interleaving takes the log past LOGSIZE |
| LogSpace.RoomLeft | signal/alarm/log.c:126-141 | Blocks in the log and what active operations may still log are never more than 10 + 2n |
| LogSpace.NewBlocksSafeIff | signal/alarm/log.c:218-219 | With at most n blocks to an operation the too-big panic is unreachable on blocks new to the operation exactly when 10 + 2n does not exceed LOGSIZE and log.size - 1 |
| LogSpace.AllBlocksSafeIff | signal/alarm/log.c:218-230 | It is unreachable altogether exactly when 10 + 2n is below both; with the log mkfs makes, exactly below ten blocks to an operation |
| Bytes.SetWordGet | signal/alarm/fs.c:390-394 | Storing a word in a block changes that word and no other |
| Bytes.BitLaws | signal/alarm/fs.c:66-68 | Setting or clearing a bit of a bitmap byte changes that bit and no other |
| FsSpec.DinodeRoundTrip | signal/alarm/fs.c:222-237 | An inode written as words is read back as it was |
| FsSpec.PutInodeGet | signal/alarm/fs.c:222-237 | Writing one inode changes that inode on disk and no other in its block |
| FsSpec.WriteBitBits | signal/alarm/fs.c:88-93 | Writing one bitmap bit changes that block's bit and no other |
| FsSpec.OwnershipIsUnique | signal/alarm/fs.c:57-96 | No block is held in two slots, and a bit is set exactly for metadata and held blocks |
| FsSteps.AssignAddr | signal/alarm/fs.c:379-389 | Giving a fresh block to an empty direct slot or as indirect block keeps ownership, all other slots and all data |
| FsSteps.AssignWord | signal/alarm/fs.c:390-394 | The same for an entry of the indirect block |
| FsSteps.DataWrite | signal/alarm/fs.c:499-505 | Changing a data block changes no slot, bit or inode |
| FsSteps.FreeSlot | signal/alarm/fs.c:415-431 | A slot that is not empty has its bit set, so freeing it does not panic, and frees exactly its block |
| FsSteps.Truncated | signal/alarm/fs.c:409-436 | After all slots are freed and cleared, ownership is consistent without that inode's blocks, and other inodes are untouched |
| FsSteps.OthersContent | signal/alarm/fs.c:373-436 | An operation on one inode leaves the contents of every other file as they were |
| FsSteps.QuietAgain | signal/alarm/fs.c:222-237 | An operation that saves its own inode and leaves the others ends with the disk consistent and no file with a hole |
| FsSteps.LoggedInode | signal/alarm/fs.c:222-237 | Saving an inode changes only the block it logs, which lies past the log |
| FsWrite.WritingStep | signal/alarm/fs.c:499-505 | One turn of writei's loop: the bytes written so far read back, the rest of the file and other files stay, and the blocks logged are counted |
| FsWrite.WritingEnd | signal/alarm/fs.c:507-510 | At the end the file is its old contents overwritten, mapped throughout, and the inode on disk is current |
| FsSpace.Conserved | signal/alarm/fs.c:56-96 | Conservation: over any operation on one inode, free blocks and the blocks the inode holds add up to the same |
| FsSpace.EnoughLeft | signal/alarm/fs.c:374-401 | A write that went through found at least as many free blocks as empty slots it needs, and took just those |
| FsSpace.TooFew | signal/alarm/fs.c:374-401 | One that got stuck at a block, having taken the indirect block or not, found fewer at its start |
| Fs.FileSystem.Balloc | signal/alarm/fs.c:56-78 | The lowest free block, now marked and zeroed; it fails exactly when every bit is set |
| Fs.FileSystem.Bfree | signal/alarm/fs.c:81-96 | Clears the block's bit; panics exactly when it was clear |
| Fs.FileSystem.GiveAddr | signal/alarm/fs.c:379-389 | A direct slot, or the indirect block, goes from empty to a fresh zeroed block; ownership stays consistent, all else stays, and every block changed is logged |
| Fs.FileSystem.GiveWord | signal/alarm/fs.c:390-395 | The same for an entry of the indirect block |
| Fs.FileSystem.Bmap | signal/alarm/fs.c:374-401 | The block of the slot, allocated if empty; data, other slots and other inodes stay; exactly the empty slots on the way are filled; an allocated slot allocates nothing; it fails only past the last slot, or with no block free and the slot still empty |
| Fs.FileSystem.Iupdate | signal/alarm/fs.c:222-237 | The inode on disk is the one in memory |
| Fs.FileSystem.ReadBlocks | signal/alarm/fs.c:470-475 | The loop of readi reads what the file has, holes as zeroes, and fills them; it ends exactly when there are blocks for the holes |
| Fs.FileSystem.WriteBlocks | signal/alarm/fs.c:499-505 | The loop of writei puts the bytes where WritingEnd wants them, and logs every block it changes; it ends exactly when there are blocks for the empty slots |
| Fs.FileSystem.ReadChunk | signal/alarm/fs.c:471-474 | One turn of readi's loop reads the next chunk, or there are too few blocks for the whole read |
| Fs.FileSystem.WriteChunk | signal/alarm/fs.c:500-504 | One turn of writei's loop writes the next chunk, or there are too few blocks for the whole write |
| FsRead.ReadStep | signal/alarm/fs.c:470-475 | One turn of readi's loop, on a file with holes too: what was read is what the file had, no byte of any file changes, and the hole is filled |
| FsRead.SavedIff | signal/alarm/fs.c:374-401 | After reads of a saved inode some ownership is consistent with the inodes on disk exactly when they gave it no address it keeps in memory only |
| Fs.FileSystem.Readi | signal/alarm/fs.c:454-477 | Returns contents[off..min(off+n, size)], holes as zeroes; -1 past the end or on wrap-around; changes no byte, and on a file without holes nothing at all; panics exactly when there are fewer free blocks than holes to fill, or past the largest file; a device answers as its driver does |
| Fs.FileSystem.Writei | signal/alarm/fs.c:483-512 | Turns contents c into c[..off] + src + c[off+n..], sets the size to the larger of old and off+n, keeps the file mapped and other files alone, and logs exactly what it changes, a bounded number of blocks; panics exactly when there are fewer free blocks than empty slots in the range; a device answers as its driver does |
| Fs.FileSystem.Itrunc | signal/alarm/fs.c:409-436 | Frees exactly the inode's blocks, never a free one, and leaves it empty on disk |
| Fs.FileSystem.Ilock | signal/alarm/fs.c:288-313 | The copy in memory is the inode on disk; panics exactly on a free inode |
| Fs.FileSystem.Ialloc | signal/alarm/fs.c:196-215 | Claims the first free inode, empty and of that type; fails exactly when there is none |
| Fs.FileSystem.Iput | signal/alarm/fs.c:333-353 | Frees the inode and its blocks exactly when this was the last reference to an inode without links |
| File.IterationFits | signal/alarm/file.c:127-138 | Data, bitmap, indirect and inode blocks of one iteration are at most MAXOPBLOCKS |
| File.OverwriteAppend | signal/alarm/file.c:135-152 | Writing in pieces is writing the whole |
| File.StopsOnce | signal/alarm/file.c:135-151 | There is one byte at which a write to a device stops: the first piece not answered with its own length, or the end |
| File.PieceSaid | signal/alarm/file.c:142-151 | One piece answered: the write goes on after it, or ends there as Filewrite says |
| File.Filewrite | signal/alarm/file.c:118-153 | The file is overwritten by what was written however it was cut, the offset advances by as much, each transaction logs at most MAXOPBLOCKS blocks. For a device, in terms of what its driver answers to the pieces: n exactly when each piece is answered with its own length, -1 exactly when the first answered otherwise gets a negative number or there is no driver, a panic exactly when that answer is another length; the offset advances by all positive answers |
| FsRuns.RunOp | signal/alarm/fs.c:196-512 | Create, write, read and put each take a consistent disk to a consistent disk, do to their own file what they are for, leave every other alone, log every block they change, and panic exactly when the disk they find has no free inode, a free inode in that place, or too few free blocks |
| FsRuns.RunOps | signal/alarm/fs.c:196-512 | So does every sequence of them: each does its work on what the one before left, every disk in between is consistent, and the sequence stops exactly at an operation that panics on the disk it finds |
| FsRuns.FromMkfs | signal/alarm/mkfs.c:67-168 | From a fresh image with the files in it, after each operation of every sequence: no block in two slots, and the set bits are exactly metadata and held blocks |
| FsRuns.ReadRoot | signal/alarm/mkfs.c:158-163 | Reading the root directory of any fresh image gives its entries, and leaves the disk consistent exactly when (files + 2) % 32 != 0; otherwise it panics exactly when the image has no block left |
| FsCrash.QuietHome | signal/alarm/mkfs.c:68-80 | The file system does not depend on the log area |
| FsCrash.LogKeeps | signal/alarm/log.c:126-202 | Every step of commit, crash and recovery keeps file system and log together: the open group's operations become durable all at once, or are gone |
| FsCrash.Operate | signal/alarm/fs.c:196-512 | A file-system operation inside a transaction finds what the cache shows and shows through the cache as what it does to that; it fails only by its own panic on what it found or log_write's, and then loses no durable operation |
| FsCrash.Perform | signal/alarm/log.c:68-233 | One command of a schedule: the log step if it is possible, the call in its transaction, or its panic and a restart |
| FsCrash.Restarts | signal/alarm/log.c:54-66 | A machine that panicked in the middle of an operation starts again from the durable operations |
| FsCrash.Run | signal/alarm/log.c:68-233 | Any schedule of transactions, operations, block writes, panics, crashes and recoveries: every state follows from the one before by its command, and recovery from each gives a consistent file system, the result of exactly the durable operations in order, whole transactions only |
| FsCrash.FromMkfs | signal/alarm/mkfs.c:67-168 | The same from the image mkfs makes of any files that fit, booted |
| Mkfs.Maker.Ialloc | signal/alarm/mkfs.c:224-235 | The next inode, empty, on disk, as long as there is one |
| Mkfs.Maker.Iappend | signal/alarm/mkfs.c:256-297 | The bytes are appended to that file; every other file stays; exactly the blocks the longer file takes more are used up; fails exactly when the file would be too long or they are too many |
| Mkfs.Maker.AppendChunk | signal/alarm/mkfs.c:267-295 | One turn of its loop appends the next chunk, or the whole append needs more blocks than there are |
| Mkfs.Maker.AppendAll | signal/alarm/mkfs.c:153-154 | The chunks of one file, appended one by one, exactly when the whole file fits |
| Mkfs.ExactIs | signal/alarm/mkfs.c:256-297 | A file of n bytes holds one block for each 512 bytes begun and, past twelve, the indirect block |
| Mkfs.SuperRoundTrip | signal/alarm/mkfs.c:94-114 | The superblock sector reads back as the layout the kernel and the log go by |
| Mkfs.Maker.Balloc | signal/alarm/mkfs.c:238-251 | Exactly the bits of the blocks used so far are set |
| Mkfs.Maker.AddFile | signal/alarm/mkfs.c:130-156 | The file's chunks become its contents, and its entry is appended to the root directory, exactly when there are an inode and blocks for both |
| Mkfs.RootRounded | signal/alarm/mkfs.c:158-163 | Rounding up the root's size leaves it without a hole exactly when the size was not a multiple of the block size |
| Mkfs.MakeFs | signal/alarm/mkfs.c:67-168 | Exactly when inodes and blocks suffice for the files and the root directory, there is an image: it has its superblock and an empty log, is consistent, has exactly the blocks left over free, holds every file's bytes and the directory entries, and is without holes exactly when (files + 2) % 32 != 0 |
| Mkfs.EmptyFiles | signal/alarm/mkfs.c:67-168 | Any number of empty files up to the last inode fits |
| Mkfs.RootWithHole | signal/alarm/mkfs.c:158-163 | Thirty empty files give an image whose root directory has a hole |
| Memide.StoreGet | signal/alarm/memide.c:52-58 | Storing block n at its offset changes block n and no other |
| BufferRing.Unlinked | signal/alarm/bio.c:132-133 | Unlinking a buffer leaves both directions of the ring going over the others in order |
| BufferRing.Pushed | signal/alarm/bio.c:134-137 | Linking it after the head puts it first in both directions |
| Bio.Cache.constructor | signal/alarm/bio.c:39-56 | Every buffer is in the ring once, and holds nothing |
| Bio.Cache.Bget | signal/alarm/bio.c:62-93 | A cached block's one buffer is pinned; else the least recently released buffer that is unpinned and not dirty is taken; none only if all are pinned or dirty |
| Bio.Cache.LockRead | signal/alarm/bio.c:97-106 | The locked buffer has the data last left in its block |
| Bio.Cache.Iderw | signal/alarm/memide.c:39-60 | A dirty buffer is on the disk afterwards, an invalid one has the disk's data |
| Bio.Cache.Modify | signal/alarm/log.c:208-212 | The holder of a buffer may change its data without the cache losing the block |
| Bio.Cache.MarkDirty | signal/alarm/log.c:231-231 | A dirty buffer stays with its block |
| Bio.Cache.Bwrite | signal/alarm/bio.c:110-116 | The block is on the disk, no other block changed |
| Bio.Cache.Unlock | signal/alarm/bio.c:121-126 | From here on the block's last data is the buffer's |
| Bio.Cache.Unpin | signal/alarm/bio.c:128-141 | The last one out makes the buffer the most recently released; the others keep their order |
| Bio.LeastRecent | signal/alarm/bio.c:81-91 | The first unused buffer from the back of the ring is the least recently released of all unused |
| Bio.UnlockOk | signal/alarm/bio.c:121-126 | Releasing a buffer that was logged or written keeps cache, disk and last data coherent |
| Bio.Reuse | signal/alarm/bio.c:82-87 | Taking an unused buffer for another block loses nothing: what it held is on the disk |
| LogCache.ShownIsLatest | signal/alarm/bio.c:97-106 | What was last left in a block nobody works on is its dirty copy, or else what the disk has |
| LogCache.Bread | signal/alarm/bio.c:97-106 | bread gives that, and changes neither dirty copies nor the disk; it panics exactly when no buffer has the block and all are pinned or dirty |
| LogCache.Brelse | signal/alarm/bio.c:118-142 | The buffer is unlocked and pinned once less, its data becomes the dirty copy if it is dirty, and no other buffer changes |
| LogCache.Read | signal/alarm/log.c:85-96 | Reading a block gives Log's Bread, and leaves both views and how often each buffer is pinned as they were |
| LogCache.ReadAll | signal/alarm/bio.c:60-106 | With one buffer unused, any number of reads of any blocks never run out of buffers |
| LogCache.LogWrite | signal/alarm/log.c:208-233 | A block changed, logged and released has a dirty copy with the new data, as in Log.LogWrite, and no buffer is left pinned more or less often |
| LogCache.Write | signal/alarm/log.c:69-82 | A block changed, written and released is on the disk and has no dirty copy, as in Log.Bwrite, and no buffer is left pinned more or less often |
| UmallocSpec.Apart | signal/alarm/umalloc.c:24-90 | Two blocks, live or free, never overlap |
| UmallocSpec.UpperKeeps | signal/alarm/umalloc.c:33-37 | Absorbing the block above, or pointing to it, keeps ring and blocks right, and no live block but the freed one is touched |
| UmallocSpec.LowerKeeps | signal/alarm/umalloc.c:38-42 | Being absorbed by the block below, or linked after it, gives one address-ordered ring with no two free blocks touching |
| UmallocSpec.GrantedKeeps | signal/alarm/umalloc.c:54-59 | Units from sbrk join the heap as a block of their own |
| UmallocSpec.TakeAllKeeps | signal/alarm/umalloc.c:76-77 | An exact fit leaves the ring whole |
| UmallocSpec.TakeTailKeeps | signal/alarm/umalloc.c:78-82 | Cutting off a block's end gives a live block disjoint from every other |
| UmallocSpec.RoomIff | signal/alarm/umalloc.c:69-69 | The block has room for the bytes asked for, and less than a unit to spare, exactly when the rounding does not wrap |
| UmallocSpec.PromiseIff | signal/alarm/umalloc.c:54-69 | The block has room and sbrk grants or refuses honestly, both, exactly below 2^31 - 15 bytes |
| UmallocSpec.AsksForNothing | signal/alarm/umalloc.c:54-54 | At 2^32 - 8 bytes sbrk is asked for 0 and succeeds |
| UmallocSpec.AsksForLess | signal/alarm/umalloc.c:54-54 | A page less, and sbrk shrinks the process and succeeds |
| Sbrk.HonestIff | signal/alarm/proc.c:165-181 | Up to 2^32 bytes sbrk adds what is needed or refuses and changes nothing exactly when that is positive as an int; otherwise the block asked for runs past the process |
| Sbrk.RefusedIff | signal/alarm/proc.c:165-181 | It refuses exactly at KERNBASE or when allocuvm finds no memory |
| Sbrk.FailedShrinkIff | signal/alarm/proc.c:165-181 | A growproc that reports an error has changed nothing except exactly when the process gives up its last byte; then its pages are gone |
| Sbrk.FailedShrink | signal/alarm/proc.c:165-181 | A process of one page that gives it up is told of an error |
| UmallocSpec.UnitsPartition | signal/alarm/umalloc.c:24-90 | Every unit obtained from sbrk is in exactly one block, live or free |
| UmallocSpec.PayloadIsPrivate | signal/alarm/umalloc.c:84-84 | Whatever a program writes in its block leaves the allocator's state right |
| Umalloc.Allocator.FindBelow | signal/alarm/umalloc.c:30-32 | The search ends, at the last free block below the one freed |
| Umalloc.Allocator.JoinAbove | signal/alarm/umalloc.c:33-37 | The first if of free does what UpperKeeps is about |
| Umalloc.Allocator.JoinBelow | signal/alarm/umalloc.c:38-42 | The second if of free does what LowerKeeps is about |
| Umalloc.Allocator.Free | signal/alarm/umalloc.c:25-44 | The block is no longer live, lies in one free block, and every other live block and the heap stay |
| Umalloc.Allocator.Morecore | signal/alarm/umalloc.c:47-61 | The break moves by the chunk, which becomes part of a free block that big; or sbrk refuses and nothing changes; what sbrk grants is not what is needed exactly from 2^31 bytes on |
| Umalloc.Allocator.Take | signal/alarm/umalloc.c:75-84 | A fit becomes a live block of exactly that size, at an address that was not live |
| Umalloc.Allocator.Malloc | signal/alarm/umalloc.c:64-90 | The search ends; a new live block of the size asked for; the heap grows exactly when nothing fitted, and the call fails exactly when then sbrk refuses |
| VmSpec.UsersDisjoint | signal/alarm/vm.c:221-249 | No two user translations share a page, and none points to a free page |
| VmSpec.TakeCore | signal/alarm/kalloc.c:82-95 | Taking a page from the list changes no translation |
| VmSpec.PutCore | signal/alarm/kalloc.c:60-77 | Returning a data page, filled with junk, changes no translation |
| VmSpec.NewTableCore | signal/alarm/vm.c:45-52 | A new zeroed table page changes no translation |
| VmSpec.SetPteCore | signal/alarm/vm.c:71-73 | Writing one entry changes that translation and no other, in any space |
| VmSpec.TableFreed | signal/alarm/vm.c:291-295 | Freeing a directory's tables one by one disturbs no other space |
| VmSpec.DirFreed | signal/alarm/vm.c:297-297 | Freeing the directory last leaves everything consistent |
| VmSpec.GrownThenUnmapped | signal/alarm/vm.c:235-245 | Growing and undoing it leaves translations and user pages as they were |
| VmSpace.TookThen | signal/alarm/vm.c:36-80 | Pages and tables taken in two stages are those of both together, a table they share counted once |
| VmSpace.TookShort | signal/alarm/vm.c:233-247 | A growth that stops at a page had fewer free pages at its start than pages to add and tables missing |
| Vm.Memory.Kfree | signal/alarm/kalloc.c:60-77 | The page is first in the list, its words overwritten |
| Vm.Memory.Kalloc | signal/alarm/kalloc.c:83-95 | The first page of the list, or 0 exactly when the list is empty |
| Vm.Memory.constructor | signal/alarm/kalloc.c:26-45 | Before kinit1 the page-table invariant holds with nothing free |
| Vm.Memory.Freerange | signal/alarm/kalloc.c:47-53 | Exactly the whole pages of the range become free; the page-table invariant and all translations stay |
| Vm.Memory.Growproc | signal/alarm/proc.c:165-181 | The process's size and its pages become what Sbrk says, with enough memory exactly when the free list covers the pages and the missing tables; no other address space changes |
| Vm.Memory.Walkpgdir | signal/alarm/vm.c:36-55 | The table for the address; made if asked for, with no translation changed and one page taken; 0 exactly when there is none and none can be made |
| Vm.Memory.MakeTable | signal/alarm/vm.c:44-53 | A zeroed page becomes that table and no other entry of the directory changes |
| Vm.Memory.Mappages | signal/alarm/vm.c:61-80 | The range maps to consecutive physical pages and only its translations change; it takes just the missing tables; out of memory, exactly when they are more than the free pages, leaves a mapped prefix; it panics exactly on a page already mapped |
| Vm.Memory.Unmap | signal/alarm/vm.c:269-276 | One page unmapped and free, nothing else |
| Vm.Memory.Deallocuvm | signal/alarm/vm.c:256-279 | Exactly the pages between the two sizes are unmapped and freed; jumping to the next table skips no mapped page |
| Vm.Memory.AllocOne | signal/alarm/vm.c:234-246 | One fresh zeroed page mapped, or every translation as it was and too few pages for it and its table |
| Vm.Memory.GiveUp | signal/alarm/vm.c:237-245 | The undo of a failed growth takes back every page mapped so far and the one in hand |
| Vm.Memory.Allocuvm | signal/alarm/vm.c:222-249 | Each page of the growth is fresh, zeroed and its own exactly when the free list covers them and the missing tables; otherwise the user translation is what it was |
| Vm.Memory.Freevm | signal/alarm/vm.c:284-298 | Every page of the space is free, each returned once, and no other page or translation changed |
| Vm.Memory.FreeTables | signal/alarm/vm.c:291-296 | All tables of the directory are free, and nothing else |
| Vm.Memory.Setupkvm | signal/alarm/vm.c:118-136 | A directory that maps what kmap says and nothing else; it fails exactly with fewer free pages than the directory and the tables for PHYSTOP and the devices, and then every page is back where it was |
| Vm.RowsCount | signal/alarm/vm.c:105-114 | The four rows of kmap take ceil(PHYSTOP / 4 MB) + 8 tables |
| Sleeplock.StepKeeps | signal/alarm/sleeplock.c:22-42 | Every step of acquiring, sleeping, waking, releasing and killing keeps both spinlocks, the owner and the sleepers consistent |
| Sleeplock.MutualExclusion | signal/alarm/sleeplock.c:22-42 | In every run at most one process holds the lock, and pid names it |
| Sleeplock.NoLostWakeup | signal/alarm/proc.c:433-490 | In every run, with the inner spinlock free and the lock not held, nobody sleeps on it |
| Sleeplock.SleeperIsOwed | signal/alarm/sleeplock.c:35-42 | A sleeper is always owed a wakeup, by an owner or by a release that has not yet come to it |
| Sleeplock.OwnerNamed | signal/alarm/sleeplock.c:29-39 | In every run pid names the owner while the lock is held, and nobody while it is not |
| SleeplockEnds.CallsEnd | signal/alarm/sleeplock.c:22-42 | Once no more calls start, the processes take a bounded number of steps, eight more for each kill, and when none can go on with ptable.lock free, all have had the lock and released it |
| SleeplockEnds.BeenOwner | signal/alarm/sleeplock.c:22-32 | acquiresleep returns only to the owner of the lock |
| SleeplockEnds.KilledGoesOn | signal/alarm/proc.c:500-507 | A kill gets a process out of its sleep on the lock |
| Proc.StepKeeps | signal/alarm/proc.c:187-513 | Every step of fork, exit, wait, sleep, yield, kill and the scheduler keeps the process table consistent |
| Proc.NoZombieLeftWaiting | signal/alarm/proc.c:240-328 | In every run, with ptable.lock free, no process asleep in wait has a zombie child |
| Proc.ReapedOnce | signal/alarm/proc.c:289-317 | In every run no pid dies or is reaped twice, only zombies are reaped, and a dead pid is reaped or still in its one slot |
| Proc.ParentsAlive | signal/alarm/proc.c:206-206 | In every run the parent of every process but init is alive, an embryo's as soon as it is set |
| Proc.OneHolder | signal/alarm/proc.c:338-408 | In every run one process at most has ptable.lock, across switches, and live pids are distinct |
| ProcWait.WaitDecides | signal/alarm/proc.c:298-326 | In every run, a scan of wait ends by reaping a zombie child if there is one; else it returns -1 exactly when the caller has no child or is killed, and otherwise sleeps |
| ProcWait.WaitReturns | signal/alarm/proc.c:288-328 | In every run, a whole call of wait, however often it sleeps, returns only with a reaped child, or for want of children, or killed |
| ProcWait.NoKilledWaiter | signal/alarm/proc.c:320-326 | In every run no killed process sleeps in wait |
| ProcEnds.LockComesFree | signal/alarm/proc.c:187-408 | In every run ptable.lock comes free: whoever has it gives it up by a bounded number of its own steps, which nothing stops, and the scheduler drops it |
| ProcEnds.StepsBounded | signal/alarm/proc.c:187-328 | In every run a process in exit, wait or fork is out of the call or switched out after a bounded number of its own steps, whatever others do in between |
| ProcSleep.SleepsUntil | signal/alarm/proc.c:434-458 | In every run a process asleep on a channel stays so until somebody wakes the channel or kills the process |
| ProcSleep.WakesAll | signal/alarm/proc.c:473-490 | wakeup makes all who sleep on the channel runnable, and nobody else |
| ProcSleep.YieldsUntil | signal/alarm/proc.c:402-408 | In every run a process that yields stays runnable until the scheduler picks it |
| ProcSleep.ChanClear | signal/alarm/proc.c:455-461 | In every run a process that goes on after a sleep has no channel any more |
| ProcKill.FoundByItsPid | signal/alarm/proc.c:490-509 | In every run kill of a live process's pid finds its slot and no other has that pid, abandoned slots included |
| ProcKill.ReapedGone | signal/alarm/proc.c:303-313 | In every run a pid that wait has returned is the pid of no slot again |
| ProcKill.KilledIff | signal/alarm/proc.c:73-98 | In every run a process is marked killed exactly when kill was called with its pid or fork took a marked slot for it |
| ProcKill.BornKilled | signal/alarm/proc.c:490-509 | A run in which kill(0) marks a free slot and the process forked into it is born killed |
| PipeSpec.Counters | signal/alarm/pipe.c:85-116 | Full, empty and slot numbers computed from wrapped 32-bit counters are those of the byte counts |
| PipeSpec.FillKeeps | signal/alarm/pipe.c:84-94 | The write loop stores the next bytes in order, as many as there is room for |
| PipeSpec.DrainKeeps | signal/alarm/pipe.c:113-117 | The read loop takes out the oldest bytes, as many as asked for or there are |
| PipeSpec.LostExactly | signal/alarm/pipe.c:84-96 | One stretch of pipewrite leaves a reader asleep with bytes to read exactly when a reader slept, more than 512 bytes were left and the writer gives up |
| PipeSpec.Fifo | signal/alarm/pipe.c:59-121 | In every run the bytes delivered are a prefix of the bytes stored, at most 512 are inside, and the counters say how many |
| PipeSpec.NoLostWakeup | signal/alarm/pipe.c:59-121 | In every run a sleeping writer means full with a reader's end open; a sleeping reader means empty with a writer's end open unless a write gave up as above |
| PipeSpec.LostWakeup | signal/alarm/pipe.c:86-89 | A run in which the reader sleeps on with 512 bytes to read |
| PipeCalls.WholeWrite | signal/alarm/pipe.c:78-98 | In every run the sections of one pipewrite store a prefix of its buffer in order, without gap or repetition, however often it sleeps: all of it exactly when it returns n; it returns -1 only with the pipe full, and killed or without readers |
| PipeCalls.WholeRead | signal/alarm/pipe.c:101-121 | In every run one piperead takes out nothing until it returns, and then the next bytes stored, as many as asked for or there are: none only at the end of the writers; it returns -1 only killed and on an empty pipe |
| PipeCalls.OnlyCallers | signal/alarm/pipe.c:84-117 | Only sections of pipewrite store bytes and only those of piperead take any out |
| PipeCalls.ClosedForGood | signal/alarm/pipe.c:60-70 | In every run an end is open exactly until it is closed, and nobody sleeps waiting for a closed end |
| PipeCalls.KilledReturns | signal/alarm/pipe.c:85-112 | In every run a process killed asleep in the pipe wakes and returns at its next section |
| PipeCalls.SleepersInCalls | signal/alarm/pipe.c:91-111 | In every run only processes in piperead sleep on nread and only those in pipewrite on nwrite |
| PipeCalls.AsleepUntilWoken | signal/alarm/pipe.c:91-111 | In every run a process that goes to sleep in the pipe does not go on until it is woken |
| PipeBuffer.Buffer.Pipewrite | signal/alarm/pipe.c:78-98 | The array and counters in place do what Fifo is about |
| PipeBuffer.Buffer.Piperead | signal/alarm/pipe.c:101-121 | The same for reading; the bytes returned are the next delivered |
| PipeBuffer.Buffer.Pipeclose | signal/alarm/pipe.c:60-75 | Closing an end wakes everybody who waits for it; the page goes back exactly when both ends are closed, and nobody sleeps on it then |
| Seqlock.StepKeeps | atomic/seqlock/seqlock.h:17-39 | Every step of any number of readers and writers keeps the counter's parity and what readers have seen so far right |
| Seqlock.Snapshot | atomic/seqlock/seqlock.h:21-25 | In every run each read of a reader told true, however often it read a word, was of one committed version, the one it started in |
| Seqlock.OddExactly | atomic/seqlock/seqlock.h:27-39 | In every run the counter is odd exactly while a writer is between its increments, there is one writer at most, and the spinlock is taken exactly while there is one |
| Seqlock.VersionsGrow | atomic/seqlock/seqlock.h:34-39 | A committed version is never changed later |
| Seqlock.TrueExactly | atomic/seqlock/seqlock.h:17-25 | A reader is told true exactly when no writer was between its increments as it started and none began before it was done |
| Seqlock.Commits | atomic/seqlock/seqlock.h:27-39 | A writer commits the version before it with its own writes made in order, and nobody writes in between |
| Seqlock.ReadsAsked | atomic/seqlock/seqlock.h:17-25 | A reader has the words it asked for, in order |
| Seqlock.LastAct | atomic/seqlock/seqlock.h:17-39 | In every run a thread is where its own last act left it, whatever others do |
| Rwlock.CountUpdate | atomic/rwlock/rwlock.h:17-33 | One thread's step changes the number of counted threads by its own part in it |
| Rwlock.StepKeeps | atomic/rwlock/rwlock.h:17-43 | Every step, a reader's adding and backing off too, keeps count, flag and exclusion |
| Rwlock.Exclusion | atomic/rwlock/rwlock.h:17-43 | In every run: the count is the number of threads that have added and not subtracted, one writer at most, no reader with a writer |
| Rwlock.DrainedMeansNobody | atomic/rwlock/rwlock.h:35-38 | A writer gets past its wait exactly when no reader is counted |
| Rwlock.CallsEnd | atomic/rwlock/rwlock.h:17-43 | Once no more calls start, the threads take a bounded number of steps beside spinning, and when none can do anything but spin, all calls are over: a draining writer keeps later readers out |
| Rwlock.BeenInside | atomic/rwlock/rwlock.h:17-43 | A thread comes back from its call having been inside, as a writer or a reader as it asked |
| ShellSpec.TokenAt | signal/alarm/sh.c:268-310 | A word token is a whole word, bounded by blanks and symbols; every token but the end moves the cursor on |
| ShellSpec.ReadRedirs | signal/alarm/sh.c:377-399 | Terminates; adds the redirections in order, each with a whole word, until none follows |
| ShellSpec.ReadLine | signal/alarm/sh.c:346-361 | Terminates; every word of the tree is a whole word of the line, and no command has ten |
| ShellSpec.ReadArgs | signal/alarm/sh.c:431-447 | Terminates; collects whole words, nine at most. What it collects, with the redirections among the words, is in ShellGrammar |
| ShellGrammar.TokenMeans | signal/alarm/sh.c:268-310 | Blanks aside, a token is a whole word, >> taken together, or one symbol |
| ShellGrammar.ParsesExactly | signal/alarm/sh.c:330-448 | A line is accepted exactly when its tokens are a line of the grammar with nine words at most to a command, and the tree is the grammar's: words and redirections of a command in any mixture, each redirection around its own command, the first innermost, >> as >; pipes and lists to the right |
| ShellGrammar.OneTree | signal/alarm/sh.c:330-448 | A line has one tree at most |
| ShellGrammar.EveryWord | signal/alarm/sh.c:377-447 | Every word of an accepted line is in the tree, as an argument or a file, exactly as often as it is in the line |
| ShellPrint.ArgsRoundTrip | signal/alarm/sh.c:431-447 | The words of a printed command are read back in order |
| ShellPrint.LineRoundTrip | signal/alarm/sh.c:346-448 | A printed command is read back wherever a line may stop |
| ShellPrint.RoundTrip | signal/alarm/sh.c:329-344 | Parsing what was printed gives the tree back, for every tree with at most nine words to a command |
| Shell.Gettoken | signal/alarm/sh.c:268-310 | The cursor loops find the token of the grammar |
| Shell.Peek | signal/alarm/sh.c:313-322 | Skips blanks and tells whether one of the characters is next |
| Shell.Parseredirs | signal/alarm/sh.c:377-399 | The loop reads the redirections of the grammar, or panics as it does |
| Shell.Parseline | signal/alarm/sh.c:346-361 | The loop and the recursion read the line of the grammar |
| Shell.Parsepipe | signal/alarm/sh.c:364-374 | The same for a pipeline |
| Shell.Parseblock | signal/alarm/sh.c:402-415 | The same for a block in parentheses |
| Shell.Parseexec | signal/alarm/sh.c:418-448 | The same for a simple command |
| Shell.Nulterminate | signal/alarm/sh.c:452-495 | Exactly the characters after the tree's words become NUL |
| Shell.StringIsToken | signal/alarm/sh.c:466-475 | Each word, read as a C string afterwards, is its token: no NUL falls inside a word |
| Shell.Parsecmd | signal/alarm/sh.c:330-344 | The tree of the whole line with every string its token, or a panic with the line as it was |
| Grep.HereCons | signal/alarm/grep.c:85-96 | A list of items matches exactly when the first takes some of the text and the others match the rest |
| Grep.HereStar | signal/alarm/grep.c:99-106 | A starred item takes a run of its characters, of any length |
| Grep.Match | signal/alarm/grep.c:73-82 | True exactly when the expression's language has a word at some position, or at the start after a caret |
| Grep.MatchHere | signal/alarm/grep.c:85-96 | True exactly when some prefix of the text is in the language; terminates |
| Grep.MatchStar | signal/alarm/grep.c:99-106 | True exactly when the rest matches after some run of the character |
| Grep.StarOfNothing | signal/alarm/grep.c:98-105 | Putting a starred character before an expression loses no match |
| Grep.ReadOnce | signal/alarm/grep.c:85-96 | An expression is read as items in the one way there is: a dollar is special at the end only, and a star belongs to the character before it |
| FiberQueue.StepKeeps | fibers/fibers/fiber.c:39-114 | Every spawn, yield, join and return keeps the running fiber unfinished and every fiber queued or freed, not both |
| FiberQueue.FinishedNeverRuns | fibers/fibers/fiber.c:39-46 | In every run a finished fiber never runs again, no fiber is freed twice, and the main fiber stays |
| FiberQueue.AloneIff | fibers/fibers/fiber.c:110-114 | Only the running fiber is left exactly when all others have finished |
| FiberQueue.RoundRobin | fibers/fibers/fiber.c:95-108 | Each switch brings every waiting fiber nearer to the front, and a spawned one comes behind them |
| Fiber.Scheduler.InitMainFiber | fibers/fibers/fiber.c:29-37 | The first call makes a queue of the main fiber; later ones change nothing |
| Fiber.Scheduler.FiberSpawn | fibers/fibers/fiber.c:55-75 | The walk to the tail ends, and the fiber is appended; without a function nothing happens |
| Fiber.Scheduler.FreeFinishedFibers | fibers/fibers/fiber.c:77-93 | Exactly the finished fibers but the running one leave the list, in order, and no freed fiber is touched |
| Fiber.Scheduler.FreeNext | fibers/fibers/fiber.c:82-87 | One fiber leaves the list and the circle closes behind it |
| Fiber.Scheduler.FiberYield | fibers/fibers/fiber.c:95-108 | The queue is swept and then rotated by one |
| Fiber.Scheduler.FiberReturn | fibers/fibers/fiber.c:39-46 | The fiber is marked finished and another runs: the assertion after the yield is not reached |
| Fiber.Scheduler.FiberTryJoin | fibers/fibers/fiber.c:110-114 | 1 exactly when only the running fiber is left after the sweep |
| Fiber.Follow | fibers/fibers/fiber.c:39-114 | Each call on the linked list is an event FiberQueue allows and does what it does there, so what holds in every run holds of the list |

## Left out

- FsRuns.FromMkfs: starts from images without a hole, (files + 2) % 32 != 0; that the guarantee fails on all others is `FsRuns.ReadRoot`.
- FsRuns.ReadRoot: reads inside a transaction. fileread opens none, and there filling the hole would end in log_write's panic "outside of trans".
- FsCrash.Run: a file-system operation makes its log_writes with no other operation's in between, as inode and buffer locks are not modelled; each block it changes is logged once, with its last contents.
- Fs.FileSystem.Ilock: the inode cache and its sleeplocks are not modelled; operations on the file system run one at a time inside their transactions.
- Fs.FileSystem.Readi: a device's driver is a parameter; the bytes it delivers are not modelled.
- Log.Log.LogWrite: the tests, which the code makes before it takes log.lock, and the append are one step. In runs that keep to the reservation the tests pass whenever a new block is appended (`LogSpace.LogFits`), so others' appends in between would not change them.
- Proc.StepKeeps: wakeup on other channels, kill and a scheduler's pass are one step each, under ptable.lock; a process is not cut off between two steps except by the order of steps.
- PipeSpec.NoLostWakeup: sleep gives up the lock and marks the process asleep in one step; that sleep may be taken so is what `Sleeplock.NoLostWakeup` shows of it.
- Umalloc.Allocator.Morecore: the break is a whole number of headers, as exec leaves it; a program that moves it otherwise by sbrk is not modelled. Where sbrk takes the request for another number the model stops.
- Mkfs.MakeFs: fails, where mkfs would write past the inode table or the image, when the files do not fit (`Mkfs.Fits`); names and contents of the files are parameters.
- LogCache.Bread: nobody else has the block's buffer locked; a process that has to wait for one is not modelled here. Other blocks' buffers may be locked.
- Vm.Memory.Allocuvm: the pages of the growth map nothing beforehand, as growproc and exec have it; on others mappages panics. Page contents are modelled; the hardware's page walk, page faults and other CPUs' translations are not.
- Vm.Memory.Deallocuvm: oldsz is at most KERNBASE, as in every call; beyond it the loop would reach the kernel's own mappings.
- Shell.Parseexec: fills argv before it wraps the redirections around the command, where the C code does both at once through pointers; the tree is the same.
- Directories, path names, `stati`, `fileread` and the system calls above them: they would add callers of what is modelled.
- `copyuvm`: it loses a page on one failure path.
- `grep()`, the loop that reads lines: it drops a buffer without a newline, so it is not line splitting.
- `ide.c`, the APICs, the console, `trap.c` with alarm delivery, boot code and all assembly.
- Weak memory: exchanges, locked additions and fences are sequentially consistent steps.
- Fairness: that every call ends is proved of runs in which no more calls start (`SleeplockEnds.CallsEnd`, `Rwlock.CallsEnd`).
- The seqlock counter is unbounded; wrap-around of a 64-bit counter is not modelled.
- malloc failing in FiberSpawn, and the stacks and registers that SwitchFiberContext exchanges.
