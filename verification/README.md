# xv6 wait-queue kernel: a verified model

This project models the parts of the xv6 kernel (with its hash-bucketed wait queue) and of its user level in
which the hard claims are spread over several functions and every interleaving, crash point or heap shape, and
proves those claims. To verify the whole project, use `dafny verify dfyconfig.toml`.

| files | what they model |
|---|---|
| `WaitQueue` | the intrusive bucket lists and the operations on the process table |
| `SleepWakeup`, `SleepInvariant`, `SleepTheorems`, `SleepLocks` | sleep, wakeup, kkill and sleep-locks as a machine over any number of processes, one step per lock operation or list access, in both orders of sleep() |
| `Pipe`, `PipeProtocol` | the ring buffer with its 32-bit counters; one reader and one writer with the lockless test |
| `ExitWait` | kfork, kexit, reparent and kwait as a machine |
| `BufferCache`, `LogRecovery`, `LogCache`, `Journal`, `LogReserve`, `CommitRun` | the buffer cache, the redo log with a crash after any write, log space reservation as a machine, and runs that end in a commit |
| `FsBlocks`, `Inode`, `TightWrite` | block ownership, inodes as byte sequences, exactly what a write logs, and the size of a transaction |
| `DiskImage`, `FileCrash` | how a file system lies on disk, and filewrite and itrunc through the log with a crash after any write |
| `Umalloc` | the K&R allocator |
| `PageTree`, `VmPages`, `AddressSpace` | Sv39 page tables (section 4.4 of the RISC-V Privileged Architecture, version 20211203), the page pool and the size of a process |
| `Virtio` | the disk queue: section 2.6 of Virtio 1.1 with the requests of section 5.2 |
| `ShellParser`, `ShellGrammar`, `ShellRoundTrip` | the shell's tokenizer, recursive-descent parser and nulterminate; the grammar it accepts, exactly; printing and parsing back |

Objects that the source updates in place are classes; their ghost fields (queues, histories, owners, logical
contents) say what the real fields stand for. Protocols are machines whose steps are the sections between lock
operations, and their theorems are about every state of every run.

## What the proofs found

- The order of `sleep` in the code differs from the design document. The code releases the condition lock
  before it enqueues (kernel/proc.c:559-562); docs/design.md:131-137 enqueues first. No wakeup that takes the
  bucket lock is lost in either order (`SleepTheorems.NoLostWakeup`), but the lockless test is sound in the
  documented order only; `SleepTheorems.FastPathExact` and `PipeProtocol.NobodySleepsInVainIff` say exactly when it
  is right in the coded order, and `PipeProtocol.CodedOrderLosesWakeup` is a run in which it is not.
- Section 5.4 of docs/design.md says that piperead has no fast path; kernel/pipe.c:133-134 has one. The model
  follows the code. So it does for `p->chan`, which section 5.5 removes and the code keeps.
- `log_write` tests for a full log before it looks for the block in the list, so a repeated write to a full log
  panics although it needs no room (`LogReserve.PanicIffFull`, `LogReserve.FullLogPanics`).
- A commit needs a buffer for the log blocks. It stops in the panic of bget iff the blocks of the list and the buffers
  that others use are NBUF together (`Journal.Log.Commit`, `LogCache.NoBufferLeftIff`). NBUF equals LOGBLOCKS, so a full
  list alone is enough, and with 29 blocks one reader outside any operation is (`CommitRun.CommitAfter`).
- `morecore` passes its byte count as an int, but writes the count it wanted into the header. Malloc leaves the heap
  in order iff a free block fits, or sbrk fails, or the bytes fit the int (`Umalloc.Allocator.Malloc`,
  `Umalloc.BackedIff`); `Umalloc.Overcommit` is a request for which they do not.

## Model

| member | source | states |
|---|---|---|
| `WaitQueue.UnlinkKeepsList` | kernel/waitqueue.c:47-71 | Unlinking the entry at any position of an acyclic list leaves exactly the list without that position. |
| `WaitQueue.BucketsDisjoint` | kernel/waitqueue.c:12-22 | Two buckets never share a process, because the channel decides the bucket. |
| `WaitQueue.WakeAgrees` | kernel/proc.c:585-599 | Waking a linked sleeper keeps the queue/state agreement: a process is SLEEPING iff it is linked, exactly once, in the acyclic list of its channel's bucket. |
| `WaitQueue.SleepAgrees` | kernel/proc.c:551-575 | Enqueueing a process that goes to sleep keeps the agreement. |
| `WaitQueue.FirstOnMissesIff` | kernel/proc.c:605-628 | The walk of wakeup_one finds nobody iff no process of the whole table sleeps on the channel. |
| `WaitQueue.ProcTable.constructor` | kernel/waitqueue.c:24-32 | The empty table satisfies the agreement. |
| `WaitQueue.ProcTable.AddLocked` | kernel/waitqueue.c:34-44 | Pushes the entry at the head: the bucket's list is the old one with the process in front. |
| `WaitQueue.ProcTable.RemoveLocked` | kernel/waitqueue.c:46-71 | Removes exactly this entry wherever it stands; an entry that is not linked changes nothing. |
| `WaitQueue.ProcTable.WakeEntry` | kernel/proc.c:590-597 | One sleeper becomes RUNNABLE and leaves the list, nothing else changes, and the agreement is kept. |
| `WaitQueue.ProcTable.Sleep` | kernel/proc.c:551-575 | The process is SLEEPING on the channel at the head of its bucket; every other process is untouched; the agreement is kept. |
| `WaitQueue.ProcTable.Wakeup` | kernel/proc.c:579-601 | The bucket walk changes exactly the states that a scan of the whole process table would, and drops exactly those entries, in order. |
| `WaitQueue.ProcTable.WakeupOne` | kernel/proc.c:605-628 | Exactly one process is woken, the one enqueued last on the channel, if there is any; otherwise nothing changes. |
| `WaitQueue.ProcTable.HasSleeper` | kernel/waitqueue.c:73-82 | With the bucket lock free, the answer is zero iff no process of the table sleeps on a channel of the bucket. |
| `WaitQueue.ProcTable.Kkill` | kernel/proc.c:633-655 | The first process with the pid is marked killed; if it slept, exactly the sleepers on its channel become RUNNABLE; -1 iff there is no such pid, and then nothing changes. |
| `WaitQueue.ProcTable.FreeProc` | kernel/proc.c:161-181 | Clearing the embedded entry of a ZOMBIE or half-built process cuts nobody out of a list: the agreement is kept and every list is the same. |
| `WaitQueue.ProcTable.Schedule` | kernel/proc.c:450-458 | Switching to a RUNNABLE process keeps the agreement and every list. |
| `WaitQueue.ProcTable.Tidy` | kernel/proc.c:567-570 | Clearing p->chan at the end of sleep keeps the agreement: the process is in no list. |
| `WaitQueue.ProcTable.Exit` | kernel/proc.c:365-368 | Becoming a ZOMBIE keeps the agreement, and the zombie is in no list. |
| `SleepInvariant.InvStep` | kernel/proc.c:551-655 | The protocol invariant (who holds which lock where, lists against states, a walk's bookkeeping, sleep-locks) is kept by every step of every process, in both orders of sleep(). |
| `SleepTheorems.RunInv` | kernel/proc.c:551-655 | The invariant holds in every state of every run of any number of processes. |
| `SleepTheorems.NoLostWakeup` | kernel/proc.c:551-601 | Over every run: whoever had released lk inside sleep(chan) when a wakeup(chan) took the bucket lock has been made RUNNABLE by the time that wakeup has walked the list. |
| `SleepTheorems.WakeupOneWakesOne` | kernel/proc.c:605-628 | Over every run: if anybody was committed to sleep on the channel, wakeup_one makes one of them RUNNABLE and leaves all others asleep on it. |
| `SleepTheorems.KillEndsSleep` | kernel/proc.c:633-655 | Over every run: the sleep that kkill observed has ended when its wakeup has walked the list. |
| `SleepTheorems.NoSleeperOnFreeSleepLock` | kernel/sleeplock.c:33-41 | Over every run: with its inner spinlock free, nobody sleeps or is committed to sleep on a sleep-lock that is not locked: the wakeup of releasesleep misses nobody. |
| `SleepTheorems.QueueAgrees` | kernel/proc.c:551-655 | Over every run: with the bucket lock free, a process is in the bucket's list, once, iff it sleeps on a channel of that bucket. |
| `SleepTheorems.FastPathSound` | docs/design.md:131-137 | In the documented order an empty bucket means, in every state of every run, that nobody is committed to sleep on any of its channels. |
| `SleepTheorems.FastPathExact` | kernel/proc.c:557-566 | In the order of the code the lockless test is right iff no process stands between releasing lk and enqueueing itself for the channel. |
| `SleepTheorems.ProcLockHolderCanStep` | kernel/proc.c:551-655 | Over every run: whoever holds a process lock can take its next step. |
| `SleepTheorems.BucketHolderCanStep` | kernel/proc.c:551-655 | Over every run: the holder of a bucket lock can step, or waits for a process lock whose holder can; the lock order has no cycle. |
| `SleepTheorems.CallsEnd` | kernel/proc.c:551-655 | Every step inside a call brings the process nearer to its end, a walk by an element of the list; only acquiresleep, woken, goes back to its test. |
| `SleepLocks.HoldingExactly` | kernel/sleeplock.c:21-53 | Over every run: holdingsleep answers yes to p iff p has returned from acquiresleep and nobody has let go of the lock in releasesleep since. |
| `SleepLocks.MutualExclusion` | kernel/sleeplock.c:21-41 | Over every run: between two returns from acquiresleep of one sleep-lock, by anybody, somebody has let go of it in releasesleep. |
| `SleepLocks.AcquiresIffFree` | kernel/sleeplock.c:25-28 | Over every run: a process at the test of acquiresleep goes through it iff nobody has the lock, and otherwise to sleep on it. |
| `SleepLocks.OthersStay` | kernel/sleeplock.c:21-31 | Over every run: until somebody lets go of the lock, whoever else is inside acquiresleep stays inside it. |
| `SleepLocks.ReturnsUnlocked` | kernel/sleeplock.c:21-41 | acquiresleep and releasesleep return with the inner spinlock released. |
| `SleepLocks.SleepsWithoutLk` | kernel/proc.c:557-575 | Over every run: from the release of lk inside sleep to its return, asleep or just woken, the process does not hold lk. |
| `SleepLocks.SleepReturnsWithLk` | kernel/proc.c:573-575 | sleep returns holding lk, which was free when it took it again. |
| `Pipe.PipeChannelsShareBucket` | kernel/pipe.c:11-20 | The two channels of every pipe hash to the same bucket, number 3. |
| `Pipe.CounterTests` | kernel/pipe.c:88-88 | The equality tests on counters wrapped at 2^32 mean exactly empty and full. |
| `Pipe.RingStore` | kernel/pipe.c:96-96 | Storing a byte in its slot overwrites no byte still in the pipe, across the wrap of the counters. |
| `Pipe.Pipe.constructor` | kernel/pipe.c:22-40 | A new pipe is empty and open at both ends. |
| `Pipe.Pipe.WriteSection` | kernel/pipe.c:76-105 | Exactly a prefix of the remaining bytes is stored, in order; it ends full, refused or finished exactly for the stated reasons; what was delivered stays a prefix of what was stored. |
| `Pipe.Pipe.MustWait` | kernel/pipe.c:114-121 | piperead waits iff the pipe is empty and the writer is open. |
| `Pipe.Pipe.ReadSection` | kernel/pipe.c:122-137 | Delivers exactly the oldest bytes, as many as asked for and copied; a failed copyout loses no byte; -1 iff the first copy fails. |
| `Pipe.Pipe.Close` | kernel/pipe.c:58-74 | Closes one end, keeps the contents, and reports that the pipe is unused iff both ends are closed. |
| `PipeProtocol.SoundRuns` | kernel/pipe.c:76-137 | One reader, one writer, closes, and kills that wake a sleeper: with the pipe's lock free, a sleeping reader means an empty pipe and a sleeping writer a full one, in every state of every run of a sound configuration. |
| `PipeProtocol.CodedOrderLosesWakeup` | kernel/proc.c:557-566 | The order of the code with the lockless test has a run that leaves the reader asleep on a buffered byte with no step left. |
| `PipeProtocol.MidWriteKillLosesWakeup` | kernel/pipe.c:83-101 | In either order, killing a writer that has stored bytes without waking the reader leads to a reader asleep on data, with no step of its own left. |
| `PipeProtocol.NobodySleepsInVainIff` | kernel/pipe.c:76-137 | Every run keeps the property iff no kill hits a write in progress and either sleep() enqueues before it releases the lock or the test is made only while the bucket lock is free. |
| `PipeProtocol.BytesConserved` | kernel/pipe.c:76-137 | Over every run, in every configuration: the bytes the writer has stored and the reader has not fetched are in the buffer, and fit it. |
| `PipeProtocol.OpenUntilClosed` | kernel/pipe.c:58-74 | Over every run, in every configuration: an end counts as open exactly until its side has closed it in pipeclose. |
| `PipeProtocol.ReaderWaits` | kernel/pipe.c:114-121 | Over every run: piperead goes on only when a byte has been stored that was not fetched or the writer has closed, and goes to sleep only when neither holds. |
| `PipeProtocol.CallsEnd` | kernel/pipe.c:76-137 | Between two sleeps every step of a side brings it nearer to the end of its call, or to sleep: the loops end. |
| `PipeProtocol.NeverStuck` | kernel/pipe.c:58-137 | In every state of every run of a sound configuration one of the two sides can take a step, until both have closed. |
| `ExitWait.InvStep` | kernel/proc.c:268-424 | The invariant (who may be whose parent, what a scan of kwait has passed, half-built children, exits against reaps) is kept by every step of kfork, kexit, reparent and kwait. |
| `ExitWait.NoWaiterMissesZombie` | kernel/proc.c:379-424 | Over every run: with wait_lock free, nobody asleep in kwait, or on the way there, has a ZOMBIE child, own or given to init. |
| `ExitWait.NoOrphans` | kernel/proc.c:319-375 | Over every run: the parent of a process is never a zombie or a free slot. |
| `ExitWait.ReapedOnce` | kernel/proc.c:379-424 | Over every run: each exit is reaped at most once, by the current parent, after the zombie has left its stack. |
| `ExitWait.WaitReturns` | kernel/proc.c:379-424 | Over every run: a kwait that returns from its scan has reaped a ZOMBIE child of the caller, or no process has the caller as its parent. |
| `ExitWait.SleeperHasChild` | kernel/proc.c:408-421 | Over every run: whoever sleeps in kwait, or has set havekids, has a child. |
| `ExitWait.ChildOfItsForker` | kernel/proc.c:268-316 | Over every run: from the return of kfork the new process is a running child of the caller, and stays the caller's child until it is reaped or the caller, exiting, comes to it in reparent. |
| `ExitWait.ParentStep` | kernel/proc.c:319-331 | A process keeps its parent at every step, except when it is reaped or when its exiting parent gives it to init. |
| `ExitWait.ParentsFrozen` | kernel/proc.c:306-308 | Over every run: while a process holds wait_lock, no step of another changes any parent field. |
| `ExitWait.TakenSlotHasForker` | kernel/proc.c:268-316 | Over every run: a slot that is taken but not started belongs to a kfork under way; a failed kfork leaks no slot. |
| `ExitWait.CallsEnd` | kernel/proc.c:268-424 | Every step of a process inside kfork, kexit or kwait brings it nearer to the end of the call, or to sleep: the scans end. |
| `BufferCache.RingToFront` | kernel/bio.c:125-135 | The six pointer assignments of brelse leave a doubly linked ring, with the buffer moved to the front. |
| `BufferCache.MovedToFront` | kernel/bio.c:125-135 | Moving a buffer to the front permutes the ring: every buffer stays in it exactly once. |
| `BufferCache.BufCache.constructor` | kernel/bio.c:36-53 | binit builds a ring of all NBUF buffers, none valid, none referred to. |
| `BufferCache.BufCache.Bget` | kernel/bio.c:58-89 | A cached block gets one more reference and nothing else changes; otherwise the least recently used unreferenced buffer is recycled; the panic happens iff there is none; no two buffers hold one block. |
| `BufferCache.BufCache.Fill` | kernel/bio.c:98-101 | A buffer that is not valid gets the contents the disk has then; no other buffer changes. |
| `BufferCache.BufCache.Bwrite` | kernel/bio.c:106-112 | Exactly this block of the disk changes, in one write. |
| `BufferCache.BufCache.Brelse` | kernel/bio.c:115-137 | One reference less, and the last one makes the buffer the most recently used. |
| `BufferCache.BufCache.Bpin` | kernel/bio.c:139-144 | One reference more; the ring and every block are the same. |
| `BufferCache.BufCache.Bunpin` | kernel/bio.c:146-151 | One reference less; the ring and every block are the same. |
| `LogRecovery.HeadRoundTrip` | kernel/log.c:88-115 | What write_head stores, read_head reads back. |
| `LogRecovery.RecoveredAt` | kernel/log.c:66-124 | After recovery every listed home block has its log block's contents, and every other home block is as before. |
| `LogRecovery.RecoveryRestarts` | kernel/log.c:117-124 | Recovering a disk that a crashed recovery left gives the same home blocks as recovering the original. |
| `LogRecovery.RepeatedCrashes` | kernel/log.c:117-124 | The same after any number of crashes of recovery. |
| `LogRecovery.RecoveryIdempotent` | kernel/log.c:117-124 | Recovering a recovered disk changes nothing. |
| `LogRecovery.CrashBeforeHeader` | kernel/log.c:179-200 | A crash before the header write recovers to the disk before the transaction. |
| `LogRecovery.CrashAfterHeader` | kernel/log.c:194-204 | A crash after the header write, with any number of blocks installed, recovers to the disk after the transaction. |
| `LogRecovery.CommitDone` | kernel/log.c:194-204 | Once the header is cleared the home blocks are those after the transaction, and recovery leaves them so. |
| `LogCache.AfterGet` | kernel/bio.c:58-89 | bget keeps cache, disk, list and reference counts coherent, so every operation between it and the fill sees a coherent cache; a valid buffer shows the latest logged contents. |
| `LogCache.AfterFill` | kernel/bio.c:92-103 | Filling a buffer that is not valid, whatever has happened since its bget, shows the latest logged contents. |
| `LogCache.AfterRelease` | kernel/bio.c:115-137 | brelse keeps the coherence, and never drops the pin of a listed block. |
| `LogCache.AfterChange` | kernel/log.c:215-236 | Changing the buffer of a listed block changes the logical contents of that block only. |
| `LogCache.AfterPin` | kernel/log.c:229-234 | A block that joins the list is pinned, so it is not recycled before it is installed. |
| `LogCache.AfterUnpin` | kernel/log.c:66-84 | A block unpinned after its home write leaves the list with the disk already up to date. |
| `LogCache.BusyExactly` | kernel/bio.c:58-89 | Every buffer is referred to iff the blocks of the list and the other buffers in use are NBUF together. |
| `LogCache.NoBufferLeftIff` | kernel/bio.c:58-89 | A block that is not in the list and in no buffer in use meets the panic of bget iff that count is NBUF. |
| `Journal.Log.constructor` | kernel/log.c:53-63 | The log starts with an empty list, nothing pinned and the disk as its logical contents. |
| `Journal.Log.Get` | kernel/bio.c:58-89 | A reference to the buffer of the block, valid with the latest contents or still to be filled; it panics iff the block is in no buffer and every buffer is referred to. |
| `Journal.Log.Fill` | kernel/bio.c:92-103 | Any time later, the buffer becomes valid with the latest contents of its block. |
| `Journal.Log.Read` | kernel/bio.c:92-103 | Through the log's eyes bread gives the latest contents of the block and keeps every buffer in use; it panics iff the block is in no buffer and every buffer is referred to. |
| `Journal.Log.LogWrite` | kernel/log.c:215-236 | The logical contents of exactly that block change and it is in the list once; the panic happens iff the list is full or no operation is active, and never while there is room reserved. |
| `Journal.Log.WriteLog` | kernel/log.c:179-192 | The listed blocks are in the log area, one write each, nothing else changed; every disk on the way is accounted for. |
| `Journal.Log.PackHead` | kernel/log.c:103-115 | The loop fills the header block with the list. |
| `Journal.Log.WriteHead` | kernel/log.c:103-115 | Exactly the header block is written, with the list. |
| `Journal.Log.InstallTrans` | kernel/log.c:66-84 | All listed blocks are copied home, one write each, and unpinned unless recovering; every disk on the way is accounted for. |
| `Journal.Log.Commit` | kernel/log.c:194-204 | Cut short after any write, recovery finds none or all of the transaction, changing over at the header write; if nobody is using a block of the log, it completes iff the list is empty or the blocks of the list and the other buffers in use leave a buffer over. |
| `Journal.Log.ReadHead` | kernel/log.c:87-98 | The list is that of the header on disk. |
| `Journal.Log.RecoverFromLog` | kernel/log.c:117-124 | The disk becomes the recovered disk, and every disk on the way is one that recovery can start again from. |
| `Journal.Log.BeginOp` | kernel/log.c:127-143 | Whoever is admitted gets room for MAXOPBLOCKS blocks that LogWrite honours, and the room of the operations under way stays covered by the log; refused iff a commit is under way or one more reservation would not fit. |
| `Journal.Log.EndOp` | kernel/log.c:146-176 | Only the last operation commits, and then atomically what all of them wrote; before that nothing changes; the reservations left still fit; it panics iff a commit is under way, or its own commit does, with the same exact condition. |
| `Journal.CommitSurvivesCrashes` | kernel/log.c:66-204 | A crash after any write of a commit followed by any number of crashed recoveries ends with all or none of the transaction on disk. |
| `CommitRun.CommitAfter` | kernel/log.c:146-204 | For every n and m: after three operations have listed n blocks while readers hold m others, the last end_op succeeds iff n + m is less than NBUF. |
| `LogReserve.RunInv` | kernel/log.c:127-176 | Over every run: the list plus what active operations have reserved and not used fits the log. |
| `LogReserve.NoOverflow` | kernel/log.c:215-236 | Over every run: the list never overflows, and an operation with reservation left meets no panic of log_write or end_op. |
| `LogReserve.PanicIffFull` | kernel/log.c:220-229 | A permitted log_write panics iff the log is full, and then only for a block already in the list, when every operation has used up its reservation. |
| `LogReserve.FullLogPanics` | kernel/log.c:220-229 | That panic is reachable: three operations of ten blocks each and then one repeated write. |
| `LogReserve.CommitAlone` | kernel/log.c:146-176 | Over every run: while one process commits no operation is active and nobody else commits. |
| `LogReserve.WaitersHaveAReason` | kernel/log.c:127-176 | Over every run: whoever sleeps in begin_op waits for a commit or for space, and somebody is active who will wake it. |
| `LogReserve.NeverStuck` | kernel/log.c:127-176 | Over every run: whoever does not sleep in begin_op can take a step. |
| `LogReserve.StaysLogged` | kernel/log.c:215-236 | Over every run: a block that an operation has logged stays in the list until a commit has been made of it. |
| `LogReserve.Absorbed` | kernel/log.c:226-233 | Over every run: each block is in the list once, however often it is written. |
| `FsBlocks.EntryRoundTrip` | kernel/fs.c:430-438 | An entry of an indirect block reads back as stored, and the other entries are untouched. |
| `FsBlocks.SlotsDiffer` | kernel/fs.c:405-444 | No block is in two slots over all inodes, direct, indirect or behind an indirect block. |
| `FsBlocks.SlotMarked` | kernel/fs.c:92-106 | A block in a slot has its bitmap bit set, so bfree of it does not panic. |
| `FsBlocks.FreeNotInSlot` | kernel/fs.c:66-89 | A block whose bit is clear is in no slot and is no metadata block. |
| `FsBlocks.Attach` | kernel/fs.c:411-429 | Allocating a direct or indirect block keeps ownership, bitmap, stored slots and the bytes of every file. |
| `FsBlocks.AttachEntry` | kernel/fs.c:430-441 | The same for a block behind the indirect block. |
| `FsBlocks.OverwriteMore` | kernel/fs.c:528-562 | Writing piece by piece is writing the whole. |
| `FsBlocks.WriteBytes` | kernel/fs.c:539-551 | A copy into the mapped block changes exactly those bytes of exactly that file. |
| `FsBlocks.ReadBytes` | kernel/fs.c:505-517 | The bytes of the file are found in the block that bmap names. |
| `FsBlocks.DetachDirect` | kernel/fs.c:455-460 | Freeing a direct block keeps the invariant, and its bit was set. |
| `FsBlocks.DetachEntry` | kernel/fs.c:462-468 | Freeing a block behind the indirect block keeps the invariant, and its bit was set. |
| `FsBlocks.DetachIndirect` | kernel/fs.c:469-472 | Freeing the indirect block leaves the inode without any block. |
| `InodeLayer.FileSystem.constructor` | kernel/fs.c:66-106 | An image with empty inodes satisfies the invariant. |
| `InodeLayer.FileSystem.Balloc` | kernel/fs.c:66-89 | The first free block, marked and zeroed, logging its bitmap block and itself; 0 iff no block is free. |
| `InodeLayer.FileSystem.Bfree` | kernel/fs.c:92-106 | Clears exactly this bit; panics iff the block is free already. |
| `InodeLayer.FileSystem.Bmap` | kernel/fs.c:405-444 | Gives the block in the slot of bn, filled first if empty; only that slot and the indirect one can change; it logs exactly the new blocks, their bitmap blocks and a changed indirect block; 0 only on a full disk. |
| `InodeLayer.FileSystem.Readi` | kernel/fs.c:494-519 | Returns exactly the slice of the file's byte sequence, allocates and changes nothing, and fails iff a copy fails. |
| `InodeLayer.FileSystem.Writei` | kernel/fs.c:528-562 | A call that returns r has written exactly the first r bytes at the offset and nothing else; short exactly at the failed copy or at an empty slot of a full disk; -1 iff out of range; it logs exactly the blocks named by LogIs, everything it changed is among them, and at most three blocks of bytes log at most MAXOPBLOCKS. |
| `InodeLayer.ExactlyStep` | kernel/fs.c:539-551 | One more round of writei, done or failed, logs exactly the blocks by which the log then differs. |
| `InodeLayer.FileSystem.Itrunc` | kernel/fs.c:448-476 | The file is empty, exactly its blocks are free again, every other block keeps its owner, and no bfree panics; it logs exactly the bitmap blocks of the freed blocks and the block of the inode, and they hold all that has changed. |
| `InodeLayer.FileSystem.FileWrite` | kernel/file.c:148-174 | All bytes are written in order, or a prefix up to the new offset with the reason named; no chunk logs more than MAXOPBLOCKS blocks. |
| `InodeLayer.TallyBound` | kernel/file.c:149-158 | At most three blocks of bytes at any offset, under any bitmap placement, log at most MAXOPBLOCKS distinct blocks with the inode. |
| `TightWrite.ImageWhole` | kernel/fs.c:66-106 | An image with 124 inodes in which four blocks are free, under four different bitmap blocks, is in order. |
| `TightWrite.BoundIsTight` | kernel/file.c:149-158 | On that image a write of three blocks of bytes from inside block 10 succeeds and logs exactly MAXOPBLOCKS blocks: the bound is met by a run of writei. |
| `DiskImage.MaskTest` | kernel/fs.c:75-77 | The mask test of balloc and bfree on a bitmap byte finds the bit of the block. |
| `DiskImage.MaskChange` | kernel/fs.c:78-104 | Setting or clearing the mask in the byte gives the byte of the changed bits. |
| `DiskImage.WordBytes` | kernel/fs.c:430-432 | The bytes of a block are those of the words it is read as. |
| `DiskImage.FilesOnDisk` | kernel/fs.c:405-519 | Whoever reads size, addresses, indirect entries and bytes from the disk alone finds the bytes of every file. |
| `DiskImage.SameOutsideLog` | kernel/log.c:117-124 | What the disk holds does not depend on the blocks of the log. |
| `FileCrash.LoggedPlaces` | kernel/fs.c:528-562 | Besides the block of the inode, writei logs data blocks and bitmap blocks, never the log. |
| `FileCrash.RenewedRepresents` | kernel/fs.c:528-562 | Writing the blocks that writei logged turns the disk of the file system before into the disk of the file system after it. |
| `FileCrash.TruncRepresents` | kernel/fs.c:448-476 | Writing the blocks that itrunc logged turns the disk of the file system before it into the disk of the file system after it. |
| `FileCrash.TruncLogSize` | kernel/fs.c:448-476 | itrunc logs at most one block for each bitmap block of the disk, and one for the inode. |
| `FileCrash.OpBegin` | kernel/log.c:127-143 | Another operation joins the transaction; the disk and the file system stay as they are. |
| `FileCrash.OpWrite` | kernel/file.c:160-165 | A write of one operation, between the steps of the others, writes as writei does; the logical contents of the blocks hold the new file system, and the disk still the one before the transaction. |
| `FileCrash.OpEnd` | kernel/file.c:160-165 | The last of a group of operations commits: whatever disk a crash leaves, it recovers to the file system before the first of them or to the one after the last; it fails iff the list takes all the buffers. |
| `FileCrash.OpTrunc` | kernel/fs.c:448-476 | itrunc in one of the operations empties the file; it stays within what the operation reserved iff the bitmap blocks concerned and the inode block are at most MAXOPBLOCKS, as they are on a disk of up to nine bitmap blocks; then the logical contents hold the new file system and the disk still the old one. |
| `FileCrash.TruncateFile` | kernel/fs.c:448-476 | A truncation with no other operation under way always completes, and whatever disk a crash leaves, it recovers to the file system with the whole file or to the one with the file empty. |
| `FileCrash.WriteChunk` | kernel/file.c:160-165 | A chunk of filewrite with no other operation under way always completes, and whatever disk a crash leaves between two writes, it recovers to the file system before the chunk or to the one after it. |
| `FileCrash.ChunkSurvivesCrashes` | kernel/file.c:160-165 | After a crash at any write of a chunk and any number of crashed recoveries, every file read from the disk has its bytes from before the chunk, or every file those from after it. |
| `FileCrash.WriteFile` | kernel/file.c:148-174 | All of filewrite: every disk a crash can leave recovers to a file system in which some number of chunks are written, whole, and the others not at all. |
| `FileCrash.Reboot` | kernel/log.c:53-63 | After a crash recovery makes everything ready for the next write, on the file system the disk survives as. |
| `Umalloc.StopsAtPlace` | user/umalloc.c:30-32 | The search of free stops exactly where the block belongs in address order. |
| `Umalloc.Disjoint` | user/umalloc.c:24-90 | Two blocks, live or free, never share a unit. |
| `Umalloc.Merge` | user/umalloc.c:33-42 | Joining touching free blocks keeps the heap in order and moves their units to one block. |
| `Umalloc.Split` | user/umalloc.c:78-82 | Carving the tail of a larger free block makes a new live block and loses no unit. |
| `Umalloc.UserWrites` | user/umalloc.c:24-90 | Whatever a program writes inside a live block, past its header, leaves the heap in order. |
| `Umalloc.NoneFits` | user/umalloc.c:74-89 | Once round the ring without success means that no free block is large enough. |
| `Umalloc.BackedIff` | user/umalloc.c:46-61 | The units that morecore puts on the free list have all been obtained from sbrk iff their bytes fit its int argument; a larger request gets fewer units, or gives some back. |
| `Umalloc.UnitsConserved` | user/umalloc.c:24-90 | The units obtained from sbrk are exactly those of the free and the live blocks. |
| `Umalloc.Allocator.constructor` | user/umalloc.c:21-22 | Before the first malloc nothing is live and nothing has been obtained. |
| `Umalloc.Allocator.FindPlace` | user/umalloc.c:30-32 | The loop ends, at the predecessor in address order. |
| `Umalloc.Allocator.Free` | user/umalloc.c:24-44 | The block is no longer live; the ring stays in order with one wrap and no touching free blocks; nothing inside other live blocks changes. |
| `Umalloc.Grain` | user/umalloc.c:52-53 | morecore asks for the larger of the units wanted and 4096. |
| `Umalloc.Allocator.MoreCore` | user/umalloc.c:46-61 | The header claims exactly the units wanted; sbrk grants those of its int argument; the heap is in order afterwards, and every claimed unit obtained, iff the bytes fit; on failure nothing changes. |
| `Umalloc.Allocator.Malloc` | user/umalloc.c:63-90 | A block of its own, large enough; 0 iff nothing fitted and sbrk failed; new memory only if nothing fitted; the heap stays in order iff a free block fitted, or sbrk failed, or the bytes asked for fit the int argument; other live blocks keep their contents; the loop ends. |
| `Umalloc.Allocator.Search` | user/umalloc.c:74-89 | The loop ends at a block large enough, making one with morecore if there is none; without one iff nothing fitted and sbrk failed. |
| `Umalloc.Overcommit` | user/umalloc.c:63-90 | The request for 0xffffffff bytes returns a block of 2^28 + 1 units when one unit has been obtained. |
| `PageTree.PteRoundTrip` | kernel/riscv.h:360-370 | Page number and flags survive packing into an entry. |
| `PageTree.WalkRefinesMap` | kernel/vm.c:97-115 | Walking the three-level tree from any table gives exactly what the map says for the page. |
| `PageTree.AddTable` | kernel/vm.c:107-112 | A new table hung in the tree leaves the map unchanged. |
| `PageTree.SetLeaf` | kernel/vm.c:145-174 | Writing the entry that walk found changes the map at exactly that page. |
| `PageTree.RemoveTable` | kernel/vm.c:262-278 | Removing a childless table and its entry keeps the tree right. |
| `VmPages.HangTable` | kernel/vm.c:107-112 | A page becomes a table of exactly one address space; every other space and every page's use is kept. |
| `VmPages.HangLeaf` | kernel/vm.c:145-174 | A page becomes the memory behind exactly one page of one address space. |
| `VmPages.DropLeaf` | kernel/vm.c:192-212 | Unmapping takes the page out of use, and it was in use at this one place. |
| `VmPages.DropTable` | kernel/vm.c:262-278 | freewalk takes a childless table out of use without touching any other space. |
| `VmPages.DropSpace` | kernel/vm.c:262-278 | Freeing the root ends the address space. |
| `AddressSpace.Machine.constructor` | kernel/kalloc.c:26-40 | All pages start on the free list and there are no address spaces. |
| `AddressSpace.Machine.Kalloc` | kernel/kalloc.c:68-82 | Hands out the first free page, in use nowhere; fails iff the list is empty. |
| `AddressSpace.Machine.Kfree` | kernel/kalloc.c:46-63 | The page is on the free list, exactly once. |
| `AddressSpace.Machine.Walk` | kernel/vm.c:97-115 | The level-0 table whose entry is what the map says; with alloc it adds tables only and fails iff kalloc does; without, it changes nothing. |
| `AddressSpace.Machine.MapPages` | kernel/vm.c:145-174 | Exactly the pages up to where it stopped are mapped; none of them was mapped before; the remap panic happens iff the page it stopped at was; out of memory iff kalloc failed. |
| `AddressSpace.Machine.UvmUnmap` | kernel/vm.c:192-212 | Exactly these pages are gone from the map, mapped or not before, and their memory is back on the free list. |
| `AddressSpace.Machine.UvmAlloc` | kernel/vm.c:216-240 | Every page between the sizes is new, zero and has the permissions, for any of the permissions exec passes; if kalloc fails the map is as it was; no page is mapped twice. |
| `AddressSpace.Machine.UvmDealloc` | kernel/vm.c:246-258 | Exactly the pages from the new size up to the old are gone. |
| `AddressSpace.Machine.FreeWalk` | kernel/vm.c:262-278 | All tables of the subtree are back on the free list, and it never meets a leaf. |
| `AddressSpace.Machine.UvmCopy` | kernel/vm.c:296-324 | The child has the same user pages with equal flags and contents on pages of its own; if kalloc fails it has no user page. |
| `AddressSpace.Machine.VmFault` | kernel/vm.c:452-473 | Brings in one zeroed page iff the address is below the size and unmapped and kalloc succeeds; otherwise the map is unchanged. |
| `AddressSpace.Machine.UvmCreate` | kernel/vm.c:177-187 | An address space with an empty map, iff there is a free page. |
| `AddressSpace.Machine.GrowProc` | kernel/proc.c:245-264 | The size grows with all its pages, or shrinks and loses exactly the pages above it; it fails iff it would pass the trap frame or kalloc fails, and then changes nothing. |
| `AddressSpace.Machine.SysSbrk` | kernel/sysproc.c:39-65 | Eager or lazy, the size stays at or below the trap frame and no user page lies above it; -1 iff growing would pass the trap frame or kalloc fails. |
| `AddressSpace.Machine.ProcPagetable` | kernel/proc.c:183-215 | An address space with trampoline and trap frame and nothing else, whatever pages the caller holds; if kalloc fails nothing is left of it. |
| `AddressSpace.Machine.ProcFreePagetable` | kernel/proc.c:217-225 | Every page the space used is back on the free list, and the panics of mappages and freewalk are unreachable. |
| `AddressSpace.Machine.AllocProc` | kernel/proc.c:132-147 | A trap frame page of its own, mapped at TRAPFRAME in a new address space; if either allocation fails every page is back on the free list. |
| `AddressSpace.Machine.FreeProc` | kernel/proc.c:161-170 | The trap frame page and every page of the address space are back on the free list, each once. |
| `AddressSpace.Machine.Fork` | kernel/proc.c:275-286 | The child gets a trap frame page of its own, copies of the user pages and the same size; if kalloc fails at any point the child is gone, every page it had is back on the free list, and the parent is unchanged. |
| `Virtio.DeviceSeesRequest` | kernel/virtio_disk.c:235-269 | A device that follows the chain from its head finds the buffer, direction and sector the driver meant. |
| `Virtio.ThreeEach` | kernel/virtio_disk.c:200-213 | The descriptors of any set of requests in flight are exactly three for each, shared by none. |
| `Virtio.TwoInFlight` | kernel/virtio_disk.c:200-213 | At most two requests are in flight. |
| `Virtio.RingShort` | kernel/virtio_disk.c:271-279 | At most two entries of a ring are outstanding, so it never overruns. |
| `Virtio.RingPut` | kernel/virtio_disk.c:271-279 | An entry put in a ring overwrites no outstanding one. |
| `Virtio.RingTake` | kernel/virtio_disk.c:312-324 | The oldest outstanding entry is the one the ring index names. |
| `Virtio.IndexReached` | kernel/virtio_disk.c:312-324 | The 16-bit indices are equal iff the driver has caught up with the device, across their wrap. |
| `Virtio.QueueMine` | kernel/virtio_disk.c:225-269 | Whatever the driver does to descriptors that it has allocated and not published, no request in flight notices. |
| `Virtio.Disk.constructor` | kernel/virtio_disk.c:144-146 | All descriptors are free and both rings are empty. |
| `Virtio.Disk.AllocDesc` | kernel/virtio_disk.c:155-166 | The first free descriptor, or none iff there is none. |
| `Virtio.Disk.FreeDesc` | kernel/virtio_disk.c:168-182 | Frees and clears exactly this descriptor while the device goes on; panics iff it is out of range or free. |
| `Virtio.Disk.Alloc3` | kernel/virtio_disk.c:199-213 | Three different descriptors iff three are free; otherwise everything is as it was. |
| `Virtio.Disk.FreeChain` | kernel/virtio_disk.c:184-197 | Exactly the three descriptors of the chain are free again, with no panic. |
| `Virtio.Disk.Submit` | kernel/virtio_disk.c:215-281 | With the device taking any steps between any two accesses of the driver: the request is in the avail ring on three descriptors of its own, iff three are free; otherwise nothing changes but what the device does. |
| `Virtio.Disk.TakeRequest` | kernel/virtio_disk.c:271-281 | At any moment, also inside the driver's critical sections, the device takes requests in order and finds what the driver put there. |
| `Virtio.Disk.Device` | kernel/virtio_disk.c:294-327 | Any number of device steps keeps the invariant, only moves requests on, and leaves the driver's own descriptors alone. |
| `Virtio.Disk.Intr` | kernel/virtio_disk.c:294-327 | While the device reports more requests the loop still ends; then every request reported has been seen, in order, each has moved on only, and the panic is unreachable. |
| `Virtio.Disk.Finish` | kernel/virtio_disk.c:283-292 | virtio_disk_rw leaves its wait only when its own request has completed, and then exactly its descriptors are free again, whatever the device does meanwhile. |
| `ShellParser.NextToken` | user/sh.c:271-314 | The loops of gettoken compute the token that TokenExact characterizes. |
| `ShellParser.PeekNext` | user/sh.c:316-326 | peek answers for the next character that is not space, and moves the cursor there. |
| `ShellParser.Redirections` | user/sh.c:380-403 | The loop of parseredirs collects all redirections in order, or panics for a missing file. |
| `ShellParser.Simple` | user/sh.c:421-452 | parseexec, with its loop over words and redirections, agrees with the recursive form that ExecSound and ExecComplete tie to the grammar, including its panics for syntax and too many arguments. |
| `ShellParser.Block` | user/sh.c:405-419 | parseblock agrees with the specification, including its panics for missing parentheses. |
| `ShellParser.Pipeline` | user/sh.c:367-378 | parsepipe agrees with the specification. |
| `ShellParser.Line` | user/sh.c:350-365 | parseline agrees with the specification. |
| `ShellParser.Command` | user/sh.c:333-348 | parsecmd accepts a line iff the specification does, with nothing left over. |
| `ShellParser.ParseCmd` | user/sh.c:333-348 | An accepted line is consumed whole, and every name in the tree is a word of it with room for the null that ends argv. |
| `ShellParser.NulTerminate` | user/sh.c:454-499 | NUL is written at the end of every name of the command and nowhere else. |
| `ShellParser.NamesReadBack` | user/sh.c:454-499 | After nulterminate every name reads back as a C string with its own text: no character of any name is overwritten. |
| `ShellGrammar.TokenExact` | user/sh.c:271-314 | gettoken finds t iff only spaces are before it, it is the end of the line, a maximal word, >> or one symbol (a > not followed by another), and exactly the spaces behind it are consumed. |
| `ShellGrammar.RedirsSound` | user/sh.c:380-403 | The tokens that parseredirs consumes are pairs of a sign and a word, and its result is those redirections, all of them, in order. |
| `ShellGrammar.WordsSound` | user/sh.c:437-448 | The tokens that the loop of parseexec consumes are words and redirections; the arguments are all the words in order, and the redirections all the redirections in order, behind those already found. |
| `ShellGrammar.ExecSound` | user/sh.c:421-452 | What parseexec consumes is the yield of a simple command or a block, and its command is that phrase with the redirections around it, the first innermost. |
| `ShellGrammar.ExecComplete` | user/sh.c:421-452 | Every simple command of at most nine words and every block, followed by what may follow it, is accepted with its command, and exactly its tokens are consumed. |
| `ShellGrammar.LineSound` | user/sh.c:350-365 | What parseline consumes is the yield of a line of the grammar, and its command is the tree of that phrase. |
| `ShellGrammar.LineComplete` | user/sh.c:350-365 | Every line of the grammar before the end or a closing parenthesis is accepted with its tree, and exactly its tokens are consumed. |
| `ShellGrammar.AcceptedExactly` | user/sh.c:333-348 | parsecmd accepts a line with the command c iff the tokens of the line are the yield of a phrase of the grammar whose tree is c. |
| `ShellGrammar.RefusedExactly` | user/sh.c:333-348 | parsecmd panics iff the tokens of the line are the yield of no phrase. |
| `ShellRoundTrip.ExecReads` | user/sh.c:405-452 | A printed simple command or parenthesised command, with its redirections, is parsed back up to its end. |
| `ShellRoundTrip.PipeReads` | user/sh.c:367-378 | A printed pipeline is parsed back up to its end. |
| `ShellRoundTrip.HeadReads` | user/sh.c:355-359 | A printed command with its background signs is parsed back up to its end. |
| `ShellRoundTrip.LineReads` | user/sh.c:350-365 | A printed list is parsed back up to its end. |
| `ShellRoundTrip.PrintThenParse` | user/sh.c:333-452 | Every command tree with at most nine words per command, printed with parentheses where needed and parsed, comes back. |
| `ShellRoundTrip.ParsePrintParse` | user/sh.c:333-452 | The canonical printing of any accepted line is accepted and means the same. |
| `ShellRoundTrip.MeaningsExact` | user/sh.c:333-452 | The meanings of accepted lines are exactly the trees of words with at most nine words per command. |

## Left out

- Assembly, trap entry, boot, device registers and the scheduler's context switch; a RUNNABLE process may take a step at any time.
- Memory-model fences: the machines are sequentially consistent, and taking or releasing a lock is one atomic step.
- Liveness: no fairness is modelled; calls are shown to come nearer to their end with every step of their own, and kkill to end the sleep it saw, not every later one.
- Several readers or several writers of one pipe in `PipeProtocol`: `piperead` wakes no other reader, so only the one-to-one case makes the promise; `Pipe` itself covers any number.
- The clock, user memory and the disk device are parameters: whether a copy, an allocation by sbrk or a kill happens is an argument.
- Copies that fail in the middle of a block: a copy to or from user memory succeeds or fails per block.
- Umalloc.Allocator.MoreCore: a header written outside the process's memory is not a fault in the model; the claimed and the obtained units are compared instead.
- AddressSpace.Machine.MapPages: the permissions name R, W or X, as every caller's do; user pages come from kalloc, kernel pages are the trampoline and the trap frame. The alignment panics are left out because pages are counted, not addressed.
- AddressSpace.Machine.UvmUnmap: memory is freed exactly for user pages, as every caller does.
- AddressSpace.Machine.Fork: the memory part of kfork, allocproc and freeproc only; open files, the current directory and the contents of the trap frame are left out, and parents are in `ExitWait`.
- Virtio.Disk.Complete and `Virtio.Disk.TakeRequest` are the device's steps; a device that reports a failed request, which the driver answers with a panic, is left out.
- FileCrash.OpWrite: operations of a group interleave between begin_op, the write and end_op, not within a write; the log_write calls of writei are made behind it, since nothing reaches the disk before the commit.
- FileCrash.TruncateFile: disks of fewer than nine times 8192 blocks (the file system of this kernel has 2000); `FileCrash.OpTrunc` says for every disk when the truncation fits one operation, and not what the log does when it does not.
- Journal.Log.Commit: other processes take and release no buffer while it runs, although commit holds no lock; the buffers they hold at its start are covered.
- TightWrite.BoundIsTight: the image is in order, but its other inodes have size 0 and holes, which no run of writei from an empty file system leaves.
- InodeLayer.FileSystem.Bfree: the bitmap is one sequence of bits; the byte and mask arithmetic is in `DiskImage`.
- InodeLayer.FileSystem: the buffer cache underneath and the inode table's reference counts are left out; link counts and directories are not modelled.
- InodeLayer.FileSystem.FileWrite: the branch for inodes, for counts that are not negative; the pipe branch is `Pipe`, devices are left out.
- Journal.Log.BeginOp: one attempt; sleeping and the wait for a commit are in `LogReserve`.
- ELF loading, copyin and copyout, walkaddr, system-call argument decoding, printf, the console, the other user programs and the execution of parsed commands: they would add members of an easier kind.
