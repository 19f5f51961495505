# Verified models of vdo-devel's test devices and of fio's concurrent core

This project models the hardest parts of the repository in Dafny and proves what they promise.

**The Dory device** (`src/c++/devices/dory/dmDory.c`) is a write-back block cache that implements flush
and FUA semantics with one busy count, one flush flag, and lists of waiting bios. Every critical section of
the driver is a function on the device (`DorySections`), carried out in place by a class (`DoryDriver`).
`DoryMachine` runs any number of threads over these sections in any order: callers of the map function,
kworkers, write-back callbacks, and requests under way at the storage. A run is any sequence of such
steps, of newly accepted bios, and of settings of the stop flag and the tornness parameters. One invariant
(`DoryInv`), built up in layers from `DoryStructure` to `DoryCrash`, holds in every state of every run.
`DoryTheorems`, `DoryGrain`, `DoryDurable`, `DoryServed`, `DoryFlush`, `DoryProgress` and `DoryStop` hold the
results. `DoryBytes` says them again about one array of bytes addressed by sectors, `DoryPolicy` says what
becomes of each kind of bio, and `DoryOrder` in which order. `DoryRuns` has the runs that show what does not hold.

**Parts of fio** (`src/c++/third/fio`) and **the limiter** (`src/c++/devices/flushnop/limiter.c`):
the locks on file names (`FileLockTable`, `FileLock`), proportional flow groups (`FlowShare`, `FlowList`),
the CPU clock conversion (`CpuClock`), the semaphore (`Semaphore`), the byte FIFO and the merging of block
traces read through it (`Fifo`, `TraceFile`, `TraceAction`, `TraceLayout`, `TraceOutput`, `TraceMerge`,
`TraceOpen`, `TraceScalars`, `TraceResult`, `TraceExamples`), the requeue ring (`RequeueRing`) and the condensed status line (`Condensed`). `Sums`, `Bits`
and `Options` are shared helpers.

Concurrent code is a step machine; code that changes objects in place is a class or an array method whose
contract ties the new state to a function; the lemmas are about those functions and machines.

## What the code does not do

Some properties one would expect are false of the code. Each has a run or an input that shows it, and the
exact circumstances under which it holds.

- **A flush may be acknowledged before an earlier write is stored.** The driver decrements its busy count
  and only then takes the flush lock. A write and a flush that arrive in between are overtaken:
  `DoryRuns.EarlyFlush`. An acknowledged flush has made durable every write acknowledged before it if it
  joined the flushes before the decrement of the thread that completed it, and in any case every write
  acknowledged before that decrement, for ever and also after a stop (`DoryFlush.FlushDurable`). When the
  decrement and the flush section run as one step, that is every flush (`DoryFlush.AtomicFlushDurable`).
- **A full-block FUA write or discard drops a dirty block before it is itself stored.** A flush that
  completes meanwhile is acknowledged while the older acknowledged write is nowhere:
  `DoryRuns.DroppedWrite`. The durability theorems except exactly those blocks, each about to be
  overwritten as a whole by the bio in flight.
- **After a stop, a flush may succeed although it lost a block.** The lost block is counted as a flush
  failure, but flushes are refused after a write failure: `DoryRuns.StoppedFlush`. Conversely a flush may be
  refused although nothing was lost: `DoryRuns.RefusedFlush`. Something is lost if and
  only if a flush failure has been counted (`DoryFlush.LossCounted`), and the verdict on a flush is right if
  and only if both counts are zero or neither is (`DoryFlush.FlushVerdict`).
- **A block may be written back although no flush is in progress.** The walk of a flush that was completed
  early goes on: `DoryRuns.WalkAfterFlush`. A block is written back exactly by a walk, by a copy that ends
  during a flush, or for a FUA write or discard of part of it (`DoryPolicy.WritesRun`, `DoryPolicy.WrittenFor`).
  When the decrement and the flush section run as one step, a walk is always during a flush
  (`DoryPolicy.AtomicWrittenFor`).
- **A flush may be held up for ever.** Each bio that arrives during a flush is counted before it is
  deferred, so the count need never reach zero while arrivals overlap: `DoryRuns.FlushHeldUp`. Without new
  bios every flush ends (`DoryProgress.EverySchedule`).
- **A try-lock on a file name may wait**: `FileLock.TryLockCanWait`. It does so only after a moment at which
  it could have taken the lock, and exactly while a caller holds the name that looked it up after that
  moment: `FileLock.TryLockWaits`.
- **The semaphore may strand a sleeper** once its value goes above one: `Semaphore.LostWakeUp`, and only
  then: `Semaphore.StrandedMeansTwo`. `Semaphore.StrandingStep` says exactly which step does it.
- **A flow group may stall for a moment** while a job is half way out of it: `FlowShare.LeaverStalls`. It
  never does otherwise: `FlowShare.NeverStalls`.
- **A trace file without a usable record gives its slot, scalar and time to the next file**:
  `TraceExamples.GapExample`. Every file gets its own scalar, whatever the scalars, exactly when no such file
  comes before a usable one: `TraceScalars.OwnScalars`.
- **A merge of traces may return zero, as on success, and adopt nothing.** It does so for a trace that ends
  right after the header of a record with data (`TraceExamples.CutOff`) and for a first file that is no trace
  (`TraceExamples.NoTrace`). The merged file is adopted if and only if every file is a trace that can be read to
  its end; `TraceResult.MergeFiles` says what is returned in every other case. The caller
  (`src/c++/third/fio/init.c`, line 1801) takes a return of zero for failure, so it fails after a merge that
  succeeded and goes on after one that left an error number.
- **A full requeue ring may look empty** instead of tripping its assertion, because the fullness test does
  not reduce the next head: `RequeueRing.FullLooksEmpty`. A push is right exactly when the ring keeps a free
  slot, and the assertion fires for a full ring exactly when its tail is not at the start:
  `RequeueRing.PushAppends`.

## What the models take as given

- Dory: the layers above never have two overlapping bios in flight unless both are reads; a bio stays inside
  one block; a flush bio is empty; FUA appears only on writes; a forwarded bio takes effect on the storage at
  once when the storage completes it; the storage does not fail; a discard reads back as given contents. The
  callback of a write-back that the stop refuses runs as a thread of its own, so it may run later
  than in the driver. Adding bios to the work lists and scheduling their worker is one step.
- File locks: only the caller that holds a lock unlocks it; the hash of a name is an arbitrary number, so
  two names with one hash share a lock.
- Flow groups: ratios are compared exactly, where the source rounds in double precision; counters do not
  overflow.
- Limiter: a thread releases no more than it holds; all waiters are acquirers.
- Traces: one pass over each file, cursors that start zeroed (the source allocates them without clearing),
  and reads that return what is asked for as long as the file has it.
- CPU clock: the cycles per millisecond are given, positive, and an hour of cycles fits in 64 bits.

## Model

| member | source | states |
|---|---|---|
| DoryTheorems.FlatDisk | src/c++/devices/dory/dmDory.c:817-876 | In every state of every run until a write-back is refused, the completions are a history that a flat disk could have produced, and storage overlaid with the cache is that flat disk except under a full-block FUA write or discard in flight |
| DoryBytes.GetIsBytes | src/c++/devices/dory/dmDory.c:757-759 | A bio that fits reads the bytes from 512 times its sector on, of the blocks one after another |
| DoryBytes.PutIsSplice | src/c++/devices/dory/dmDory.c:757-759 | A bio that fits writes exactly the bytes from 512 times its sector on |
| DoryBytes.FitsIffInside | src/c++/devices/dory/dmDory.c:757-759 | A bio fits exactly if its bytes are on the device and in one block |
| DoryBytes.OverlapIffMeet | src/c++/devices/dory/dmDory.c:757-759 | Two bios overlap if and only if their byte ranges meet |
| DoryBytes.ByteDisk | src/c++/devices/dory/dmDory.c:745-876 | The same over one array of bytes, with no blocks in its definition: every acknowledged read returned the bytes at 512 times its sector as the acknowledged writes before it left them, and storage overlaid with the cache is that array byte for byte, outside blocks lost or about to be overwritten |
| DoryBytes.ByteHas | src/c++/devices/dory/dmDory.c:862-875 | The array holds the data of an acknowledged write, and storage that of a FUA write, until an acknowledged write meets its byte range |
| DoryBytes.StoredIffBytes | src/c++/devices/dory/dmDory.c:757-759 | What the durability results call stored and standing, in bytes: storage has the data at 512 times the sector, and no acknowledged write since has met the range |
| DoryTheorems.FlatHas | src/c++/devices/dory/dmDory.c:745-796 | On the flat disk an acknowledged write reads back until an acknowledged write overlaps it |
| DoryTheorems.BusyZeroIffIdle | src/c++/devices/dory/dmDory.c:153-158 | The busy count always equals working calls and callbacks plus slots in use, so it is zero if and only if no slot is in use and no one is working |
| DoryTheorems.EmptyMeansStored | src/c++/devices/dory/dmDory.c:656-683 | Whenever every slot is EMPTY, storage is the flat disk except in blocks lost at a stop or about to be overwritten as a whole by a bio in flight |
| DoryGrain.TicketHas | src/c++/devices/dory/dmDory.c:623-643 | Every thread about to complete flushes got there by dropping the count to zero itself and has been on its way since |
| DoryDurable.DurableFrom | src/c++/devices/dory/dmDory.c:862-968 | Every write acknowledged by a moment when every slot was EMPTY is on storage at every later moment of the run, also after a stop, until an acknowledged write overlaps it, unless its block had been lost or is about to be overwritten |
| DoryServed.ServedFlush | src/c++/devices/dory/dmDory.c:623-648 | Every flush that has been acknowledged on a device with a cache had joined the flushes in progress and was then completed by a thread that had dropped the count to zero |
| DoryFlush.FlushDurable | src/c++/devices/dory/dmDory.c:623-648 | At every moment after the acknowledgement of a flush: every write acknowledged before the decrement of the thread that completed the flush is on storage, unless lost by then or about to be overwritten, and that covers every write acknowledged before the flush if the flush joined before that decrement; without a cache, it covers every write acknowledged when the flush was forwarded |
| DoryFlush.AtomicFlushDurable | src/c++/devices/dory/dmDory.c:623-648 | With the decrement to zero and the flush section as one step, every acknowledged flush has made durable every write acknowledged before it joined |
| DoryFlush.LossCounted | src/c++/devices/dory/dmDory.c:719-723 | In every run a cached block has been lost if and only if a flush failure has been counted |
| DoryFlush.FlushVerdict | src/c++/devices/dory/dmDory.c:534-569 | A flush is refused if and only if a write has been refused, and that verdict is right if and only if writes refused and write-backs lost are both zero or neither is |
| DoryTheorems.BioConservation | src/c++/devices/dory/dmDory.c:534-614 | Every accepted bio is in exactly one place at any time, and none ends twice |
| DoryTheorems.NoneStranded | src/c++/devices/dory/dmDory.c:669-682 | A slot with waiters is COPYING or WRITING and has one thread at work on it; queued work has exactly one work item; deferred bios imply a flush in progress; a flush in progress implies a positive count or a thread about to complete it; once no call is working during a flush, every slot in use is being written |
| DoryTheorems.NoStaleWriteBack | src/c++/devices/dory/dmDory.c:823-876 | A block is cached at most once, in the slot of its residue, and no slot holds the block of a bio on its way to storage |
| DoryTheorems.DropStaysBusy | src/c++/devices/dory/dmDory.c:862-868 | The bare decrement on the full-block FUA or discard path never reaches zero |
| DoryFlush.CrashExposure | src/c++/devices/dory/dmDory.c:719-729 | At any moment storage differs from the flat disk only in blocks a slot holds with the right contents, lost, or about to be overwritten; and no acknowledged write that storage lacks was acknowledged by an earlier moment when every slot was EMPTY, such as the decrement of a completed flush, unless lost by then or about to be overwritten |
| DoryTheorems.FuaNeverLost | src/c++/devices/dory/dmDory.c:862-875 | An acknowledged FUA write is on storage, before and after a stop, until an acknowledged write overlaps it |
| DoryInv.InvAlways | src/c++/devices/dory/dmDory.c:914-968 | The whole invariant (accounts, conservation, flush protocol, cache discipline, flat-disk view, crash exposure) holds in every state of every run |
| DoryProgress.RunLowers | src/c++/devices/dory/dmDory.c:656-683 | Every section of every thread lowers a well-founded rank |
| DoryProgress.NoDeadlock | src/c++/devices/dory/dmDory.c:977-990 | Some thread can run unless all are done |
| DoryProgress.DoneMeansEnded | src/c++/devices/dory/dmDory.c:884-968 | When all threads are done no flush, deferred bio, queued work or busy slot is left and every accepted bio has ended |
| DoryProgress.EverySchedule | src/c++/devices/dory/dmDory.c:787-795 | Every run, continued by any scheduler that knows all that happened and may stop the device or change its settings at any time, but with no new bios, comes to an end with every flush and every other accepted bio ended |
| DoryStop.StopSeals | src/c++/devices/dory/dmDory.c:914-921 | Over the whole run after a stop: no write is admitted and no write-back submitted any more, a block of storage changes only if a write to that block had been admitted or a write-back of that block was under way at the stop, and a write not admitted by then is never served |
| DoryGrain.NeverEarly | src/c++/devices/dory/dmDory.c:623-648 | If no other section runs between the decrement to zero and the flush section, every thread that completes flushes has just made its decrement and finds the count at zero |
| DoryPolicy.GateVerdict | src/c++/devices/dory/dmDory.c:914-930 | In every run a call ends its bio refused and counts a write failure if and only if the device is stopped and the bio is a write, a FUA write, a discard or an empty write with REQ_PREFLUSH; otherwise it goes on |
| DoryPolicy.NoneAfterStop | src/c++/devices/dory/dmDory.c:914-921 | No write, FUA write, discard or empty write with REQ_PREFLUSH whose call starts after the stop is ever served |
| DoryPolicy.EntryVerdict | src/c++/devices/dory/dmDory.c:931-954 | In every run a flush joins those in progress and walks exactly if it is the first, and any other bio is deferred, last in line, exactly if a flush is in progress |
| DoryPolicy.LookVerdict | src/c++/devices/dory/dmDory.c:817-876 | In every run: a read or write that finds its block DIRTY is served from that slot; a full-block write fills an EMPTY slot exactly if digit (block modulo modulus) of the mask is one; a bio waits for a slot being copied or written; a FUA write or discard drops the block it covers and has any other written back first; anything else goes to storage; the slot is the block number modulo the slots |
| DoryPolicy.WritesRun | src/c++/devices/dory/dmDory.c:784-895 | A section turns a slot to WRITING if and only if it ends a copy during a flush, walks over it DIRTY, or looks up a FUA write or discard of part of its own block |
| DoryPolicy.WrittenFor | src/c++/devices/dory/dmDory.c:784-895 | Whenever a slot becomes WRITING in a run, a thread ran for which one of these was the case |
| DoryPolicy.AtomicWrittenFor | src/c++/devices/dory/dmDory.c:784-895 | With the decrement to zero and the flush section as one step, a slot becomes WRITING only while a flush is in progress or for a FUA write or discard of part of its own block |
| DoryOrder.NoOvertaking | src/c++/devices/dory/dmDory.c:534-614 | If one bio waits before another on any list, for a flush, a slot or a worker, it is started before the other |
| DoryOrder.FlushesInOrder | src/c++/devices/dory/dmDory.c:534-569 | Flushes in progress together are forwarded or refused in the order in which they joined |
| DoryRuns.EarlyFlush | src/c++/devices/dory/dmDory.c:625-643 | For any disk and data, a run without a stop that acknowledges a write after a thread's decrement to zero, then accepts and acknowledges a flush, with the write not on storage |
| DoryRuns.DroppedWrite | src/c++/devices/dory/dmDory.c:862-868 | For any disk and data, a run that acknowledges a flush at count zero while an earlier acknowledged write is not on storage, because a FUA write in flight dropped it |
| DoryRuns.StoppedFlush | src/c++/devices/dory/dmDory.c:719-724 | For any disk and data, a run in which a flush is served although the stop lost a cached block, the callback of the refused write-back having run inline |
| DoryRuns.RefusedFlush | src/c++/devices/dory/dmDory.c:534-569 | For any disk and data, a run in which a flush accepted before the stop is refused because a write was, with nothing lost and no flush failure counted |
| DoryRuns.WalkAfterFlush | src/c++/devices/dory/dmDory.c:884-894 | For any disk and data, a run in which a slot is written back by the walk of a flush that is no longer in progress |
| DoryRuns.FlushHeldUp | src/c++/devices/dory/dmDory.c:928-952 | For every n, a run in which a flush accepted first is still in progress after n more bios have been accepted and deferred, all their calls but the last being over |
| DoryDriver.DoryDevice.PassGate | src/c++/devices/dory/dmDory.c:914-930 | In place, the gate: writes are refused after a stop, bios pass through without a cache, and any other bio is counted as busy |
| DoryDriver.DoryDevice.EnterBio | src/c++/devices/dory/dmDory.c:931-954 | In place, the flush-lock section: a flush is queued and told whether it is the first, a bio behind a flush is deferred, any other goes on |
| DoryDriver.DoryDevice.ProcessBioLocked | src/c++/devices/dory/dmDory.c:817-876 | In place, the slot lookup in all its outcomes: remapped, copied, filled, waiting, evicted or dropped |
| DoryDriver.DoryDevice.FinishCopy | src/c++/devices/dory/dmDory.c:780-796 | In place, the end of a copy: the slot becomes DIRTY, or WRITING during a flush, and its waiters are released |
| DoryDriver.DoryDevice.FlushTheCache | src/c++/devices/dory/dmDory.c:884-894 | The walk turns exactly the DIRTY slots to WRITING and submits exactly those, each once, in order |
| DoryDriver.DoryDevice.EndFlushCacheBlock | src/c++/devices/dory/dmDory.c:656-683 | In place, the end of a write-back: the slot is EMPTY and its waiters are released |
| DoryDriver.DoryDevice.CompleteFlushes | src/c++/devices/dory/dmDory.c:630-648 | In place, the flush section: all flushes complete and all deferred bios become ready, or nothing changes |
| DoryDriver.DoryDevice.ScheduleDelayed | src/c++/devices/dory/dmDory.c:580-614 | In place, queueing of delayed work; a worker is scheduled exactly when the lists were empty and something is added |
| DoryDriver.CopyIn | src/c++/devices/dory/dmDory.c:756-778 | For every segmentation, copying segment by segment into a block equals one contiguous copy of the segments' concatenation |
| DoryDriver.CopyOut | src/c++/devices/dory/dmDory.c:756-778 | For every segmentation, the segments copied out concatenate to one contiguous range of the block |
| FileLock.TableExact | src/c++/third/fio/filelock.c:35-68 | Over all interleavings each entry is on exactly one list once; one in use counts exactly its callers, at least one; a free one has none and its semaphore up; no hash is in use twice |
| FileLock.Exclusive | src/c++/third/fio/filelock.c:168-213 | No two callers ever hold the same hash |
| FileLock.UnlockFinds | src/c++/third/fio/filelock.c:225-246 | The lookup of an unlock always finds the entry the caller holds, so the error message is unreachable for a holder |
| FileLock.WaitsForHolder | src/c++/third/fio/filelock.c:186-189 | A caller is kept waiting if and only if another caller holds its hash |
| FileLock.LookupGets | src/c++/third/fio/filelock.c:40-68 | A lookup gets an entry if and only if a caller has the name already or some entry has no caller, and one that has slept only in the second case; without an entry a try-lock fails and a lock sleeps |
| FileLock.TryTakes | src/c++/third/fio/filelock.c:191-192 | A try-lock takes the lock at its first try if and only if no caller holds the name, and misses otherwise |
| FileLock.FailsFor | src/c++/third/fio/filelock.c:181-213 | A try-lock fails only at its lookup, when no caller has the name and every entry has a caller, or after it tried while another caller held the name, when another caller still refers to the entry |
| FileLock.GivesUp | src/c++/third/fio/filelock.c:194-205 | A try-lock that missed gives up if and only if another caller also refers to its entry |
| FileLock.QuietMeansEmpty | src/c++/third/fio/filelock.c:98-103 | With no caller left the list in use is empty, so the assertion at exit holds |
| FileLock.FullMeansBusy | src/c++/third/fio/filelock.c:133-143 | A lookup fails only when every entry of the table has a caller |
| FileLock.NeverStuck | src/c++/third/fio/filelock.c:52-68 | While a caller is under way some caller can take a step that changes the state |
| FileLock.TryLockCanWait | src/c++/third/fio/filelock.c:196-210 | A run in which a try-lock misses, finds itself alone, and is then kept waiting by a later caller |
| FileLock.TryLockWaits | src/c++/third/fio/filelock.c:191-213 | A try-lock waits only after finding itself alone with its entry, when it could have taken the semaphore, and is kept waiting if and only if a caller that looked the name up after that moment holds it |
| FileLockTable.LockTable.HashFind | src/c++/third/fio/filelock.c:119-131 | The list scan finds the first entry with the hash, or the end |
| FileLockTable.LockTable.TakeFree | src/c++/third/fio/filelock.c:40-163 | Taking a free entry, looking again and putting it back has the effect of one lookup that prefers an entry in use |
| FileLockTable.LockTable.Get | src/c++/third/fio/filelock.c:133-179 | In place, the first lookup of a caller, with its reference counted |
| FileLockTable.LockTable.GetAgain | src/c++/third/fio/filelock.c:52-68 | In place, a lookup after sleeping; it needs a free entry even when the hash has appeared meanwhile |
| FileLockTable.LockTable.Unlock | src/c++/third/fio/filelock.c:225-246 | In place, unlocking and recycling on the last reference |
| FlowShare.CounterExact | src/c++/third/fio/flow.c:47-52 | Over all joins and exits the group's counter is one more than its jobs' counts with their increments in progress, and weight and references are exact sums |
| FlowShare.LastPut | src/c++/third/fio/flow.c:95-113 | When the last job drops the group, its counter is one and its weight zero, so the assertion never fails |
| FlowShare.Divisors | src/c++/third/fio/flow.c:25-28 | Neither ratio of the check divides by zero |
| FlowShare.Proportional | src/c++/third/fio/flow.c:17-55 | With fixed membership and fair initial counts, every job's count stays within one above and the number of members below its exact share, forever |
| FlowShare.FreshIsFair | src/c++/third/fio/flow.c:115-122 | In every run a group whose jobs are all out, or idle with a count of zero, is fair |
| FlowShare.Settles | src/c++/third/fio/flow.c:17-55 | With fixed membership and any counts at all, a job either has counted no more since, but for the check it was in, or is within one above its exact share |
| FlowShare.NeverStalls | src/c++/third/fio/flow.c:36-45 | Unless a job is half way out, some job of the group would pass the check, in every state |
| FlowShare.LeaverStalls | src/c++/third/fio/flow.c:103-104 | A run to a state in which a job is half way out and no job of the group would pass the check |
| FlowList.FlowTable.Get | src/c++/third/fio/flow.c:57-93 | The scan finds the group with the id or appends a fresh one, and ids stay unique |
| FlowList.FlowTable.Put | src/c++/third/fio/flow.c:95-113 | The group loses the job's count and weight, and is deleted with its last reference |
| FlowList.GetShown | src/c++/third/fio/flow.c:57-93 | A get is the join step of its own group and changes no other group |
| FlowList.PutShown | src/c++/third/fio/flow.c:95-113 | A put is the three leaving steps of its own group, the last one leaving a counter of one and no weight |
| FlowList.PutElsewhere | src/c++/third/fio/flow.c:95-113 | A put changes no other group |
| CpuClock.CpuClockGlobals.Calibrate | src/c++/third/fio/gettime.c:314-359 | The loops, with every product wrapping at 64 bits, find the specified shifts, multiplier, mask and block length |
| CpuClock.Log2 | src/c++/third/fio/gettime.c:344-348 | The shift loop finds the highest set bit |
| CpuClock.Ones | src/c++/third/fio/gettime.c:358-359 | The mask loop sets exactly the low bits |
| CpuClock.MultBound | src/c++/third/fio/gettime.c:320-332 | The multiplier stays within the bound computed for it, for every cycle rate in range |
| CpuClock.ProductsFit | src/c++/third/fio/gettime.c:204-206 | No product with the multiplier leaves 64 bits |
| CpuClock.StagesAgree | src/c++/third/fio/gettime.c:203-206 | The two-stage shift and mask form equals the single floor for every number of cycles |
| CpuClock.Monotone | src/c++/third/fio/gettime.c:349-355 | Later cycles never give an earlier time, and one cycle moves the time by the multiplier over the shift rounded down or up, also across blocks |
| CpuClock.Undershoot | src/c++/third/fio/gettime.c:314-332 | The result never exceeds the true time and falls short by less than t over two to the shift, plus one nanosecond |
| CpuClock.CpuClockGlobals.GetTime | src/c++/third/fio/gettime.c:203-209 | Seconds and nanoseconds are the single floor of the elapsed cycles, modulo 2^64 |
| Limiter.Bounded | src/c++/devices/flushnop/limiter.c:64-81 | The active count is what the threads hold together and lies between zero and the limit, in every run |
| Limiter.Peak | src/c++/devices/flushnop/limiter.c:76-79 | The recorded maximum is the peak of the active count over the run |
| Limiter.NoneStranded | src/c++/devices/flushnop/limiter.c:35-45 | While a thread sleeps, woken threads and pending wake-ups number at least the free units |
| Limiter.SleepsForAReason | src/c++/devices/flushnop/limiter.c:35-81 | While a thread sleeps, some thread is woken or owes a wake-up, or every unit is held |
| Limiter.LimiterObject.TakeOrQueue | src/c++/devices/flushnop/limiter.c:64-81 | One turn of the wait loop takes a unit exactly when one is free and otherwise queues the thread |
| Limiter.LimiterObject.ReleaseMany | src/c++/devices/flushnop/limiter.c:35-45 | A release wakes the first sleepers, as many as units released, or all for none |
| Semaphore.WaitersExact | src/c++/third/fio/fio_sem.c:149-163 | The waiter count is the number of threads in the wait or back from it, however the semaphore is used |
| Semaphore.MutualExclusion | src/c++/third/fio/fio_sem.c:133-180 | Raised only by its holder, value and holders sum to one and no two threads hold it |
| Semaphore.TakesIfFree | src/c++/third/fio/fio_sem.c:133-163 | Used as a lock, a down or a try takes it at once if and only if no thread holds it |
| Semaphore.HolderRaisesFromZero | src/c++/third/fio/fio_sem.c:165-180 | Raising only by the holder implies raising only from zero |
| Semaphore.NoLostWakeUp | src/c++/third/fio/fio_sem.c:165-180 | Raised only from zero, an up semaphore with a sleeper always has a runnable waiter, despite barging and spurious wake-ups |
| Semaphore.StrandedMeansTwo | src/c++/third/fio/fio_sem.c:172-177 | In any use, sleepers are stranded only after the value has gone above one |
| Semaphore.StrandingStep | src/c++/third/fio/fio_sem.c:149-177 | A step strands sleepers if and only if it is the last runnable waiter taking the semaphore while its value is above one and a thread sleeps |
| Semaphore.SleeperHasHope | src/c++/third/fio/fio_sem.c:149-163 | Used as a lock, a sleeper always has a runnable thread or a holder to wait for |
| Semaphore.LostWakeUp | src/c++/third/fio/fio_sem.c:172-177 | A run in which two raises signal once and leave a sleeper with the semaphore up |
| Fifo.PutAppends | src/c++/third/fio/fifo.c:50-71 | Putting appends to the byte sequence, around the end of the buffer and across 32-bit wrap-around |
| Fifo.GetRemoves | src/c++/third/fio/fifo.c:73-98 | Getting removes from the front, also when the emptied ring resets its counters |
| Fifo.RoomLeft | src/c++/third/fio/fifo.h:36-44 | Over wrapping counters, room is size minus length |
| Fifo.RingFifo.Put | src/c++/third/fio/fifo.c:50-71 | In place, appends exactly the first bytes that fit |
| Fifo.RingFifo.Get | src/c++/third/fio/fifo.c:73-98 | In place, removes and returns exactly the first bytes there are |
| TraceFile.TraceReader.Refill | src/c++/third/fio/blktrace.c:19-43 | Refilling keeps the stream and fills the FIFO with as much as it can hold |
| TraceFile.TraceReader.Get | src/c++/third/fio/blktrace.c:48-59 | Delivers the next bytes of the stream, as many as asked for up to 8192 and the end |
| TraceAction.AcceptedIffSelected | src/c++/third/fio/blktrace.c:665-666 | A record counts if and only if the low 16 bits of its action are 1 and, bit by bit, its direction is a read, a write or a discard |
| TraceAction.AcceptedIffWordSelected | src/c++/third/fio/blktrace.c:396-406 | The same for every 32-bit word, with the masks of the source |
| TraceLayout.EncodedDecodes | src/c++/third/fio/blktrace.c:376-389 | A header written field by field in either byte order is read back with its time, action and data length, and in the machine's byte order |
| TraceLayout.EncodedTest | src/c++/third/fio/blktrace.c:78-108 | A file whose first header has the magic number is taken for a trace, in the byte order it was written in |
| TraceLayout.FileReads | src/c++/third/fio/blktrace.c:642-682 | A file that holds any records in either byte order is read as exactly its queued reads, writes and discards, in order, unless some record has more data than the FIFO holds, which makes it unreadable |
| TraceOutput.MergedReads | src/c++/third/fio/blktrace.c:684-689 | The file written for a sequence of records is read back as exactly those records |
| TraceMerge.ReadTrace | src/c++/third/fio/blktrace.c:642-682 | Reading through the FIFO, the skip loop finds the next record that counts, or the end, or the error, as specified on the bytes of the file |
| TraceMerge.ReadOn | src/c++/third/fio/blktrace.c:760-779 | Writing a cursor's record and reading on leaves exactly the rest of its file ahead |
| TraceMerge.FindEarliest | src/c++/third/fio/blktrace.c:609-622 | Returns the first cursor whose record no other precedes |
| TraceMerge.Advance | src/c++/third/fio/blktrace.c:762-777 | In place and without disturbing the other open files, a cursor's data is discarded, its record written and the next one read; if that fails, with what it leaves to be returned |
| TraceMerge.FinishFile | src/c++/third/fio/blktrace.c:632-639 | In place, the last cursor takes the place of a finished one |
| TraceMerge.Step | src/c++/third/fio/blktrace.c:762-779 | In place, what a turn of the merge loop does to the cursor it chose: read on, finished, or failed |
| TraceMerge.Turn | src/c++/third/fio/blktrace.c:760-779 | In place, one turn of the merge loop, for the first cursor whose record no other precedes |
| TraceMerge.Merge | src/c++/third/fio/blktrace.c:760-784 | Over cursors that share no file, the loop terminates; the merged trace is adopted if and only if every file is good, and then holds every record as often as it occurs, sorted by time if each file is; otherwise the return value is zero exactly if the flaw that stopped it is a record without any of its data, and no flaw would have shown earlier if each file is in order |
| TraceOpen.Open | src/c++/third/fio/blktrace.c:728-756 | The open loop's cursors, with the test for a blktrace and its byte order, and with slots given up by files without records reused as they were left; or what it returns on the first file that does not open |
| TraceScalars.OwnScalars | src/c++/third/fio/blktrace.c:748-755 | Every file gets its own scalar, whatever the scalars, if and only if no file without records comes before one with some |
| TraceScalars.GapsShift | src/c++/third/fio/blktrace.c:632-682 | A file that comes after n traces without records that count is opened with the scalar of the first of them, and its times are late by n times the first last time among them that is not zero |
| TraceExamples.GapExample | src/c++/third/fio/blktrace.c:748-755 | Two concrete traces in which a read at time 100 with scalar 100 is merged at time 53 |
| TraceExamples.WriteAndDiscard | src/c++/third/fio/blktrace.c:665-666 | For any queued write, and any issued read and queued discard in a byte-swapped file, the merged trace is exactly the discard and the write in order of time |
| TraceExamples.CutOff | src/c++/third/fio/blktrace.c:763-772 | A concrete trace, cut after the header of a record with data, on which the merge returns zero and adopts nothing |
| TraceExamples.NoTrace | src/c++/third/fio/blktrace.c:742-746 | On an empty file the merge returns zero and adopts nothing |
| TraceFile.SoundIffRecords | src/c++/third/fio/blktrace.c:642-682 | A trace has no flaw if and only if all its records can be read |
| TraceResult.ScalingKeepsOrder | src/c++/third/fio/blktrace.c:679-679 | Scaling keeps a file's records in order as long as it stays within 64 bits |
| TraceResult.OpeningStops | src/c++/third/fio/blktrace.c:742-751 | The first file that does not open stops the loop: with -1 if it is a broken trace, and if it is no trace with what the file before it left, 48 after a file with records and 0 after one without or for the first file |
| TraceResult.StoppedFlaws | src/c++/third/fio/blktrace.c:763-777 | A merge that stopped with zero had a file cut after the header of a record with data, and one that stopped with another value a file broken otherwise |
| TraceResult.MergeFiles | src/c++/third/fio/blktrace.c:728-784 | From bytes to output: the merged trace is adopted if and only if every file is a blktrace that can be read to its end; without a gap it is exactly the files' records, each scaled by its own scalar, and sorted by time if every file is and scaling stays within 64 bits; the merged file reads back as the records in it; in every other case the return value is given, zero among them |
| RequeueRing.RoundUp | src/c++/third/fio/io_u_queue.c:29-40 | The or-shift rounding gives the least power of two that is at least nr + 1 below 2^31, and zero from there on |
| RequeueRing.PushAppends | src/c++/third/fio/io_u_queue.h:61-70 | A push appends if and only if a slot besides the new one stays free; for a full ring the assertion fires if and only if the tail is not at the start of the buffer, and otherwise the ring looks empty |
| RequeueRing.FullLooksEmpty | src/c++/third/fio/io_u_queue.h:61-70 | A concrete full ring that a push empties without being refused |
| RequeueRing.PopRemoves | src/c++/third/fio/io_u_queue.h:72-82 | A pop removes the first unit |
| RequeueRing.RingIsQueue | src/c++/third/fio/io_u_queue.h:61-82 | With at most nr units outstanding, every sequence of pushes and pops gives the results of a plain queue |
| RequeueRing.IoURing.constructor | src/c++/third/fio/io_u_queue.c:29-48 | An empty ring of the least sufficient power of two |
| RequeueRing.IoURing.Push | src/c++/third/fio/io_u_queue.h:61-70 | In place, appends, and the assertion is unreachable while a slot stays free |
| RequeueRing.IoURing.Pop | src/c++/third/fio/io_u_queue.h:72-82 | In place, removes and returns the first unit, or nothing from an empty ring |
| Condensed.RunsExpand | src/c++/third/fio/eta.c:20-30 | The runs of a string spell it out again |
| Condensed.RunsMaximal | src/c++/third/fio/eta.c:25-28 | Every count is at least one and neighbouring groups have different letters |
| Condensed.RoundTrip | src/c++/third/fio/eta.c:18-34 | Decoding the condensed string gives the original, for every string |
| Condensed.StatusLine | src/c++/third/fio/eta.c:18-34 | The text of a concrete status line |
| Condensed.FitsBuffer | src/c++/third/fio/eta.c:16-33 | The output with its terminator fits in five characters for each character of the input |
| Condensed.Condense | src/c++/third/fio/eta.c:18-34 | The nested loops terminate and write the condensed string |

## Left out

- FlowShare.Proportional: compares exact ratios, so it does not capture the rounding of the source's double-precision division; it starts from fair counts, and FlowShare.Settles covers any others.
- RequeueRing.IoURing.Push: requires a ring with room, because the source's assertion stops the program otherwise; PushAppends covers the full ring.
- TraceMerge.Merge: does not cover more than one pass over a file, where a restarted cursor still holds a record it has already written.
- Dory: sysfs text, construction and teardown, module registration, the error status chosen for refused bios, and failures of the storage.
- Traces: files that cannot be opened, read errors, and loading a single trace into I/O pieces.
- Limiter: limiterWaitForIdle, which can absorb a wake-up meant for an acquirer.
- Semaphore: the wait with a timeout, which depends on clocks.
- Flow groups: allocation failure, the sleep of a job that fails the check, and counters beyond 64 bits.
- CPU clock: the floating-point sampling that yields the cycles per millisecond, and the check for a wrapped cycle counter.
- I/O unit stack (io_u_qpush, io_u_qpop): a plain bounded stack, which would only add easy members.
- The remaining devices (dmCorruptor, dmFua, dmTracer, dmFlush) and the rest of fio: pass-through targets, option handling, user interfaces and process plumbing.
