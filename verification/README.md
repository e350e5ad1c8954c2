# QueueCache: a model of the write-back engine, with proofs

QueueCache puts a FIFO queue of copied writes between a disk and its users.  A write that is
admitted to the queue is acknowledged at once; one worker thread per device carries the queue
out on the lower disk, head first; a read takes what it can from the queue and fetches the
sectors in between from the lower disk.  This project models that engine (`qcache/read.cpp`,
`queue.cpp`, `thread.cpp`, `write.cpp`, `ioctl.cpp`, `partialirp.cpp`, the classes of
`qcache.h` and the parts of `mainwdm.cpp` that start, stop and notify it) and proves that it
agrees with the plain disk it speeds up, under every interleaving of submitters, worker,
lower device, readers and the removing thread - and where it does not, exactly when.

## How the model is built

There are three layers.

* **Code.** `ReadPath` is the read routine over arrays (buffer, bitmap, statistics object).
  `Device` is the device extension as a class whose methods are the queue, worker, write,
  control and removal code; `ScatterObject` is the split-read object with its completion
  routine; `PagingDevice` is the usage notification.  Between any two accesses to shared data
  these methods call `Interfere`, which lets everybody else run: its contract grants only
  what every run of the others leaves alone (`Interleaving.OthersRanKeeps`,
  `ScatterObject.OthersRanKeeps`, `PagingDevice.OthersLeaveAlong`).
* **Protocol.** `Protocol`, `Scatter` and `PagingPath` are state machines whose steps are the
  critical sections and single unlocked accesses of that code.  The code layer is proved to
  move only along these steps (`Reaches`), so what holds of every run holds of the code.
* **Properties of runs.** `Ordering`, `Views`, `Durability`, `Freshness`, `Linearizability`,
  `Registers`, `Overtaking`, `Barriers`, `OffBarrier`, `Flushes`, `Shutdown`, `Accounting`,
  `Completion`, `Admission` and `Overshoot` are about all runs of the queue protocol;
  `Requests` says of all runs what disk, readers, lower device and flag owe to the requests
  as they arrived, in no other terms than those;
  `ReadReply` joins the read path and the split read.  `Scenarios` has the runs from a new device that lead to a failure.

The headline is `Registers`: behind all of it, every sector behaves as one register whose
operations take effect one after the other, in an order that respects real time, lazy and
ordinary writes together, on every run and without any condition on the interleaving.

Inductions are written out: no proof relies on Dafny's automatic induction for lemmas.

`Protocol.View` is what readers see: the queued lazy writes replayed over the disk.  The
history `inserted` never forgets, `removed` is what the worker has finished with.

The steps of `Protocol.Do` and the code they stand for:

| step | code |
|---|---|
| Arrive | entry to `QCacheQueueIrp`; OFF and shutdown first clear the flag (qcache/ioctl.cpp:58, qcache/write.cpp:72) |
| TestCached, TestRoom, TestItems | the three unlocked admission tests (qcache/queue.cpp:20-31) |
| Prepare | allocation, remove lock, mapping and copy, with every error exit (qcache/queue.cpp:47-84, 135-204) |
| Insert | the critical sections that insert (qcache/queue.cpp:89-112, 209-233) |
| Signal, CompleteLazy | setting the event, acknowledging (qcache/queue.cpp:114, 235-244) |
| Peek, TestShutdown, Wake | head or empty, exit or wait, woken (qcache/thread.cpp:21-64) |
| FailBuild, Issue, Land, LowerDone | the lower request; one `Land` per sector that arrives (qcache/queue.cpp:259-334) |
| Reply, Remove, Release | completing the original, leaving the queue, the remove lock (qcache/queue.cpp:336-360) |
| CacheOn | IOCTL_QCACHE_ON (qcache/ioctl.cpp:47-55) |
| ClearForRemoval, FlagShutdown, SignalShutdown | removal (qcache/mainwdm.cpp:1197-1199, 494-507) |
| CreateScatter, DeleteScatter | remove locks of split reads (qcache/qcache.h:291-306, 265) |

## Assumptions

* Writes are aligned to 512 bytes and start at a non-negative offset.  Reads are checked for
  alignment (qcache/read.cpp:44), writes are not (qcache/write.cpp:25-40).
  `ReadPath` itself takes any queued write and says what comes of an unaligned one.
* A lower read or write that completes has transferred everything; the worker never looks at
  the outcome (qcache/queue.cpp:327-334).
* The lower device is atomic for each sector, and only for each sector.
* One worker per device (qcache/mainwdm.cpp:917-923).  Once the size is known no write passes
  the queue by, and queued controls other than ON, OFF and FLUSH do not change the medium.
* An item that keeps its original request has offset and length zero, because items are
  allocated zero-filled (qcache/wkmem.hpp:3-18).  The item size is that of a 64-bit build.
* Allocation, mapping and the memory-condition events answer arbitrarily.

## Model

| member | source | states |
|---|---|---|
| Arithmetic.AcceptsExactly | qcache/write.cpp:25-32 | For every signed 64-bit offset and non-zero 32-bit length the wrapping range test accepts exactly the ranges that end inside the disk and past byte 0; an overflowing sum is never accepted. |
| Arithmetic.AcceptsMeansInside | qcache/read.cpp:55-62 | The test means "inside the disk" if and only if the range does not straddle byte 0 (in particular for every non-negative offset). |
| Arithmetic.AcceptsNegativeOffset | qcache/read.cpp:59-62 | A concrete range that starts before the disk and is accepted. |
| Arithmetic.BitmapFits | qcache/read.cpp:87-103 | The bitmap allocation covers every word of the bitmap, and byte positions rebuilt from bit positions fit 32 bits and the read. |
| Bitmaps.SetBits | qcache/read.cpp:140-143 | Sets exactly the bits of the range and keeps all others. |
| Bitmaps.FindNextForwardRunClear | qcache/read.cpp:232-233 | Finds the first clear run from a position, in full length, or shows that none is left. |
| Bitmaps.FindFirstRunClear | qcache/read.cpp:170-171 | The same from position 0. |
| ReadPath.OverlayItem | qcache/read.cpp:121-150 | One queue entry, aligned or not: the buffer takes exactly the bytes a queued write holds, the bitmap the bits the code computes for it, the statistics count it, all positions in bounds. |
| ReadPath.MarksExactly | qcache/read.cpp:140-143 | Those bits mark exactly the bytes the write holds if and only if it shares whole sectors with the read. |
| ReadPath.MergedExactly | qcache/read.cpp:114-237 | For any queue: the buffer a read leaves is the queue replayed over the disk, on every disk and buffer, if and only if the bits mark exactly what the queue holds. |
| ReadPath.WholeSectorsCover | qcache/read.cpp:140-143 | They do if every queued write shares whole sectors with the read. |
| ReadPath.AlignedRead | qcache/read.cpp:10-248 | Then `Read` leaves by the exit its coverage demands, with the queue replayed over the disk. |
| ReadPath.UnalignedWriteIsMisread | qcache/read.cpp:140-143 | One write in the middle of two sectors: the read leaves old buffer bytes in the first and old disk bytes in the second. |
| ReadPath.OverlayQueue | qcache/read.cpp:114-151 | After the walk over any queue a bit is set iff some queued write sets it, the buffer has the newest byte some queued write holds and its old contents elsewhere, the flag says whether any overlaps, and the statistics count every overlapping write and the bytes it shares. |
| ReadPath.ReadGap | qcache/read.cpp:210-230 | A lower read fills the bytes of its gap from the same place of the disk and touches nothing else. |
| ReadPath.ReadGaps | qcache/read.cpp:206-237 | The requests issued are disjoint, maximal clear runs in order whose union is exactly the clear sectors (up to the first that cannot be built); the loop ends. |
| ReadPath.PassDown | qcache/read.cpp:155-168 | With nothing covered the whole request goes down and is counted. |
| ReadPath.Scatter | qcache/read.cpp:206-242 | If all are built the buffer has the copied bytes in marked sectors and the disk's elsewhere; split reads and bytes from below are counted. |
| ReadPath.Finish | qcache/read.cpp:155-247 | Which of the five exits is taken for which bitmap, that every exit that promises data has merged queue and disk, and what each adds to which counter. |
| ReadPath.Serve | qcache/read.cpp:85-247 | The same stated from the queue. |
| ReadPath.Read | qcache/read.cpp:10-248 | The whole routine for any queue: the exact result of every validation failure, negative offsets included, an untouched buffer then, otherwise the exit and the merge that the queue determines; and every counter, from the queue and the exit. |
| ReadPath.GapSectorsComplement | qcache/read.cpp:227-228 | Sectors read from below plus sectors marked in the bitmap are the sectors of the read. |
| Sectors.ReplayBytes | qcache/read.cpp:128-143 | Replaying sector-aligned writes byte by byte and sector by sector is the same, which joins the read path to the protocol. |
| Scatter.NeverTouchedAfterDeletion | qcache/qcache.h:271-278 | No step that reads or writes the split-read object is possible after its deletion. |
| Scatter.InvStep | qcache/partialirp.cpp:146-189 | Every step keeps: the count is the number of references, exactly one party finds it at zero, bytes and status are those recorded. |
| Scatter.CompletedAtMostOnce | qcache/qcache.h:240-278 | In every state of every run the original read has been completed at most once, and only after all lower reads are over and the issuer is through. |
| Scatter.CompletedInTheEnd | qcache/read.cpp:208-245 | A run that cannot go on has completed it. |
| Scatter.EveryStepCounts | qcache/read.cpp:208-245 | Every step lowers a bounded rank, so every run ends. |
| Scatter.FinalReply | qcache/partialirp.cpp:164-176 | A reply that is not negative iff every lower status is non-negative and no request failed to be built, with the sum of the transferred bytes; otherwise no bytes and one of the negative lower statuses, or "insufficient resources" if a build failed. |
| Scatter.DeviceErrorReplied | qcache/qcache.h:242-263 | A whole run in which the one lower read fails with a device error: the read is completed with that status and no bytes. |
| ReadReply.MixedReadReportsGapsOnly | qcache/partialirp.cpp:164-176 | A successful split read reports the length minus the bytes marked in the bitmap, which is the length iff nothing came from the queue (QC-06 of docs/KNOWN_ISSUES.md). |
| ReadReply.ReportedCount | qcache/read.cpp:155-247 | Over all exits: a successful read reports its length if and only if all of it or nothing of it came from the queue. |
| ReadReply.HalfReported | qcache/qcache.h:242-263 | A whole run: a read of 1024 bytes of which 512 came from the queue is completed with success and 512. |
| ScatterObject.OthersRanKeeps | qcache/qcache.h:271-278 | What any run of the other parties leaves alone for one party. |
| ScatterObject.ScatteredIrp.Create | qcache/qcache.h:311-315 | A fresh object is the initial state: one reference, success, no bytes. |
| ScatterObject.ScatteredIrp.BuildIrp | qcache/partialirp.cpp:3-149 | Takes one reference, or records the failure and takes none. |
| ScatterObject.ScatteredIrp.Complete | qcache/qcache.h:271-278 | Drops one reference and destroys at zero, moving along steps of the protocol although others run in between. |
| ScatterObject.ScatteredIrp.IrpCompletionRoutine | qcache/partialirp.cpp:151-190 | Records one result - bytes of a success, status of a failure - and drops its reference, moving along steps of the protocol although others run in between. |
| ScatterObject.ScatteredIrp.Issue | qcache/read.cpp:206-245 | The gap loop against racing completions: builds every request or stops at the first failure, and always drops the issuer's reference. |
| Ordering.QueueInvStep | qcache/queue.cpp:345-358 | Insertion order is dispatched items then queue, and the worker is on the head; kept by every step. |
| Ordering.DiskInvStep | qcache/queue.cpp:255-358 | The disk is the dispatched writes in order plus what has landed of the head's; kept by every step. |
| Ordering.IdsInvStep | qcache/queue.cpp:92-92 | Every inserted item belongs to a request of its own; kept by every step. |
| Durability.CrashLeavesPrefix | qcache/queue.cpp:255-358 | In every reachable state the disk is a prefix of the insertion order, torn in its last write at most; that these writes are the requests' own is `Requests.DiskHoldsRequests`. |
| Durability.FallsBetween | qcache/queue.cpp:259-334 | While a request without data is with the worker, exactly the writes inserted before it are on the disk, and it is the lower request that is outstanding; that it is sent at all is `Requests.SentUnlessMarker`. |
| Durability.CarriedOutForever | qcache/queue.cpp:327-358 | What has been carried out stays so along every run. |
| Durability.NeverOlder | qcache/queue.cpp:282-343 | The disk: from the moment a write has been carried out no later state has older data in its sectors. |
| Requests.DiskHoldsRequests | qcache/queue.cpp:255-358 | In every state of every run a sector of the disk holds what the newest dispatched request that writes there brought when it arrived, or what the request at the head has put there already, or what was there from the start; lazy and ordinary requests together, in the order of insertion. |
| Requests.DrainedDiskHoldsNewest | qcache/queue.cpp:255-358 | With the queue empty, what the newest inserted write request that covers the sector brought, or what was there from the start. |
| Requests.DispatchChanges | qcache/queue.cpp:282-334 | One dispatch changes the sectors of its request's write to that data, and no other sector. |
| Requests.Carried | qcache/queue.cpp:45-112 | Every insertion carries a request that has arrived before. |
| Requests.CarriedWrite | qcache/queue.cpp:127-233 | Its item is one of the two that can be made of that request, and writes to the lower disk what the request asked for, sector by sector, and nothing if it is no write. |
| Requests.ReadReturnsRequest | qcache/read.cpp:111-247 | What a read returns is what the request of its source brought when it arrived. |
| Requests.SentUnlessMarker | qcache/queue.cpp:269-334 | Between the worker taking an item and having finished it there is a state with a lower request outstanding for it if and only if the item is not a queued OFF or FLUSH control. |
| Requests.FlagChanges | qcache/ioctl.cpp:47-60 | On every run the cache flag is cleared exactly by the arrival of a shutdown or OFF request and by removal, and set exactly by ON. |
| Freshness.ViewNotOlder | qcache/queue.cpp:206-235 | What readers see, in every reachable state: a write that is lazily queued or carried out, or a newer one, whatever ordinary writes are on their way. |
| Freshness.ViewNeverOlder | qcache/queue.cpp:206-358 | The same in every later state of every run. |
| Freshness.ReadNeverOlder | qcache/read.cpp:111-247 | A read that looks at the queue after that returns that write or a newer one, although it reaches the disk later; no condition on the interleaving. |
| Freshness.CompletedMeansSettled | qcache/queue.cpp:235-244 | A request that has been completed and has an item is lazily queued or carried out. |
| Freshness.AcknowledgedWritesAreRead | qcache/read.cpp:111-247 | Read your acknowledged writes, in the bytes `ReadPath.Read` leaves: every read that looks at the queue after a write has been completed returns its data or newer. |
| Views.ViewChanges | qcache/queue.cpp:206-233 | Exactly how every step changes what readers see: a lazy insertion over its own sectors, a landing ordinary write where no lazy write is queued, nothing else. |
| Views.WorkerInvisible | qcache/queue.cpp:290-358 | No worker step and no partial lower write of a lazy item changes what readers see. |
| Views.ViewIsReplayOfAll | qcache/read.cpp:114-151 | Wherever no ordinary write waits, readers see all requests inserted so far carried out in order, however far the worker has got. |
| Views.DrainedDisk | qcache/thread.cpp:24-28 | With an empty queue the disk is the whole history and readers see the disk. |
| Registers.OrderIsRealTime | qcache/read.cpp:111-247 | Every sector is a linearizable register on every run, with no condition on the interleaving: writes, lazy and ordinary, in insertion order and each read behind its source; an operation that has ended before another starts comes before it (of two reads: not after it). |
| Registers.ReadsTheLastWrite | qcache/read.cpp:111-247 | In that order every read returns the last write before it, or the initial disk. |
| Registers.BufferIsLastWrites | qcache/read.cpp:111-247 | The same of the bytes that an aligned `ReadPath.Read` leaves, with every gap read at its own moment. |
| Registers.ReadComesFrom | qcache/read.cpp:111-247 | The value a read returns is that of its source, an insertion made before the read ends. |
| Registers.SettledBelow | qcache/queue.cpp:206-244 | The source is not older than anything lazily queued or carried out when the read looked at the queue. |
| Registers.ReadsNeverGoBack | qcache/read.cpp:111-247 | Of two reads one after the other the second returns the same insertion or a newer one, on every run. |
| Registers.ArrivalsGoBehind | qcache/queue.cpp:89-112 | A request is inserted behind all that had been inserted when it arrived. |
| Registers.DiskComesFrom | qcache/queue.cpp:255-358 | What is on a sector of the disk is the head if it has got there, otherwise the newest dispatched write to it. |
| Linearizability.SectorLinearizable | qcache/read.cpp:111-247 | More than being in order: every sector a read returns also was visible, as disk and queue together, at one moment between its look at the queue and its look at the disk, unless the last thing that landed there was an ordinary write under a queued lazy one. |
| Linearizability.LazySectorLinearizable | qcache/read.cpp:111-247 | Without any condition on the interleaving if the writes to the sector were admitted to the lazy path. |
| Overtaking.VisibleExactlyUnlessOvertaken | qcache/read.cpp:111-247 | The exact condition for matching a view: where ordinary writes bring data of their own, a sector was visible during the read if and only if it was not overtaken in that way. |
| Overtaking.OvertakenNotInView | qcache/queue.cpp:282-343 | Such overtaken data are visible at no moment at all, before, during or after the landing. |
| Registers.ViewHasSource | qcache/queue.cpp:255-358 | Whatever readers see comes from a lazy write, or from a write that has reached that sector of the disk, or was there from the start. |
| Overtaking.OvertakenReadIsNeverVisible | qcache/queue.cpp:282-288 | From every state with an ordinary write about to be sent and a lazy one about to be queued over it, a run whose read returns data that is visible at no moment. |
| Overtaking.ReadThatWasNeverVisible | qcache/queue.cpp:20-43 | A whole run from a new device with such a read: the ordinary write is declined by the memory test, the lazy one overtakes it in the queue. |
| Linearizability.EntriesQueued | qcache/write.cpp:25-40 | In every reachable state the queue satisfies what any aligned read relies on. |
| Linearizability.ReadLinearizable | qcache/read.cpp:111-247 | `SectorLinearizable` at the level of the buffer bytes that `ReadPath.Read` leaves, with every gap read at its own moment. |
| Shutdown.WakeInvStep | qcache/thread.cpp:21-64 | A worker that waits, or is about to, with work or a shutdown request pending has the event set or a thread about to set it; kept by every step. |
| Shutdown.NoLostWakeup | qcache/queue.cpp:112-114 | In every reachable state a waiting worker with work or shutdown pending can wake, or some thread can take the step that wakes it. |
| Shutdown.ExitMeansDrained | qcache/thread.cpp:28-33 | When the worker has exited, shutdown was requested and everything inserted before its last look is on the disk, in order. |
| Shutdown.DrainProgress | qcache/thread.cpp:16-69 | Every step of the worker or the lower device uses up some of what remains to be done, sectors included, except a failed build and a wake-up. |
| Shutdown.DrainBound | qcache/thread.cpp:16-69 | Without insertions worker and lower device make a bounded number of steps, but for the retries. |
| Shutdown.WakesOnce | qcache/thread.cpp:28-33 | Once shutdown has been requested the worker wakes up once at most. |
| Shutdown.DrainedInTheEnd | qcache/thread.cpp:16-71 | Every run with shutdown requested that cannot go on ends with the worker gone and everything inserted before its last look on the disk in order; the queue is empty if and only if nothing was inserted after that look. |
| Shutdown.WorkerNeverStuck | qcache/thread.cpp:16-69 | A worker that neither waits nor has exited can make progress, itself or by a sector landing that has not landed yet. |
| Shutdown.CarriedOutAtExit | qcache/thread.cpp:21-33 | The exact condition: with the worker gone an item has been carried out if and only if it had been inserted when the worker last looked. |
| Shutdown.AcknowledgedButStranded | qcache/thread.cpp:21-33 | From every reachable state with that look over and a lazy insertion pending, a run that acknowledges the write - before the removal begins, if it has not begun - and never carries it out (QC-03). |
| Shutdown.LostWrite | qcache/thread.cpp:21-33 | A whole run from a new device that loses an acknowledged write. |
| Shutdown.NothingAfterExit | qcache/thread.cpp:66-71 | After the exit neither disk nor queued items change on any run. |
| Barriers.CompletionIsBarrier | qcache/queue.cpp:269-343 | When the worker completes a FLUSH or OFF marker, an ordinary flush or a shutdown, exactly the items inserted before it are removed and on the disk. |
| Flushes.DeferredFlushExactly | qcache/queue.cpp:235-244 | A flush on the lazy path: that everything before it is on the disk whenever it is completed holds if and only if all of it was there when the flush was inserted. |
| Flushes.FlushThatFlushesNothing | qcache/queue.cpp:20-43 | A whole run from a new device with a write and a flush, both acknowledged, and the disk as it was (QC-01). |
| Barriers.OffIsBarrier | qcache/ioctl.cpp:57-60 | If no thread can still get past the flag when OFF has cleared it, then from its completion until the next ON there is nothing lazy in the queue and readers see the bare disk. |
| OffBarrier.OffIsBarrierExactly | qcache/queue.cpp:20-43 | The exact condition, for every reachable state in which OFF has just arrived: it is a barrier on every continuation if and only if no thread can still get past the flag, or the worker is leaving and never completes it. |
| OffBarrier.BarrierBreaks | qcache/queue.cpp:20-43 | Otherwise a run from there completes OFF and ends with that thread's lazy item in the queue. |
| Barriers.LateLazyInsert | qcache/queue.cpp:20-35 | A whole run from a new device: OFF arrives, is dispatched, completed and removed, and then a write that had passed the test is queued, so that readers see data the disk does not have with the cache off. |
| Admission.LazyItemsBounded | qcache/queue.cpp:28-35 | With at most k threads past the item test, never more than MaxQueueItems - 1 + k lazy items, whatever ordinary items do. |
| Admission.LazyBytesBounded | qcache/queue.cpp:28-35 | With at most k threads past the size test, never more than MaxQueueSize - 1 + k * (item size + largest write) lazy bytes. |
| Overshoot.ItemBoundReached | qcache/queue.cpp:28-35 | The bound on items is reached, for every limit and every k, by a run from a new device. |
| Overshoot.ByteBoundReached | qcache/queue.cpp:28-35 | So is the bound on bytes, for every size limit that queued items can just miss. |
| Accounting.CountersExact | qcache/queue.cpp:94-110 | In every reachable state size and items are those of the queue and the Top fields are the exact maxima over the run. |
| Accounting.CountersInvStep | qcache/queue.cpp:351-356 | The two insertion paths and the removal path keep the counters and maxima exact. |
| Accounting.LocksBalance | qcache/queue.cpp:147-200 | Remove locks held are those of queue items, items in transit and live split reads, plus one for every failed mapping or payload allocation; so they balance if and only if none has failed (QC-05). |
| Accounting.ForgottenLock | qcache/queue.cpp:175-186 | A whole run from a new device after which nothing is under way and a lock is held. |
| Completion.ExactlyOnce | qcache/queue.cpp:336-343 | Every request has been completed once, or not yet and is owed by its thread or by the queue, never both. |
| Interleaving.GoodStep | qcache/queue.cpp:206-233 | All these invariants are kept by every step. |
| Interleaving.OthersRanKeeps | qcache/qcache.h:143-187 | What any run of the others leaves to one submitter, to the worker or to the removing thread. |
| Device.DeviceExtension.constructor | qcache/mainwdm.cpp:843-846 | A new device is the initial state: empty queue, event clear, caching on. |
| Device.DeviceExtension.InsertTail | qcache/queue.cpp:92-110 | Appends one item and charges the counters. |
| Device.DeviceExtension.Admit | qcache/queue.cpp:20-31 | A request reaches the lazy path if and only if it is a write or a flush, memory is fine, and flag, size and item count passed, each in the state of its own test. |
| Device.DeviceExtension.PrepareItem | qcache/queue.cpp:137-204 | An item with its remove lock, or a request completed with a failure and never inserted. |
| Device.DeviceExtension.QueueLazyWriteIrp | qcache/queue.cpp:127-247 | Success means the copy is in the queue history and the request completed once; failure means completed once and never inserted. |
| Device.DeviceExtension.QueueOrdinaryIrp | qcache/queue.cpp:45-117 | Pending means the item that keeps the request is in the queue history. |
| Device.DeviceExtension.QueueIrp | qcache/queue.cpp:14-117 | The exact result, under interference: a write or flush that passes the tests, in the states in which they were made, is acknowledged or fails for want of its item; any other request is left pending or fails for want of its item. |
| Device.DeviceExtension.Register | qcache/ioctl.cpp:57-60 | Shutdown and OFF clear the cache flag before they are queued, and no other request touches it. |
| Device.DeviceExtension.Write | qcache/write.cpp:4-54 | Forwarded, ignored or refused exactly as the range demands, for any offset and length, and then without any effect; otherwise queued with its sectors, acknowledged early exactly if it passes the tests in the states in which they were made. |
| Device.DeviceExtension.Enqueue | qcache/write.cpp:58-77 | Flush, shutdown and controls are queued, with the same exact result; in the state of its arrival a shutdown or OFF has cleared the cache flag and no other request has. |
| Device.DeviceExtension.DeviceControl | qcache/ioctl.cpp:4-84 | Which controls are forwarded (SCSI class requests included), answered, done at once or queued, which request is queued for each, with what result, and that OFF alone has cleared the flag when it arrives. |
| Device.DeviceExtension.TurnOn | qcache/ioctl.cpp:47-55 | Sets the flag and nothing else. |
| Device.DeviceExtension.CallLowerDriver | qcache/queue.cpp:325-334 | The lower request, whose sectors land in any order while others run before and between them; afterwards the disk differs in the sectors of the request the item kept, or of its copy, which hold that data, and nowhere else. |
| Device.DeviceExtension.SendDown | qcache/queue.cpp:261-334 | A lower request is outstanding on the way if and only if the item is not a queued OFF or FLUSH control and its request could be built; a lazy item whose request cannot be built stays the head. |
| Device.DeviceExtension.RemoveEntry | qcache/queue.cpp:348-358 | The entry taken out is the head, and the counters pay back what was charged. |
| Device.DeviceExtension.DispatchQueuedItem | qcache/queue.cpp:251-363 | Exactly the given item is sent down unless it is a marker, written to the sectors it names and no others, and removed; or nothing happens. |
| Device.DeviceExtension.WorkerTurn | qcache/thread.cpp:16-69 | One turn: exit or wait only after seeing the queue empty and everything inserted by then on the disk; otherwise exactly the head is dispatched and its sectors written, or kept if its request cannot be built. |
| Device.DeviceExtension.WakeUp | qcache/thread.cpp:60-63 | The wait consumes the event and changes nothing else. |
| Device.DeviceExtension.ClearCached | qcache/mainwdm.cpp:1197-1197 | Removal starts by turning caching off. |
| Device.DeviceExtension.CleanupDevice | qcache/mainwdm.cpp:494-501 | The shutdown flag is set before the event. |
| Device.DeviceExtension.RemoveDevice | qcache/mainwdm.cpp:1197-1199 | Shutdown requested and the worker woken, whatever others do meanwhile; an ON that arrives meanwhile turns caching on again. |
| PagingPath.InvStep | qcache/mainwdm.cpp:1261-1365 | Every step keeps: one notification at a time past the event, flag and count in step. |
| PagingPath.FlagFollowsCount | qcache/mainwdm.cpp:1261-1365 | In every reachable state: at most one notification inside, none while the event is set, and then the pageable flag fits the count (both ways unless inrush power is needed), lower failures included. |
| PagingPath.UnmatchedRemoval | qcache/mainwdm.cpp:1279-1323 | A removal that no addition announced leaves flag and count in step if and only if there still was a paging file or the flag was off. |
| PagingPath.RemovalOnNewDevice | qcache/mainwdm.cpp:1279-1323 | On a new device it leaves a count of -1 and the flag set. |
| PagingDevice.OthersLeaveAlong | qcache/mainwdm.cpp:1267-1271 | Whatever other notifications do, they leave count, flag and event to the one that is past the event. |
| PagingDevice.DeviceObject.DeviceUsageNotification | qcache/mainwdm.cpp:1261-1373 | The count follows the outcome, the flag follows the count, and a refusal by the lower drivers leaves both as they were, with other notifications running in between. |

## Where the code and its promises part

Each with the exact condition, and a run from a new device or a concrete input.

* A read of which a part came from the queue reports too few bytes: `ReadReply.ReportedCount`, `HalfReported`.
* A write acknowledged after the worker's last look at the queue is never carried out: `Shutdown.CarriedOutAtExit`, `LostWrite`.
* Two error exits keep a remove lock: `Accounting.LocksBalance`, `ForgottenLock`.
* OFF does not stop a thread that has passed the test of the flag: `OffBarrier.OffIsBarrierExactly`, `Barriers.LateLazyInsert`.
* A deferred flush is completed with nothing flushed: `Flushes.DeferredFlushExactly`, `FlushThatFlushesNothing`; a flush that the worker completes is a barrier: `Barriers.CompletionIsBarrier`.
* The queue limits are overshot by as many threads as are on their way: `Admission.LazyItemsBounded`, `LazyBytesBounded`, `Overshoot.ItemBoundReached`, `ByteBoundReached`.
* A range that straddles byte 0 passes the range test: `Arithmetic.AcceptsMeansInside`, `AcceptsNegativeOffset`.
* An unaligned write is taken for whole sectors by reads: `ReadPath.MergedExactly`, `MarksExactly`, `UnalignedWriteIsMisread`.

Not among them: a read whose value matches no view, that is, no moment of disk and queue
taken together (`Overtaking.VisibleExactlyUnlessOvertaken`, `ReadThatWasNeverVisible`).  The
ordinary write it returns had not been completed when the read began, and a plain disk could
have ordered it just before the lazy write; that such an order always exists, for every read
of every run, is `Registers.OrderIsRealTime` with `ReadsTheLastWrite`.

## Left out

- Kernel mechanics: interrupt levels, spin-lock flavours, memory descriptor lists, pool allocation; a critical section is one step.
- `DriverEntry`, registry, attachment, symbolic links, PnP forwarding, and the setting of the device size: set-up over interfaces that are not part of this model.
- The buffered-I/O and copy-back branches of `BuildIrp` (qcache/partialirp.cpp:15-30, 68-119): unreachable, since attachment demands direct I/O and the filter never sets the buffered flag.
- Failures of the lower device after an early acknowledgement, and durability of the medium: the code does not look at the outcome, so nothing is promised.
- Power, hibernation and cancellation, and the fate of items inserted after the worker's exit beyond their being stranded.
- The low-memory event and the LowMemQueued counter (qcache/queue.cpp:33-41): not modelled; the memory conditions are arbitrary booleans.
- The pointers of the intrusive list: the queue is a sequence, so relinking and aliasing of entries are not captured.
- The data copy of a lazy write (qcache/queue.cpp:202): the payload is a value, so that the caller may reuse its buffer afterwards is built in.
- The contents of the statistics that IOCTL_QCACHE_GET_DEVICE_DATA copies out, and the counters of write requests, written bytes and the largest write: not modelled.
- The final lower flush of `QCacheRemoveDevice` and the waits for the worker and for the remove lock: the wait ends when the worker has exited, which `Shutdown` describes.
- `qcachecmd`, `scsichk` and `scsilog`: a command line tool and a separate logger.
- WorkerTurn: one turn of an endless loop; that the loop gets through the queue is stated on runs (`Shutdown.DrainBound`, `Shutdown.WorkerNeverStuck`) and not as a property of the method.
- Interfere: the body lets nobody run; its contract is what callers may rely on, and the lemmas named above show that it allows for every run of the others.
- VisibleExactlyUnlessOvertaken: the "only if" half asks that the overtaken write brings data of its own, since data that equal what readers see anyway cannot be told from it.
- Read: excludes an aligned read that straddles byte 0, which the range test accepts and which would send the lower device a negative offset; what that device answers is not part of this model.
- OrderIsRealTime: one order for each sector; that a read of several sectors sees them all at one moment is not claimed, and the code takes no lock that would see to it.
- Write: a write that is accepted is taken to be aligned and non-negative, since the protocol works on sectors.
- ReadGaps: fills the buffer gap by gap with what the lower device returns; the completion order of the lower reads is the subject of `Scatter` and `ScatterObject`.
