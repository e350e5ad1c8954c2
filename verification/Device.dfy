/** DEVICE_EXTENSION as the object it is: the code of queue.cpp, thread.cpp, write.cpp and
    ioctl.cpp, with other threads running between any two accesses to shared data.  The
    ghost field is the state of the protocol; every method moves it along its steps. */
module Device {
  import opened Arithmetic
  import opened Completion
  import opened Interleaving
  import opened Ordering
  import opened Overlay
  import opened Protocol
  import opened Sectors

  /** How a dispatch routine returns: queued, done, refused, failed, or left to the lower device. */
  datatype Status = Pending | Success | EndOfMedia | Failed | Forwarded | BufferTooSmall

  /** What QCacheDeviceControl tells apart; other controls by whether they need read or write access. */
  datatype IoControl = GetDeviceData(bufferLength: nat) | On | Off | Flush | Other(needsAccess: bool)

  /** How the kernel answers during one call of QCacheQueueIrp. */
  datatype Kernel = Kernel(memoryFine: bool, preparation: Preparation)

  /** The moments at which a request was tested for the lazy path: the flag, the size of the
      queue, and its number of items. */
  datatype Tested = Tested(flag: State, size: State, items: State)

  /** They follow one another between `a` and `b`. */
  ghost predicate During(a: State, at: Tested, b: State) {
    Reaches(a, at.flag) && Reaches(at.flag, at.size) && Reaches(at.size, at.items) && Reaches(at.items, b)
  }

  /** The request passes: a write or a flush, memory conditions fine, and each test on the
      device as it is at its own moment. */
  ghost predicate Passes(request: Request, memoryFine: bool, at: Tested) {
    && (request.WriteRequest? || request.FlushRequest?) && memoryFine
    && at.flag.flags.isCached
    && at.size.counters.size < at.size.limits.maxSize
    && at.items.counters.items < at.items.limits.maxItems
  }

  /** What becomes of a request on either path: a failed mapping or copy concerns the lazy
      one only. */
  ghost function Outcome(lazy: bool, preparation: Preparation): Status {
    if lazy then if preparation == Prepared then Success else Failed
    else if preparation == NoItem || preparation == NoRemoveLock then Failed
    else Pending
  }

  ghost predicate Standing(s: State, id: nat, request: Request, phase: Phase) {
    id < s.callers.nextId && id in s.callers.threads && s.callers.threads[id] == Submitter(request, phase)
  }

  /** `after` is `before` with `data` from sector `offset` on. */
  ghost predicate Overwritten(before: Disk, after: Disk, offset: nat, data: seq<Sector>) {
    && |after| == |before|
    && forall c :: 0 <= c < |after| ==> after[c] == if offset <= c < offset + |data| then data[c - offset] else before[c]
  }

  /** What dispatching an item does to the lower disk: a request the item has kept goes down
      as it is, a copied write with its own offset and data, and nothing else writes. */
  ghost predicate WrittenDown(before: Disk, after: Disk, item: Item) {
    match item.irp
    case None => Overwritten(before, after, item.offset, if item.isWrite then item.data else [])
    case Some(WriteRequest(w)) => Overwritten(before, after, w.offset, w.data)
    case Some(_) => after == before
  }

  class DeviceExtension {
    var writeQueue: seq<Item>
    var writeQueueSize: int
    var writeQueueItems: int
    var writeQueueSizeTop: int
    var writeQueueItemsTop: int
    var isCached: bool
    var writeQueueEvent: bool
    var shutdownThread: bool
    var removeLocks: int
    var nextIrp: nat          // stands for the identity of the next request
    const maxQueueItems: int
    const maxQueueSize: int
    ghost var state: State

    /** The fields are those of the protocol state. */
    ghost predicate Coupled()
      reads this
    {
      && state.core.queue == writeQueue
      && state.counters == Counters(writeQueueSize, writeQueueItems, writeQueueSizeTop, writeQueueItemsTop)
      && state.flags.isCached == isCached && state.flags.event == writeQueueEvent && state.flags.shutdown == shutdownThread
      && state.locks.held == removeLocks && state.callers.nextId == nextIrp
      && state.limits.maxItems == maxQueueItems && state.limits.maxSize == maxQueueSize
    }

    ghost predicate Valid()
      reads this
    {
      Good(state) && Coupled()
    }

    constructor (ghost base: Disk, maxItems: int, maxSize: int)
      ensures Valid() && Init(state) && state.limits.base == base && isCached
    {
      writeQueue, writeQueueSize, writeQueueItems, writeQueueSizeTop, writeQueueItemsTop := [], 0, 0, 0, 0;
      isCached, writeQueueEvent, shutdownThread, removeLocks, nextIrp := true, false, false, 0, 0;
      maxQueueItems, maxQueueSize := maxItems, maxSize;
      state := State(Limits(base, maxItems, maxSize), Core(base, {}, [], Top, [], []), Counters(0, 0, 0, 0),
                     Flags(true, false, false, Absent), Callers(map[], 0, multiset{}), Locks(0, 0, 0));
      new;
      GoodInit(state);
    }

    /** The other threads and the lower device may make any number of steps here.  By
        OthersRanKeeps every run of theirs is allowed for. */
    method Interfere(ghost me: Actor, ghost start: State)
      requires Valid() && Reaches(start, state)
      modifies this
      ensures Valid() && Reaches(start, state) && Unmoved(old(state), state, me)
    {
    }

    ghost method Advance(step: Step, start: State)
      requires Good(state) && Enabled(state, step) && Reaches(start, state)
      modifies this`state
      ensures state == Do(old(state), step) && Good(state) && Reaches(start, state)
    {
      GoodStep(state, step);
      ReachesByStep(state, step);
      ReachesOn(start, state, Do(state, step));
      state := Do(state, step);
    }

    // queue.cpp

    /** The critical section that inserts an item. */
    method InsertTail(item: Item, charge: int)
      modifies this`writeQueue, this`writeQueueSize, this`writeQueueItems, this`writeQueueSizeTop, this`writeQueueItemsTop
      ensures writeQueue == old(writeQueue) + [item]
      ensures Counters(writeQueueSize, writeQueueItems, writeQueueSizeTop, writeQueueItemsTop) ==
              Charge(Counters(old(writeQueueSize), old(writeQueueItems), old(writeQueueSizeTop), old(writeQueueItemsTop)), charge)
    {
      writeQueue := writeQueue + [item];
      writeQueueSize := writeQueueSize + charge;
      writeQueueItems := writeQueueItems + 1;
      if writeQueueSize > writeQueueSizeTop {
        writeQueueSizeTop := writeQueueSize;
      }
      if writeQueueItems > writeQueueItemsTop {
        writeQueueItemsTop := writeQueueItems;
      }
    }

    /** A thread of ours stands in QCacheQueueIrp with this request. */
    ghost predicate Stands(id: nat, request: Request, phase: Phase)
      reads this
    {
      Standing(state, id, request, phase)
    }

    /** The thread has left, and what has become of its request. */
    ghost predicate Left(id: nat, request: Request, status: Status)
      reads this
    {
      && id < state.callers.nextId && id !in state.callers.threads
      && match status
         case Pending => PlainItem(id, request) in state.core.inserted
         case Success => LazyItem(id, request) in state.core.inserted && state.callers.completed[id] == 1
         case _ => state.callers.completed[id] == 1 && forall item :: item in state.core.inserted ==> item.id != id
    }

    method TestFlag(id: nat, request: Request, ghost start: State) returns (passed: bool)
      requires Valid() && Reaches(start, state) && Stands(id, request, Entered)
      modifies this`state
      ensures Valid() && Reaches(start, state) && Stands(id, request, if passed then SawCached else Declined)
      ensures passed == (isCached && request.Deferrable())
    {
      passed := isCached && request.Deferrable();
      Advance(TestCached(id), start);
    }

    method TestSize(id: nat, request: Request, memoryFine: bool, ghost start: State) returns (passed: bool)
      requires Valid() && Reaches(start, state) && Stands(id, request, SawCached)
      modifies this`state
      ensures Valid() && Reaches(start, state) && Stands(id, request, if passed then SawRoom else Declined)
      ensures passed == (memoryFine && writeQueueSize < maxQueueSize)
    {
      passed := memoryFine && writeQueueSize < maxQueueSize;
      Advance(TestRoom(id, memoryFine), start);
    }

    method TestCount(id: nat, request: Request, ghost start: State) returns (passed: bool)
      requires Valid() && Reaches(start, state) && Stands(id, request, SawRoom)
      modifies this`state
      ensures Valid() && Reaches(start, state) && Stands(id, request, if passed then Admitted else Declined)
      ensures passed == (writeQueueItems < maxQueueItems)
    {
      passed := writeQueueItems < maxQueueItems;
      Advance(TestItems(id), start);
    }

    /** The size test after a while, in state `sizeAt`. */
    method AwaitTestSize(id: nat, request: Request, memoryFine: bool, ghost start: State) returns (passed: bool, ghost sizeAt: State)
      requires Valid() && Reaches(start, state) && Stands(id, request, SawCached)
      modifies this
      ensures Valid() && Stands(id, request, if passed then SawRoom else Declined)
      ensures Reaches(start, sizeAt) && Reaches(sizeAt, state)
      ensures passed == (memoryFine && sizeAt.counters.size < sizeAt.limits.maxSize)
    {
      Interfere(Caller(id), start);
      sizeAt := state;
      ReachesItself(state);
      passed := TestSize(id, request, memoryFine, sizeAt);
    }

    /** The item test after a while, in state `itemsAt`. */
    method AwaitTestCount(id: nat, request: Request, ghost start: State) returns (passed: bool, ghost itemsAt: State)
      requires Valid() && Reaches(start, state) && Stands(id, request, SawRoom)
      modifies this
      ensures Valid() && Stands(id, request, if passed then Admitted else Declined)
      ensures Reaches(start, itemsAt) && Reaches(itemsAt, state)
      ensures passed == (itemsAt.counters.items < itemsAt.limits.maxItems)
    {
      Interfere(Caller(id), start);
      itemsAt := state;
      ReachesItself(state);
      passed := TestCount(id, request, itemsAt);
    }

    /** The three unlocked tests that admit a request to the lazy path.  A test that was not
        reached does not matter. */
    method Admit(id: nat, request: Request, memoryFine: bool) returns (lazy: bool, ghost at: Tested)
      requires Valid() && Stands(id, request, Entered)
      modifies this
      ensures Valid() && Stands(id, request, if lazy then Admitted else Declined)
      ensures at.flag == old(state) && During(old(state), at, state)
      ensures lazy == Passes(request, memoryFine, at)
    {
      at := Tested(state, state, state);
      ReachesItself(state);
      lazy := TestFlag(id, request, at.flag);
      if lazy {
        ghost var moment;
        lazy, moment := AwaitTestSize(id, request, memoryFine, at.flag);
        at := Tested(at.flag, moment, moment);
        ReachesItself(moment);
        if lazy {
          lazy, moment := AwaitTestCount(id, request, at.size);
          at := at.(items := moment);
        }
      }
    }

    /** Builds an item or fails on the way: an allocation, the remove lock, and for a write
        the mapping of its buffer and the allocation of the copy. */
    method PrepareItem(id: nat, request: Request, preparation: Preparation, ghost phase: Phase, ghost start: State) returns (ready: bool)
      requires Valid() && Reaches(start, state) && Stands(id, request, phase) && phase in {Admitted, Declined}
      requires preparation in {NoMapping, NoPayload} ==> phase == Admitted && request.WriteRequest?
      modifies this
      ensures Valid() && Reaches(start, state) && ready == (preparation == Prepared)
      ensures if ready then Stands(id, request, if phase == Admitted then LazyReady else PlainReady) else Left(id, request, Failed)
    {
      if preparation != Prepared {
        AbandonItem(id, request, preparation, phase, start);
        return false;
      }
      removeLocks := removeLocks + 1;
      Advance(Prepare(id, Prepared), start);
      return true;
    }

    /** The error exits; two of them keep the remove lock. */
    method AbandonItem(id: nat, request: Request, preparation: Preparation, ghost phase: Phase, ghost start: State)
      requires Valid() && Reaches(start, state) && Stands(id, request, phase) && phase in {Admitted, Declined}
      requires preparation in {NoMapping, NoPayload} ==> phase == Admitted && request.WriteRequest?
      requires preparation != Prepared
      modifies this`state, this`removeLocks
      ensures Valid() && Reaches(start, state) && Left(id, request, Failed)
    {
      NotInsertedYet(id);
      if preparation in {NoMapping, NoPayload} {
        removeLocks := removeLocks + 1;
      }
      Advance(Prepare(id, preparation), start);
      NotInserted(id);
    }

    lemma {:induction false} NotInsertedYet(id: nat)
      requires Good(state) && id in state.callers.threads && !HasInserted(state.callers.threads[id].phase)
      ensures forall item :: item in state.core.inserted ==> item.id != id
    {
    }

    /** A request that has left without an item is completed. */
    lemma {:induction false} NotInserted(id: nat)
      requires Good(state) && id < state.callers.nextId && id !in state.callers.threads
      requires forall item :: item in state.core.inserted ==> item.id != id
      ensures state.callers.completed[id] == 1
    {
      QueueIds(state);
    }

    /** A request that has left with a lazy item is completed. */
    lemma {:induction false} CompletedLazily(id: nat, request: Request)
      requires Good(state) && id < state.callers.nextId && id !in state.callers.threads
      requires LazyItem(id, request) in state.core.inserted
      ensures state.callers.completed[id] == 1
    {
      QueueIds(state);
      forall item | item in state.core.inserted && item.id == id ensures item == LazyItem(id, request) {
      }
    }

    /** The insertion, under the lock: a lazy item is charged with its data, an ordinary one is not. */
    method InsertItem(id: nat, item: Item, charge: int, ghost start: State)
      requires Valid() && Reaches(start, state) && Enabled(state, Insert(id))
      requires Do(state, Insert(id)).core == Append(state.core, item)
      requires Do(state, Insert(id)).counters == Charge(state.counters, charge)
      modifies this`state, this`writeQueue, this`writeQueueSize, this`writeQueueItems, this`writeQueueSizeTop, this`writeQueueItemsTop
      ensures Valid() && Reaches(start, state) && state == Do(old(state), Insert(id))
    {
      InsertTail(item, charge);
      InsertedShape(state, id);
      Advance(Insert(id), start);
    }

    method InsertLazily(id: nat, request: Request, item: Item, ghost start: State)
      requires Valid() && Reaches(start, state) && Stands(id, request, LazyReady) && item == LazyItem(id, request)
      modifies this`state, this`writeQueue, this`writeQueueSize, this`writeQueueItems, this`writeQueueSizeTop, this`writeQueueItemsTop
      ensures Valid() && Reaches(start, state) && Stands(id, request, LazyInserted) && item in state.core.inserted
    {
      InsertedShape(state, id);
      InsertItem(id, item, ITEM_SIZE + item.Length(), start);
      assert state.core.inserted[|state.core.inserted| - 1] == item;
    }

    /** KeSetEvent after an insertion. */
    method SetEvent(id: nat, request: Request, lazy: bool, ghost start: State)
      requires Valid() && Reaches(start, state) && Stands(id, request, if lazy then LazyInserted else PlainInserted)
      modifies this
      ensures Valid() && Reaches(start, state) && state.core.inserted == old(state).core.inserted
      ensures if lazy then Stands(id, request, LazySignalled) else id < state.callers.nextId && id !in state.callers.threads
    {
      writeQueueEvent := true;
      Advance(Signal(id), start);
    }

    /** Completing a lazy request, which its item has just acknowledged. */
    method CompleteRequest(id: nat, request: Request, ghost start: State)
      requires Valid() && Reaches(start, state) && Stands(id, request, LazySignalled)
      requires LazyItem(id, request) in state.core.inserted
      modifies this
      ensures Valid() && Reaches(start, state) && Left(id, request, Success)
    {
      Advance(CompleteLazy(id), start);
      CompletedLazily(id, request);
    }

    lemma {:induction false} StillInserted(a: seq<Item>, b: seq<Item>, item: Item)
      requires a <= b && item in a
      ensures item in b
    {
    }

    /** QCacheQueueLazyWriteIrp: copies the data, inserts, wakes the worker and completes
        the request before it is carried out. */
    method QueueLazyWriteIrp(id: nat, request: Request, preparation: Preparation, ghost start: State) returns (status: Status)
      requires Valid() && Reaches(start, state) && Stands(id, request, Admitted)
      requires preparation in {NoMapping, NoPayload} ==> request.WriteRequest?
      modifies this
      ensures Valid() && Reaches(start, state) && Left(id, request, status)
      ensures status == if preparation == Prepared then Success else Failed
    {
      var ready := PrepareItem(id, request, preparation, Admitted, start);
      if !ready {
        return Failed;
      }
      Interfere(Caller(id), start);
      var item := LazyItem(id, request);
      InsertLazily(id, request, item, start);
      ghost var inserted := state.core.inserted;
      Interfere(Caller(id), start);
      SetEvent(id, request, true, start);
      Interfere(Caller(id), start);
      StillInserted(inserted, state.core.inserted, item);
      CompleteRequest(id, request, start);
      return Success;
    }

    /** The ordinary path: the item keeps the request, and the worker completes it. */
    method QueueOrdinaryIrp(id: nat, request: Request, preparation: Preparation, ghost start: State) returns (status: Status)
      requires Valid() && Reaches(start, state) && Stands(id, request, Declined)
      requires preparation !in {NoMapping, NoPayload}
      modifies this
      ensures Valid() && Reaches(start, state) && Left(id, request, status)
      ensures status == if preparation == Prepared then Pending else Failed
    {
      var ready := PrepareItem(id, request, preparation, Declined, start);
      if !ready {
        return Failed;
      }
      Interfere(Caller(id), start);
      InsertedShape(state, id);
      var item := PlainItem(id, request);
      InsertItem(id, item, ITEM_SIZE, start);
      ghost var inserted := state.core.inserted;
      assert inserted[|inserted| - 1] == item;
      Interfere(Caller(id), start);
      SetEvent(id, request, false, start);
      StillInserted(inserted, state.core.inserted, item);
      return Pending;
    }

    /** QCacheQueueIrp.  A failed mapping or payload allocation is possible on the lazy path only. */
    method QueueIrp(id: nat, request: Request, kernel: Kernel) returns (status: Status, ghost at: Tested)
      requires Valid() && Stands(id, request, Entered)
      requires kernel.preparation in {NoMapping, NoPayload} ==> request.WriteRequest?
      modifies this
      ensures Valid() && Left(id, request, status)
      ensures at.flag == old(state) && During(old(state), at, state)
      ensures status == Outcome(Passes(request, kernel.memoryFine, at), kernel.preparation)
    {
      var lazy;
      lazy, at := Admit(id, request, kernel.memoryFine);
      Interfere(Caller(id), at.items);
      if lazy {
        status := QueueLazyWriteIrp(id, request, kernel.preparation, at.items);
      } else {
        status := QueueOrdinaryIrp(id, request, if kernel.preparation in {NoMapping, NoPayload} then Prepared else kernel.preparation, at.items);
      }
    }

    /** The request arrives, and others may run before QCacheQueueIrp looks at it; OFF and
        shutdown clear the cache flag first, as `arrived` shows. */
    method Receive(request: Request) returns (id: nat, ghost arrived: State)
      requires Valid() && request.Fits(state.limits.base)
      modifies this
      ensures Valid() && Stands(id, request, Entered) && id == old(nextIrp)
      ensures Reaches(old(state), arrived) && Reaches(arrived, state) && Standing(arrived, id, request, Entered)
      ensures arrived.flags.isCached == (old(isCached) && request != ShutdownRequest && request != ControlRequest(CacheOff))
    {
      ReachesItself(state);
      id := Register(request, state);
      arrived := state;
      ReachesItself(state);
      Interfere(Caller(id), arrived);
    }

    method Register(request: Request, ghost start: State) returns (id: nat)
      requires Valid() && Reaches(start, state) && request.Fits(state.limits.base)
      modifies this`state, this`nextIrp, this`isCached
      ensures Valid() && Reaches(start, state) && Stands(id, request, Entered) && id == old(nextIrp)
      ensures isCached == (old(isCached) && request != ShutdownRequest && request != ControlRequest(CacheOff))
    {
      id := nextIrp;
      nextIrp := nextIrp + 1;
      if request.TurnsOff() {
        isCached := false;
      }
      Advance(Arrive(request), start);
    }

    /** Both together: the request arrives in state `arrived` and is queued after the tests. */
    method ReceiveAndQueue(request: Request, kernel: Kernel) returns (status: Status, id: nat, ghost arrived: State, ghost at: Tested)
      requires Valid() && request.Fits(state.limits.base)
      requires kernel.preparation in {NoMapping, NoPayload} ==> request.WriteRequest?
      modifies this
      ensures Valid() && id == old(nextIrp) && Left(id, request, status)
      ensures Reaches(old(state), arrived) && During(arrived, at, state)
      ensures Standing(arrived, id, request, Entered) && Standing(at.flag, id, request, Entered)
      ensures arrived.flags.isCached == (old(isCached) && request != ShutdownRequest && request != ControlRequest(CacheOff))
      ensures status == Outcome(Passes(request, kernel.memoryFine, at), kernel.preparation)
    {
      id, arrived := Receive(request);
      status, at := QueueIrp(id, request, kernel);
    }

    /** A whole call from `a` to `b` is a run. */
    lemma {:induction false} ReachesThrough(a: State, arrived: State, at: Tested, b: State)
      requires Reaches(a, arrived) && During(arrived, at, b)
      ensures Reaches(a, b)
    {
      ReachesOn(a, arrived, at.flag);
      ReachesOn(a, at.flag, at.size);
      ReachesOn(a, at.size, at.items);
      ReachesOn(a, at.items, b);
    }

    // write.cpp

    /** QCacheWrite.  `data` are the sectors of the buffer; the size of the device is zero
        until it is known. */
    method Write(offset: int, length: int, size: int, data: seq<Sector>, kernel: Kernel)
      returns (status: Status, id: nat, ghost arrived: State, ghost at: Tested)
      requires Valid() && (size == 0 || size == SECTOR * |state.limits.base|) && IsInt64(size)
      requires IsInt64(offset) && IsUlong(length)
      requires size > 0 && length > 0 && Accepts(offset, length, size) ==>
                 0 <= offset && offset % SECTOR == 0 && length == SECTOR * |data|
      modifies this
      ensures Valid() && Reaches(old(state), state) && id == old(nextIrp)
      ensures size == 0 ==> status == Forwarded && state == old(state)
      ensures size > 0 && length == 0 ==> status == Success && state == old(state)
      ensures size > 0 && length > 0 && !Inside(offset, length, size) ==> status == EndOfMedia && state == old(state)
      ensures length > 0 && Inside(offset, length, size) ==>
                var request := WriteRequest(Overlay.Write(offset / SECTOR, data));
                && Left(id, request, status)
                && Reaches(old(state), arrived) && During(arrived, at, state) && Standing(at.flag, id, request, Entered)
                && status == Outcome(Passes(request, kernel.memoryFine, at), kernel.preparation)
    {
      ReachesItself(state);
      id, arrived, at := nextIrp, state, Tested(state, state, state);
      if size == 0 {
        return Forwarded, id, arrived, at;
      }
      if length == 0 {
        return Success, id, arrived, at;
      }
      AcceptsExactly(offset, length, size);
      var highestByte := Int64(offset + length);
      if offset >= size || highestByte <= 0 || highestByte > size {
        return EndOfMedia, id, arrived, at;
      }
      var request := WriteRequest(Overlay.Write(offset / SECTOR, data));
      status, id, arrived, at := ReceiveAndQueue(request, kernel);
      ReachesThrough(old(state), arrived, at, state);
    }

    /** QCacheFlushBuffers and QCacheShutdown, and the end of QCacheDeviceControl. */
    method Enqueue(request: Request, kernel: Kernel)
      returns (status: Status, id: nat, ghost arrived: State, ghost at: Tested)
      requires Valid() && !request.WriteRequest? && kernel.preparation !in {NoMapping, NoPayload}
      modifies this
      ensures Valid() && Reaches(old(state), state) && id == old(nextIrp) && Left(id, request, status)
      ensures Reaches(old(state), arrived) && During(arrived, at, state)
      ensures Standing(arrived, id, request, Entered) && Standing(at.flag, id, request, Entered)
      ensures arrived.flags.isCached == (old(isCached) && request != ShutdownRequest && request != ControlRequest(CacheOff))
      ensures status == Outcome(Passes(request, kernel.memoryFine, at), kernel.preparation)
    {
      status, id, arrived, at := ReceiveAndQueue(request, kernel);
      ReachesThrough(old(state), arrived, at, state);
    }

    /** IOCTL_QCACHE_ON. */
    method TurnOn() returns (status: Status)
      requires Valid()
      modifies this
      ensures Valid() && Reaches(old(state), state) && isCached && status == Success
      ensures state == old(state).(flags := old(state).flags.(isCached := true))
    {
      ghost var start := state;
      ReachesItself(state);
      isCached := true;
      Advance(CacheOn, start);
      return Success;
    }

    /** QCacheDeviceControl.  `scsiClass` are the requests of that minor function, which are
        passed on, and `dataSize` is the size of the statistics. */
    method DeviceControl(control: IoControl, scsiClass: bool, size: int, dataSize: nat, kernel: Kernel)
      returns (status: Status, id: nat, ghost arrived: State)
      requires Valid() && kernel.preparation !in {NoMapping, NoPayload}
      modifies this
      ensures Valid() && Reaches(old(state), state) && id == old(nextIrp)
      ensures size == 0 || scsiClass || control == Other(false) ==> status == Forwarded && state == old(state)
      ensures size != 0 && !scsiClass && control.GetDeviceData? ==>
                status == (if control.bufferLength < dataSize then BufferTooSmall else Success) && state == old(state)
      ensures size != 0 && !scsiClass && control == On ==> status == Success && isCached && state.core == old(state).core
      ensures size != 0 && !scsiClass && control in {Off, Flush, Other(true)} ==>
                && status == (if kernel.preparation == Prepared then Pending else Failed)
                && Reaches(old(state), arrived) && Reaches(arrived, state)
      ensures size != 0 && !scsiClass && control == Off ==>
                && Left(id, ControlRequest(CacheOff), status)
                && Standing(arrived, id, ControlRequest(CacheOff), Entered) && !arrived.flags.isCached
      ensures size != 0 && !scsiClass && control == Flush ==>
                && Left(id, ControlRequest(CacheFlush), status)
                && Standing(arrived, id, ControlRequest(CacheFlush), Entered) && arrived.flags.isCached == old(isCached)
      ensures size != 0 && !scsiClass && control == Other(true) ==>
                && Left(id, ControlRequest(OtherControl), status)
                && Standing(arrived, id, ControlRequest(OtherControl), Entered) && arrived.flags.isCached == old(isCached)
    {
      id, arrived := nextIrp, state;
      ReachesItself(state);
      if size == 0 || scsiClass || control == Other(false) {
        return Forwarded, id, arrived;
      }
      match control {
        case GetDeviceData(bufferLength) =>
          status := if bufferLength < dataSize then BufferTooSmall else Success;
        case On => status := TurnOn();
        case Off => status, id, arrived := QueueControl(CacheOff, kernel);
        case Flush => status, id, arrived := QueueControl(CacheFlush, kernel);
        case Other(_) => status, id, arrived := QueueControl(OtherControl, kernel);
      }
    }

    /** A control in the queue; controls never take the lazy path. */
    method QueueControl(code: ControlCode, kernel: Kernel) returns (status: Status, id: nat, ghost arrived: State)
      requires Valid() && kernel.preparation !in {NoMapping, NoPayload}
      modifies this
      ensures Valid() && Reaches(old(state), state) && id == old(nextIrp)
      ensures Reaches(old(state), arrived) && Reaches(arrived, state)
      ensures status == if kernel.preparation == Prepared then Pending else Failed
      ensures Left(id, ControlRequest(code), status) && Standing(arrived, id, ControlRequest(code), Entered)
      ensures arrived.flags.isCached == (old(isCached) && code != CacheOff)
    {
      ghost var at;
      status, id, arrived, at := Enqueue(ControlRequest(code), kernel);
      ReachesItself(arrived);
      ReachesThrough(arrived, arrived, at, state);
    }

    // thread.cpp and QCacheDispatchQueuedItem

    ghost predicate WorkerAt(w: Worker)
      reads this
    {
      state.core.worker == w
    }

    /** What stays while the worker is at work on one item. */
    ghost predicate Keeps(before: State)
      reads this
    {
      state.limits == before.limits && before.core.inserted <= state.core.inserted
    }

    /** The lower request of `item`, from sending it to its completion: its sectors land in
        some order while the other threads go on. */
    method CallLowerDriver(item: Item, ghost start: State)
      requires Valid() && Reaches(start, state) && WorkerAt(Issued(item))
      modifies this
      ensures Valid() && Reaches(start, state) && WorkerAt(Finished(item))
      ensures state.core.removed == old(state).core.removed && Keeps(old(state))
      ensures WrittenDown(old(state).core.disk, state.core.disk, item)
    {
      AwaitLanding(item, item.Effect().offset, start);
      Interfere(TheWorker, start);
      Advance(LowerDone, start);
      DiskWritten(old(state), state, item);
    }

    /** By the invariant of the disk, whoever ran in between. */
    lemma {:induction false} DiskWritten(before: State, after: State, item: Item)
      requires Good(before) && Good(after) && after.limits == before.limits
      requires before.core.worker in {Holding(item), Issued(item)}
      requires if after.core.worker == Finished(item) then after.core.removed == before.core.removed
               else after.core.worker == Top && after.core.removed == before.core.removed + [item]
      ensures WrittenDown(before.core.disk, after.core.disk, item)
    {
      DiskBefore(before, item);
      DiskAfter(before.core.removed, before.limits.base, after, item);
      WrittenOver(before.core.disk, Replay(before.limits.base, Effects(before.core.removed)), item);
    }

    lemma {:induction false} DiskBefore(before: State, item: Item)
      requires Good(before) && before.core.worker in {Holding(item), Issued(item)}
      ensures var settled := Replay(before.limits.base, Effects(before.core.removed));
              && |before.core.disk| == |settled|
              && forall c :: 0 <= c < |settled| && !item.Effect().Covers(c) ==> before.core.disk[c] == settled[c]
    {
    }

    lemma {:induction false} WrittenOver(before: Disk, settled: Disk, item: Item)
      requires |before| == |settled|
      requires forall c :: 0 <= c < |settled| && !item.Effect().Covers(c) ==> before[c] == settled[c]
      ensures WrittenDown(before, Apply(settled, item.Effect()), item)
    {
    }

    lemma {:induction false} DiskAfter(removed: seq<Item>, base: Disk, after: State, item: Item)
      requires Good(after) && after.limits.base == base
      requires if after.core.worker == Finished(item) then after.core.removed == removed
               else after.core.worker == Top && after.core.removed == removed + [item]
      ensures after.core.disk == Apply(Replay(base, Effects(removed)), item.Effect())
    {
      if after.core.worker == Top {
        assert Effects(after.core.removed) == Effects(removed) + [item.Effect()];
        ReplayAppend(base, Effects(removed), item.Effect());
      }
    }

    ghost predicate LandedFrom(c: nat, end: nat, landed: set<int>) {
      forall i :: c <= i < end ==> i in landed
    }

    lemma {:induction false} LandedOneMore(c: nat, end: nat, before: set<int>, landed: set<int>)
      requires c in before && before <= landed && LandedFrom(c + 1, end, landed)
      ensures LandedFrom(c, end, landed)
    {
    }

    /** The wait for the lower device, for the sectors from `c` on.  Before every sector the
        others run, and they may land any sectors in any order; the one looked at lands now
        if it has not yet. */
    method AwaitLanding(item: Item, c: nat, ghost start: State)
      requires Valid() && Reaches(start, state) && WorkerAt(Issued(item))
      requires item.Effect().offset <= c <= item.Effect().End()
      modifies this
      ensures Valid() && Reaches(start, state) && WorkerAt(Issued(item)) && Keeps(old(state))
      ensures old(state).core.landed <= state.core.landed
      ensures LandedFrom(c, item.Effect().End(), state.core.landed)
      ensures state.core.removed == old(state).core.removed
      decreases item.Effect().End() - c
    {
      if c < item.Effect().End() {
        AwaitSector(item, c, start);
        ghost var landed := state.core.landed;
        AwaitLanding(item, c + 1, start);
        LandedOneMore(c, item.Effect().End(), landed, state.core.landed);
      }
    }

    method AwaitSector(item: Item, ghost c: nat, ghost start: State)
      requires Valid() && Reaches(start, state) && WorkerAt(Issued(item)) && item.Effect().Covers(c)
      modifies this
      ensures Valid() && Reaches(start, state) && WorkerAt(Issued(item)) && Keeps(old(state))
      ensures old(state).core.landed <= state.core.landed && c in state.core.landed
      ensures state.core.removed == old(state).core.removed
    {
      Interfere(TheWorker, start);
      LandSector(item, c, start);
    }

    ghost method LandSector(item: Item, c: nat, start: State)
      requires Valid() && Reaches(start, state) && WorkerAt(Issued(item)) && item.Effect().Covers(c)
      modifies this`state
      ensures Valid() && Reaches(start, state) && WorkerAt(Issued(item)) && Keeps(old(state))
      ensures state.core.landed == old(state).core.landed + {c}
      ensures state.core.removed == old(state).core.removed
    {
      if c !in state.core.landed {
        EffectFits(item);
        Advance(Land(c), start);
      }
    }

    lemma {:induction false} EffectFits(item: Item)
      requires Good(state) && Working(state.core.worker) && state.core.worker.item == item
      ensures item.Effect().data != [] ==> item.Effect().End() <= |state.core.disk|
    {
      assert WellFormed(state.core.inserted[|state.core.removed|], state.limits.base);
    }

    /** IoCallDriver and the wait. */
    method Send(item: Item, ghost start: State) returns (ghost sent: State)
      requires Valid() && Reaches(start, state) && WorkerAt(Holding(item)) && (item.Lazy() || !item.irp.value.Marker())
      modifies this
      ensures Valid() && Reaches(start, state) && WorkerAt(Finished(item))
      ensures state.core.removed == old(state).core.removed && Keeps(old(state))
      ensures Reaches(old(state), sent) && Reaches(sent, state) && sent.core.worker == Issued(item)
    {
      ReachesItself(state);
      Advance(Issue, old(state));
      sent := state;
      ReachesItself(state);
      CallLowerDriver(item, sent);
      ReachesOn(start, old(state), sent);
      ReachesOn(start, sent, state);
    }

    /** The first half of QCacheDispatchQueuedItem: the lower request, which for a lazy item
        has to be built first.  `sent` is the state with that request outstanding; the OFF and
        FLUSH controls alone need none. */
    method SendDown(item: Item, buildable: bool, ghost start: State) returns (done: bool, ghost sent: Option<State>)
      requires Valid() && Reaches(start, state) && WorkerAt(Holding(item))
      modifies this
      ensures Valid() && Reaches(start, state) && done == (buildable || item.irp.Some?)
      ensures WorkerAt(if done then Finished(item) else Top)
      ensures state.core.removed == old(state).core.removed && Keeps(old(state))
      ensures sent.Some? <==> done && item.irp != Some(ControlRequest(CacheOff)) && item.irp != Some(ControlRequest(CacheFlush))
      ensures sent.Some? ==>
                Reaches(old(state), sent.value) && Reaches(sent.value, state) && sent.value.core.worker == Issued(item)
    {
      sent := None;
      if item.Lazy() && !buildable {
        Advance(FailBuild, start);
        return false, sent;
      }
      if item.Lazy() || !item.irp.value.Marker() {
        ghost var outstanding := Send(item, start);
        sent := Some(outstanding);
      } else {
        Advance(Issue, start);
      }
      return true, sent;
    }

    /** IoCompleteRequest for the original request, if the item has kept one. */
    method CompleteOriginal(item: Item, ghost start: State)
      requires Valid() && Reaches(start, state) && WorkerAt(Finished(item))
      modifies this`state
      ensures Valid() && Reaches(start, state) && WorkerAt(Replied(item))
      ensures state.core.removed == old(state).core.removed && Keeps(old(state))
    {
      Advance(Reply, start);
    }

    /** The critical section that takes the item out again. */
    method RemoveEntry(item: Item, ghost start: State)
      requires Valid() && Reaches(start, state) && WorkerAt(Replied(item))
      modifies this`state, this`writeQueue, this`writeQueueSize, this`writeQueueItems
      ensures Valid() && Reaches(start, state) && WorkerAt(Releasing(item))
      ensures state.core.removed == old(state).core.removed + [item] && Keeps(old(state))
      ensures old(writeQueue) == [item] + writeQueue
    {
      HeadIsTaken(item);
      RemovedShape(state, item);
      writeQueueSize := writeQueueSize - (ITEM_SIZE + item.Length());
      writeQueueItems := writeQueueItems - 1;
      writeQueue := Without(writeQueue, item);
      Advance(Remove, start);
    }

    lemma {:induction false} HeadIsTaken(item: Item)
      requires Good(state) && Working(state.core.worker) && state.core.worker.item == item
      ensures state.core.queue == [item] + Without(state.core.queue, item)
    {
    }

    method ReleaseRemoveLock(item: Item, ghost start: State)
      requires Valid() && Reaches(start, state) && WorkerAt(Releasing(item))
      modifies this`state, this`removeLocks
      ensures Valid() && Reaches(start, state) && WorkerAt(Top)
      ensures state.core.removed == old(state).core.removed && Keeps(old(state))
    {
      removeLocks := removeLocks - 1;
      Advance(Release, start);
    }

    /** The item leaves the queue and gives its remove lock back. */
    method TakeOut(item: Item, ghost start: State)
      requires Valid() && Reaches(start, state) && WorkerAt(Replied(item))
      modifies this
      ensures Valid() && Reaches(start, state) && WorkerAt(Top)
      ensures state.core.removed == old(state).core.removed + [item] && Keeps(old(state))
    {
      RemoveEntry(item, start);
      Interfere(TheWorker, start);
      ReleaseRemoveLock(item, start);
    }

    /** The second half: the original request is completed, if there is one, and the item
        leaves the queue. */
    method ReplyAndRemove(item: Item, ghost start: State)
      requires Valid() && Reaches(start, state) && WorkerAt(Finished(item))
      modifies this
      ensures Valid() && Reaches(start, state) && WorkerAt(Top)
      ensures state.core.removed == old(state).core.removed + [item] && Keeps(old(state))
    {
      CompleteOriginal(item, start);
      Interfere(TheWorker, start);
      TakeOut(item, start);
    }

    /** QCacheDispatchQueuedItem. */
    method DispatchQueuedItem(item: Item, buildable: bool, ghost start: State) returns (done: bool, ghost sent: Option<State>)
      requires Valid() && Reaches(start, state) && WorkerAt(Holding(item))
      modifies this
      ensures Valid() && Reaches(start, state) && WorkerAt(Top) && Keeps(old(state))
      ensures done == (buildable || item.irp.Some?)
      ensures state.core.removed == old(state).core.removed + if done then [item] else []
      ensures if done then WrittenDown(old(state).core.disk, state.core.disk, item) else state.core.disk == old(state).core.disk
      ensures sent.Some? <==> done && item.irp != Some(ControlRequest(CacheOff)) && item.irp != Some(ControlRequest(CacheFlush))
      ensures sent.Some? ==> Reaches(old(state), sent.value) && sent.value.core.worker == Issued(item)
    {
      done, sent := SendDown(item, buildable, start);
      if done {
        Interfere(TheWorker, start);
        ReplyAndRemove(item, start);
        DiskWritten(old(state), state, item);
      }
    }

    // thread.cpp

    /** Looking at the head of the queue under the lock. */
    method PeekHead(ghost start: State) returns (head: Option<Item>)
      requires Valid() && Reaches(start, state) && WorkerAt(Top)
      modifies this`state
      ensures Valid() && Reaches(start, state)
      ensures head == if writeQueue == [] then None else Some(writeQueue[0])
      ensures WorkerAt(if head.Some? then Holding(head.value) else SawEmpty(|state.core.inserted|))
      ensures state.core == old(state).core.(worker := state.core.worker) && state.limits == old(state).limits
    {
      head := if writeQueue == [] then None else Some(writeQueue[0]);
      Advance(Peek, start);
    }

    /** The queue was empty: leave the loop, or go and wait for the event. */
    method TestShutdownThread(ghost seen: nat, ghost start: State) returns (exits: bool)
      requires Valid() && Reaches(start, state) && WorkerAt(SawEmpty(seen))
      modifies this`state
      ensures Valid() && Reaches(start, state) && Keeps(old(state))
      ensures exits == shutdownThread && WorkerAt(if exits then Exited(seen) else Waiting)
      ensures state.core.removed == old(state).core.removed
    {
      exits := shutdownThread;
      Advance(TestShutdown, start);
    }

    /** The look, and others run before anything comes of it. */
    method LookAtHead() returns (head: Option<Item>)
      requires Valid() && WorkerAt(Top)
      modifies this
      ensures Valid() && Reaches(old(state), state)
      ensures head == if old(state).core.queue == [] then None else Some(old(state).core.queue[0])
      ensures WorkerAt(if head.Some? then Holding(head.value) else SawEmpty(|old(state).core.inserted|))
      ensures state.core.removed == old(state).core.removed && Keeps(old(state))
      ensures state.core.disk == old(state).core.disk
    {
      ReachesItself(state);
      head := PeekHead(old(state));
      Interfere(TheWorker, old(state));
    }

    /** The rest of a turn, from the look at the queue in state `look`. */
    method FinishTurn(buildable: bool) returns (exits: bool)
      requires Valid() && WorkerAt(Top)
      modifies this
      ensures Valid() && Reaches(old(state), state)
      ensures old(state).core.queue == [] ==>
                && exits == shutdownThread && WorkerAt(if exits then Exited(|old(state).core.inserted|) else Waiting)
                && state.core.removed == old(state).core.inserted && state.core.disk == old(state).core.disk
      ensures old(state).core.queue != [] ==>
                var head := old(state).core.queue[0];
                && !exits && WorkerAt(Top)
                && state.core.removed == old(state).core.removed + (if buildable || head.irp.Some? then [head] else [])
                && if buildable || head.irp.Some? then WrittenDown(old(state).core.disk, state.core.disk, head)
                   else state.core.disk == old(state).core.disk
    {
      ghost var look := state;
      var head := LookAtHead();
      if head.None? {
        exits := TestShutdownThread(|look.core.inserted|, look);
      } else {
        var _, _ := DispatchQueuedItem(head.value, buildable, look);
        exits := false;
      }
    }

    /** One turn of the loop in QCacheDeviceWorkerThread.  `look` is the state at the moment
        the worker looked at the queue: if the queue was empty then, everything inserted by
        then is on the disk and the thread exits or waits; otherwise the head and nothing
        else is carried out, or kept for the next turn if its lower request cannot be built. */
    method WorkerTurn(buildable: bool) returns (exits: bool, ghost look: State)
      requires Valid() && WorkerAt(Top)
      modifies this
      ensures Valid() && Reaches(old(state), look) && Reaches(look, state)
      ensures state.core.disk == Replay(state.limits.base, Effects(state.core.removed))
      ensures look.core.queue == [] ==>
                && exits == shutdownThread && WorkerAt(if exits then Exited(|look.core.inserted|) else Waiting)
                && state.core.removed == look.core.inserted && state.core.disk == look.core.disk
      ensures look.core.queue != [] ==>
                var head := look.core.queue[0];
                && !exits && WorkerAt(Top)
                && state.core.removed == look.core.removed + (if buildable || head.irp.Some? then [head] else [])
                && if buildable || head.irp.Some? then WrittenDown(look.core.disk, state.core.disk, head)
                   else state.core.disk == look.core.disk
    {
      ReachesItself(state);
      Interfere(TheWorker, state);
      look := state;
      exits := FinishTurn(buildable);
    }

    /** The wait ends: the event resets itself. */
    method WakeUp(ghost start: State)
      requires Valid() && Reaches(start, state) && WorkerAt(Waiting) && writeQueueEvent
      modifies this`state, this`writeQueueEvent
      ensures Valid() && Reaches(start, state) && WorkerAt(Top) && !writeQueueEvent
      ensures state.core == old(state).core.(worker := Top)
    {
      writeQueueEvent := false;
      Advance(Wake, start);
    }

    // mainwdm.cpp

    method ClearCached(ghost start: State)
      requires Valid() && Reaches(start, state) && state.flags.remover == Absent
      modifies this`state, this`isCached
      ensures Valid() && Reaches(start, state) && !isCached && state.flags.remover == CacheCleared
    {
      isCached := false;
      Advance(ClearForRemoval, start);
    }

    method RequestShutdown(ghost start: State)
      requires Valid() && Reaches(start, state) && state.flags.remover == CacheCleared
      modifies this`state, this`shutdownThread
      ensures Valid() && Reaches(start, state) && shutdownThread && state.flags.remover == Flagged
    {
      shutdownThread := true;
      Advance(FlagShutdown, start);
    }

    method WakeForShutdown(ghost start: State)
      requires Valid() && Reaches(start, state) && state.flags.remover == Flagged
      modifies this`state, this`writeQueueEvent
      ensures Valid() && Reaches(start, state) && shutdownThread && writeQueueEvent && state.flags.remover == Signalled
    {
      writeQueueEvent := true;
      Advance(SignalShutdown, start);
    }

    /** QCacheCleanupDevice up to the wait for the worker. */
    method CleanupDevice(ghost start: State)
      requires Valid() && Reaches(start, state) && state.flags.remover == CacheCleared
      modifies this
      ensures Valid() && Reaches(start, state) && shutdownThread && writeQueueEvent && state.flags.remover == Signalled
    {
      RequestShutdown(start);
      Interfere(TheRemover, start);
      WakeForShutdown(start);
    }

    /** QCacheRemoveDevice up to the wait for the worker, which by then has been told to
        finish and woken. */
    method RemoveDevice()
      requires Valid() && state.flags.remover == Absent
      modifies this
      ensures Valid() && Reaches(old(state), state)
      ensures shutdownThread && writeQueueEvent && state.flags.remover == Signalled
    {
      ghost var start := state;
      ReachesItself(state);
      ClearCached(start);
      Interfere(TheRemover, start);
      CleanupDevice(start);
    }
  }
}
