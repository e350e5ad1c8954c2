/** The queue protocol as a state machine.  One step is what a thread does between two
    points where others can interfere: a critical section under the queue lock, or one
    unlocked access to shared data.  The lower device writes one sector at a time. */
module Protocol {
  import opened Arithmetic
  import opened Overlay
  import opened Sectors

  type Disk = seq<Sector>

  /** sizeof(WRITE_QUEUE_ITEM) in a 64-bit build. */
  const ITEM_SIZE: nat := 64

  datatype ControlCode = CacheOff | CacheFlush | OtherControl

  /** A request handed to QCacheQueueIrp. */
  datatype Request =
    | WriteRequest(write: Write<Sector>)
    | FlushRequest
    | ShutdownRequest
    | ControlRequest(code: ControlCode)
  {
    /** May be completed before it is carried out. */
    predicate Deferrable() { WriteRequest? || FlushRequest? }

    /** Completed by the worker without a lower request. */
    predicate Marker() { ControlRequest? && (code == CacheOff || code == CacheFlush) }

    /** Clears the cache flag on arrival. */
    predicate TurnsOff() { ShutdownRequest? || (ControlRequest? && code == CacheOff) }

    function Payload(): Write<Sector> { if WriteRequest? then write else Write(0, []) }

    predicate Fits(d: Disk) { WriteRequest? ==> write.data != [] && write.End() <= |d| }
  }

  /** WRITE_QUEUE_ITEM.  `irp` is the original request of an item that is not lazy. */
  datatype Item = Item(id: nat, isWrite: bool, offset: nat, data: seq<Sector>, irp: Option<Request>) {
    predicate Lazy() { irp.None? }

    function Length(): nat { SECTOR * |data| }

    function Size(): nat { ITEM_SIZE + Length() }

    /** What readers see of the item. */
    function Cached(): Write<Sector> { if isWrite then Write(offset, data) else Write(0, []) }

    /** What dispatching the item writes to the lower disk. */
    function Effect(): Write<Sector> { if irp.Some? then irp.value.Payload() else Cached() }
  }

  function LazyItem(id: nat, r: Request): Item {
    Item(id, r.WriteRequest?, r.Payload().offset, r.Payload().data, None)
  }

  /** An item that keeps the original request leaves its own offset and length zero. */
  function PlainItem(id: nat, r: Request): Item {
    Item(id, r.WriteRequest?, 0, [], Some(r))
  }

  function Cached(items: seq<Item>): (ws: seq<Write<Sector>>)
    ensures |ws| == |items|
    ensures forall i :: 0 <= i < |items| ==> ws[i] == items[i].Cached()
  {
    seq(|items|, i requires 0 <= i < |items| => items[i].Cached())
  }

  function Effects(items: seq<Item>): (ws: seq<Write<Sector>>)
    ensures |ws| == |items|
    ensures forall i :: 0 <= i < |items| ==> ws[i] == items[i].Effect()
  {
    seq(|items|, i requires 0 <= i < |items| => items[i].Effect())
  }

  /** Where a thread stands in QCacheQueueIrp. */
  datatype Phase =
    | Entered         // nothing tested yet
    | SawCached       // IsCached was set, and the request may be deferred
    | SawRoom         // memory conditions fine, WriteQueueSize was below MaxQueueSize
    | Admitted        // WriteQueueItems was below MaxQueueItems: lazy path
    | Declined        // ordinary path
    | LazyReady       // item filled in, remove lock held
    | PlainReady
    | LazyInserted    // in the queue, event not set yet
    | PlainInserted
    | LazySignalled   // event set, request not completed yet

  datatype Submitter = Submitter(request: Request, phase: Phase)

  /** How an attempt to build an item ends. */
  datatype Preparation = NoItem | NoRemoveLock | NoMapping | NoPayload | Prepared

  /** Where the worker thread stands.  SawEmpty and Exited remember how many items had
      been inserted when the queue was seen empty. */
  datatype Worker =
    | Top
    | SawEmpty(seen: nat)
    | Waiting
    | Holding(item: Item)      // head taken, no lower request yet
    | Issued(item: Item)       // lower request outstanding
    | Finished(item: Item)     // lower request over, or none needed
    | Replied(item: Item)      // original request completed, or none to complete
    | Releasing(item: Item)    // out of the queue, remove lock still held
    | Exited(seen: nat)

  /** The thread that removes the device. */
  datatype Remover = Absent | CacheCleared | Flagged | Signalled

  datatype Limits = Limits(base: Disk, maxItems: int, maxSize: int)

  /** The lower disk, the queue, the worker, and the history of the queue.  `landed` are
      the sectors of the outstanding lower write that have arrived. */
  datatype Core = Core(disk: Disk, landed: set<int>, queue: seq<Item>, worker: Worker,
                       inserted: seq<Item>, removed: seq<Item>)

  datatype Counters = Counters(size: int, items: int, sizeTop: int, itemsTop: int)

  datatype Flags = Flags(isCached: bool, event: bool, shutdown: bool, remover: Remover)

  /** The threads inside QCacheQueueIrp by request, and the requests completed so far. */
  datatype Callers = Callers(threads: map<nat, Submitter>, nextId: nat, completed: multiset<nat>)

  /** Remove locks held by the I/O paths, live scatter objects, locks never given back. */
  datatype Locks = Locks(held: int, scatters: int, leaked: int)

  datatype State = State(limits: Limits, core: Core, counters: Counters, flags: Flags, callers: Callers, locks: Locks)

  /** What a reader that takes the lock now, and reads the disk now, would see. */
  function View(c: Core): Disk {
    Replay(c.disk, Cached(c.queue))
  }

  ghost predicate Init(s: State) {
    && s.core == Core(s.limits.base, {}, [], Top, [], [])
    && s.counters == Counters(0, 0, 0, 0)
    && !s.flags.event && !s.flags.shutdown && s.flags.remover == Absent
    && s.callers == Callers(map[], 0, multiset{})
    && s.locks == Locks(0, 0, 0)
  }

  datatype Step =
    // a submitting thread
    | Arrive(request: Request)
    | TestCached(id: nat)
    | TestRoom(id: nat, memoryFine: bool)
    | TestItems(id: nat)
    | Prepare(id: nat, outcome: Preparation)
    | Insert(id: nat)
    | Signal(id: nat)
    | CompleteLazy(id: nat)
    // the worker
    | Peek
    | TestShutdown
    | Wake
    | FailBuild
    | Issue
    | LowerDone
    | Reply
    | Remove
    | Release
    // the lower device
    | Land(sector: int)
    // other threads
    | CacheOn
    | ClearForRemoval
    | FlagShutdown
    | SignalShutdown
    | CreateScatter
    | DeleteScatter

  predicate At(s: State, id: nat, phase: Phase) {
    id in s.callers.threads && s.callers.threads[id].phase == phase
  }

  predicate AllLanded(w: Write<Sector>, landed: set<int>) {
    forall c :: w.offset <= c < w.End() ==> c in landed
  }

  predicate Enabled(s: State, step: Step) {
    match step
    case Arrive(request) => request.Fits(s.limits.base)
    case TestCached(id) => At(s, id, Entered)
    case TestRoom(id, _) => At(s, id, SawCached)
    case TestItems(id) => At(s, id, SawRoom)
    case Prepare(id, outcome) =>
      || (At(s, id, Admitted) && (outcome in {NoMapping, NoPayload} ==> s.callers.threads[id].request.WriteRequest?))
      || (At(s, id, Declined) && outcome !in {NoMapping, NoPayload})
    case Insert(id) => At(s, id, LazyReady) || At(s, id, PlainReady)
    case Signal(id) => At(s, id, LazyInserted) || At(s, id, PlainInserted)
    case CompleteLazy(id) => At(s, id, LazySignalled)
    case Peek => s.core.worker == Top
    case TestShutdown => s.core.worker.SawEmpty?
    case Wake => s.core.worker == Waiting && s.flags.event
    case FailBuild => s.core.worker.Holding? && s.core.worker.item.Lazy()
    case Issue => s.core.worker.Holding?
    case LowerDone => s.core.worker.Issued? && AllLanded(s.core.worker.item.Effect(), s.core.landed)
    case Reply => s.core.worker.Finished?
    case Remove => s.core.worker.Replied?
    case Release => s.core.worker.Releasing?
    case Land(c) => s.core.worker.Issued? && s.core.worker.item.Effect().Covers(c) && c < |s.core.disk| && c !in s.core.landed
    case CacheOn => true
    case ClearForRemoval => s.flags.remover == Absent
    case FlagShutdown => s.flags.remover == CacheCleared
    case SignalShutdown => s.flags.remover == Flagged
    case CreateScatter => true
    case DeleteScatter => s.locks.scatters > 0
  }

  function Move(c: Callers, id: nat, phase: Phase): Callers
    requires id in c.threads
  {
    c.(threads := c.threads[id := c.threads[id].(phase := phase)])
  }

  function Leave(c: Callers, id: nat): Callers {
    c.(threads := c.threads - {id})
  }

  /** IoCompleteRequest. */
  function Complete(c: Callers, id: nat): Callers {
    c.(completed := c.completed + multiset{id})
  }

  /** The accounting of InsertTailList. */
  function Charge(c: Counters, size: int): Counters {
    Counters(c.size + size, c.items + 1, Max(c.size + size, c.sizeTop), Max(c.items + 1, c.itemsTop))
  }

  function Append(c: Core, item: Item): Core {
    c.(queue := c.queue + [item], inserted := c.inserted + [item])
  }

  /** RemoveEntryList: takes out the one entry it is given, wherever it is. */
  function Without(queue: seq<Item>, item: Item): seq<Item> {
    if queue == [] then [] else if queue[0] == item then queue[1..] else [queue[0]] + Without(queue[1..], item)
  }

  function Arrived(s: State, request: Request): State {
    s.(callers := s.callers.(threads := s.callers.threads[s.callers.nextId := Submitter(request, Entered)],
                             nextId := s.callers.nextId + 1),
       flags := s.flags.(isCached := s.flags.isCached && !request.TurnsOff()))
  }

  function Build(s: State, id: nat, outcome: Preparation): State
    requires id in s.callers.threads
  {
    match outcome
    case NoItem => s.(callers := Leave(Complete(s.callers, id), id))
    case NoRemoveLock => s.(callers := Leave(Complete(s.callers, id), id))
    // after these two failures the source does not give the remove lock back
    case NoMapping => s.(callers := Leave(Complete(s.callers, id), id),
                         locks := s.locks.(held := s.locks.held + 1, leaked := s.locks.leaked + 1))
    case NoPayload => s.(callers := Leave(Complete(s.callers, id), id),
                         locks := s.locks.(held := s.locks.held + 1, leaked := s.locks.leaked + 1))
    case Prepared =>
      s.(callers := Move(s.callers, id, if s.callers.threads[id].phase == Admitted then LazyReady else PlainReady),
         locks := s.locks.(held := s.locks.held + 1))
  }

  function Inserted(s: State, id: nat): State
    requires id in s.callers.threads
  {
    var request := s.callers.threads[id].request;
    if s.callers.threads[id].phase == LazyReady then
      var item := LazyItem(id, request);
      s.(core := Append(s.core, item), counters := Charge(s.counters, ITEM_SIZE + item.Length()),
         callers := Move(s.callers, id, LazyInserted))
    else
      s.(core := Append(s.core, PlainItem(id, request)), counters := Charge(s.counters, ITEM_SIZE),
         callers := Move(s.callers, id, PlainInserted))
  }

  function Removed(s: State): State
    requires s.core.worker.Replied?
  {
    var item := s.core.worker.item;
    s.(core := s.core.(worker := Releasing(item), queue := Without(s.core.queue, item), removed := s.core.removed + [item]),
       counters := s.counters.(size := s.counters.size - (ITEM_SIZE + item.Length()), items := s.counters.items - 1))
  }

  function Do(s: State, step: Step): State
    requires Enabled(s, step)
  {
    match step
    case Arrive(request) => Arrived(s, request)
    case TestCached(id) =>
      s.(callers := Move(s.callers, id, if s.flags.isCached && s.callers.threads[id].request.Deferrable() then SawCached else Declined))
    case TestRoom(id, memoryFine) =>
      s.(callers := Move(s.callers, id, if memoryFine && s.counters.size < s.limits.maxSize then SawRoom else Declined))
    case TestItems(id) =>
      s.(callers := Move(s.callers, id, if s.counters.items < s.limits.maxItems then Admitted else Declined))
    case Prepare(id, outcome) => Build(s, id, outcome)
    case Insert(id) => Inserted(s, id)
    case Signal(id) =>
      s.(flags := s.flags.(event := true),
         callers := if s.callers.threads[id].phase == LazyInserted then Move(s.callers, id, LazySignalled) else Leave(s.callers, id))
    case CompleteLazy(id) => s.(callers := Leave(Complete(s.callers, id), id))
    case Peek =>
      s.(core := s.core.(worker := if s.core.queue == [] then SawEmpty(|s.core.inserted|) else Holding(s.core.queue[0])))
    case TestShutdown => s.(core := s.core.(worker := if s.flags.shutdown then Exited(s.core.worker.seen) else Waiting))
    case Wake => s.(core := s.core.(worker := Top), flags := s.flags.(event := false))
    case FailBuild => s.(core := s.core.(worker := Top))
    case Issue =>
      var item := s.core.worker.item;
      var marker := item.irp.Some? && item.irp.value.Marker();
      s.(core := s.core.(worker := if marker then Finished(item) else Issued(item), landed := {}))
    case LowerDone => s.(core := s.core.(worker := Finished(s.core.worker.item)))
    case Reply =>
      var item := s.core.worker.item;
      s.(core := s.core.(worker := Replied(item)), callers := if item.Lazy() then s.callers else Complete(s.callers, item.id))
    case Remove => Removed(s)
    case Release => s.(core := s.core.(worker := Top), locks := s.locks.(held := s.locks.held - 1))
    case Land(c) =>
      s.(core := s.core.(disk := s.core.disk[c := s.core.worker.item.Effect().At(c)], landed := s.core.landed + {c}))
    case CacheOn => s.(flags := s.flags.(isCached := true))
    case ClearForRemoval => s.(flags := s.flags.(isCached := false, remover := CacheCleared))
    case FlagShutdown => s.(flags := s.flags.(shutdown := true, remover := Flagged))
    case SignalShutdown => s.(flags := s.flags.(event := true, remover := Signalled))
    case CreateScatter => s.(locks := s.locks.(scatters := s.locks.scatters + 1, held := s.locks.held + 1))
    case DeleteScatter => s.(locks := s.locks.(scatters := s.locks.scatters - 1, held := s.locks.held - 1))
  }

  /** A step of a thread inside QCacheQueueIrp. */
  predicate ByThread(step: Step) {
    step.Arrive? || step.TestCached? || step.TestRoom? || step.TestItems? || step.Prepare? || step.Insert? || step.Signal? || step.CompleteLazy?
  }

  lemma {:induction false} ThreadsFrame(s: State, step: Step)
    requires Enabled(s, step) && !ByThread(step)
    ensures Do(s, step).callers.threads == s.callers.threads && Do(s, step).callers.nextId == s.callers.nextId
    ensures Do(s, step).core.inserted == s.core.inserted
  {
  }

  lemma {:induction false} InsertedShape(s: State, id: nat)
    requires Enabled(s, Insert(id))
    ensures var s', request, lazy := Do(s, Insert(id)), s.callers.threads[id].request, At(s, id, LazyReady);
            var item := if lazy then LazyItem(id, request) else PlainItem(id, request);
            && s'.core == Append(s.core, item)
            && s'.counters == Charge(s.counters, if lazy then ITEM_SIZE + item.Length() else ITEM_SIZE)
            && s'.callers == Move(s.callers, id, if lazy then LazyInserted else PlainInserted)
            && s'.flags == s.flags && s'.locks == s.locks && s'.limits == s.limits
  {
  }

  lemma {:induction false} RemovedShape(s: State, item: Item)
    requires s.core.worker == Replied(item)
    ensures var s' := Do(s, Remove);
            && s'.core.worker == Releasing(item) && s'.core.queue == Without(s.core.queue, item)
            && s'.core.removed == s.core.removed + [item] && s'.core.inserted == s.core.inserted
            && s'.counters == s.counters.(size := s.counters.size - (ITEM_SIZE + item.Length()), items := s.counters.items - 1)
            && s'.flags == s.flags && s'.locks == s.locks && s'.limits == s.limits && s'.callers == s.callers
  {
  }

  lemma {:induction false} QueueFrame(s: State, step: Step)
    requires Enabled(s, step) && !step.Insert? && step != Remove
    ensures Do(s, step).core.queue == s.core.queue && Do(s, step).counters == s.counters
  {
  }

  /** A run: states[i + 1] is states[i] after steps[i]. */
  datatype Run = Run(states: seq<State>, steps: seq<Step>) {
    ghost predicate Taken(i: nat)
      requires i < |steps| && |states| == |steps| + 1
    {
      Enabled(states[i], steps[i]) && states[i + 1] == Do(states[i], steps[i])
    }

    ghost predicate Valid() {
      && |states| == |steps| + 1
      && forall i :: 0 <= i < |steps| ==> Taken(i)
    }

    function First(): State
      requires states != []
    {
      states[0]
    }

    function Last(): State
      requires states != []
    {
      states[|states| - 1]
    }
  }

  /** One step is a run, and a run can be continued by a step. */
  function Extend(run: Run, step: Step): (r: Run)
    requires run.states != [] && Enabled(run.Last(), step)
  {
    Run(run.states + [Do(run.Last(), step)], run.steps + [step])
  }

  lemma {:induction false} ExtendValid(run: Run, step: Step)
    requires run.Valid() && Enabled(run.Last(), step)
    ensures Extend(run, step).Valid() && Extend(run, step).Last() == Do(run.Last(), step)
    ensures Extend(run, step).First() == run.First()
  {
    var longer := Extend(run, step);
    forall i | 0 <= i < |longer.steps| ensures longer.Taken(i) {
      assert i < |run.steps| ==> run.Taken(i);
    }
  }

  /** Two runs of which the second continues the first. */
  function Join(a: Run, b: Run): Run
    requires b.states != []
  {
    Run(a.states + b.states[1..], a.steps + b.steps)
  }

  lemma {:induction false} JoinValid(a: Run, b: Run)
    requires a.Valid() && b.Valid() && a.Last() == b.First()
    ensures Join(a, b).Valid() && Join(a, b).First() == a.First() && Join(a, b).Last() == b.Last()
  {
    var j := Join(a, b);
    forall i | 0 <= i < |j.steps| ensures j.Taken(i) {
      if i < |a.steps| {
        assert a.Taken(i);
      } else {
        assert b.Taken(i - |a.steps|);
      }
    }
  }

  /** One more step of a run. */
  lemma {:induction false} Take(run: Run, step: Step) returns (r: Run)
    requires run.Valid() && Enabled(run.Last(), step)
    ensures r.Valid() && r.First() == run.First() && r.Last() == Do(run.Last(), step)
    ensures r.steps == run.steps + [step] && r.states == run.states + [r.Last()]
  {
    ExtendValid(run, step);
    r := Extend(run, step);
  }

  ghost predicate ValidFromInit(run: Run) {
    run.Valid() && Init(run.First())
  }
}
