/** When OFF is a barrier: exactly when no thread is on its way past the cache flag as it
    arrives, or the worker will never get to it. */
module OffBarrier {
  import opened Barriers
  import opened Durability
  import opened Interleaving
  import opened Protocol
  import opened Shutdown

  /** The cache stays off. */
  ghost predicate StaysOff(steps: seq<Step>) {
    forall k :: 0 <= k < |steps| ==> steps[k] != CacheOn
  }

  /** OFF has just arrived and cleared the flag. */
  ghost predicate OffArrived(s: State, off: nat) {
    Good(s) && !s.flags.isCached && At(s, off, Entered) && s.callers.threads[off].request in {ShutdownRequest, ControlRequest(CacheOff)}
  }

  /** OFF has been completed by the worker, as request `off`. */
  ghost predicate Completed(s: State, off: nat, request: Request) {
    PlainItem(off, request) in s.core.inserted && s.callers.completed[off] == 1
  }

  /** From its completion on, until the cache is turned on again, nothing lazy is queued. */
  ghost predicate Barrier(s: State, off: nat, flushesToo: bool)
    requires off in s.callers.threads
  {
    forall run: Run :: run.Valid() && run.First() == s && StaysOff(run.steps) && Completed(run.Last(), off, s.callers.threads[off].request) ==>
                         NoLazy(run.Last().core.queue, flushesToo)
  }

  /** The worker will look at the queue again. */
  predicate Serving(s: State) {
    !s.core.worker.Exited? && !(s.core.worker.SawEmpty? && s.flags.shutdown)
  }

  // One direction: nobody is on the way, or OFF is never completed.

  lemma {:induction false} InsertedLater(s: State, later: State, off: nat, item: Item)
    requires Good(s) && Good(later) && s.core.inserted <= later.core.inserted
    requires At(s, off, Entered) && item in later.core.inserted && item.id == off
    ensures exists m :: |s.core.inserted| <= m < |later.core.inserted| && later.core.inserted[m] == item
  {
    var m :| 0 <= m < |later.core.inserted| && later.core.inserted[m] == item;
    assert forall k :: 0 <= k < |s.core.inserted| ==> s.core.inserted[k].id != off && later.core.inserted[k].id != off;
  }

  /** A completed ordinary item is out of the queue, or its head. */
  lemma {:induction false} CompletedIsOver(s: State, m: nat)
    requires Good(s) && m < |s.core.inserted| && !s.core.inserted[m].Lazy() && s.callers.completed[s.core.inserted[m].id] == 1
    ensures m < |s.core.removed| || (m == |s.core.removed| && s.core.worker.Replied?)
  {
    var c := s.core;
    if m >= |c.removed| {
      assert c.queue[m - |c.removed|] == c.inserted[m] && c.inserted[m] in c.queue;
      assert c.worker == Replied(c.inserted[m]) && c.inserted[|c.removed|] == c.queue[0] == c.inserted[m];
    }
  }

  lemma {:induction false} QuietMeansBarrier(s: State, off: nat, run: Run, flushesToo: bool)
    requires OffArrived(s, off) && Quiet(s, flushesToo)
    requires run.Valid() && run.First() == s && StaysOff(run.steps) && Completed(run.Last(), off, s.callers.threads[off].request)
    ensures NoLazy(run.Last().core.queue, flushesToo) && View(run.Last().core) == run.Last().core.disk
  {
    var n := |run.states| - 1;
    GoodAlong(run, 0, n);
    InsertedGrows(run, 0, n);
    var item := PlainItem(off, s.callers.threads[off].request);
    InsertedLater(s, run.Last(), off, item);
    var m :| |s.core.inserted| <= m < |run.Last().core.inserted| && run.Last().core.inserted[m] == item;
    CompletedIsOver(run.Last(), m);
    QuietAndDrained(run, 0, n, flushesToo);
  }

  /** A worker that is leaving never gets to what is inserted from now on. */
  lemma {:induction false} LeavingStays(run: Run, n: nat)
    requires run.Valid() && n < |run.states| && !Serving(run.First())
    requires SeenInv(run.First())
    ensures run.states[n].core.worker.SawEmpty? || run.states[n].core.worker.Exited?
    ensures run.states[n].flags.shutdown && run.states[n].core.removed == run.First().core.removed
  {
    if n > 0 {
      LeavingStays(run, n - 1);
      assert run.Taken(n - 1);
      LeavingStep(run.states[n - 1], run.steps[n - 1]);
    }
  }

  lemma {:induction false} LeavingStep(s: State, step: Step)
    requires Enabled(s, step) && s.flags.shutdown && (s.core.worker.SawEmpty? || s.core.worker.Exited?)
    ensures var s' := Do(s, step);
            s'.flags.shutdown && (s'.core.worker.SawEmpty? || s'.core.worker.Exited?) && s'.core.removed == s.core.removed
  {
  }

  lemma {:induction false} LeavingMeansNever(s: State, off: nat, run: Run)
    requires OffArrived(s, off) && !Serving(s)
    requires run.Valid() && run.First() == s
    ensures !Completed(run.Last(), off, s.callers.threads[off].request)
  {
    var n := |run.states| - 1;
    GoodAlong(run, 0, n);
    InsertedGrows(run, 0, n);
    LeavingStays(run, n);
    var item := PlainItem(off, s.callers.threads[off].request);
    if Completed(run.Last(), off, s.callers.threads[off].request) {
      InsertedLater(s, run.Last(), off, item);
      var m :| |s.core.inserted| <= m < |run.Last().core.inserted| && run.Last().core.inserted[m] == item;
      CompletedIsOver(run.Last(), m);
    }
  }

  // The other direction: OFF goes in, the worker empties the queue, and the thread follows.

  /** Runs on which only `off`, the worker and the lower device move: the thread `id` stays
      where it is. */
  ghost predicate Leaves(run: Run, id: nat) {
    && run.Valid() && StaysOff(run.steps)
    && id in run.First().callers.threads && id in run.Last().callers.threads
    && run.Last().callers.threads[id] == run.First().callers.threads[id]
    && Keeps(run.First(), run.Last())
  }

  ghost predicate Keeps(a: State, b: State) {
    && b.limits == a.limits && b.flags.isCached == a.flags.isCached && b.flags.shutdown == a.flags.shutdown
    && a.core.inserted <= b.core.inserted && a.callers.nextId <= b.callers.nextId
  }

  lemma {:induction false} StepKeeps(s: State, step: Step)
    requires Enabled(s, step) && step !in {CacheOn, ClearForRemoval, FlagShutdown} && !step.Arrive?
    ensures Keeps(s, Do(s, step))
  {
  }

  lemma {:induction false} LeavesOn(a: Run, b: Run, id: nat) returns (run: Run)
    requires Leaves(a, id) && Leaves(b, id) && a.Last() == b.First()
    ensures Leaves(run, id) && run.First() == a.First() && run.Last() == b.Last()
  {
    JoinValid(a, b);
    run := Join(a, b);
  }

  lemma {:induction false} OneStep(s: State, step: Step, id: nat) returns (run: Run)
    requires Good(s) && Enabled(s, step) && id in s.callers.threads
    requires !By(step, Caller(id)) && !step.Arrive? && step !in {CacheOn, ClearForRemoval, FlagShutdown}
    ensures Leaves(run, id) && run.First() == s && run.Last() == Do(s, step) && Good(run.Last())
  {
    GoodStep(s, step);
    StepKeeps(s, step);
    OthersLeaveCaller(s, step, id);
    ExtendValid(Run([s], []), step);
    run := Extend(Run([s], []), step);
  }

  /** With work in the queue the worker is not about to fall asleep for good. */
  predicate Awake(s: State) {
    && !s.core.worker.Exited?
    && (s.core.worker.SawEmpty? ==> s.flags.event && !s.flags.shutdown)
    && (s.core.worker == Waiting ==> s.flags.event)
  }

  /** Steps to the empty queue; a worker that has looked too early needs to wake up first. */
  function Distance(c: Core): int {
    Remaining(c) + if c.worker.SawEmpty? || c.worker == Waiting then 8 else 0
  }

  lemma {:induction false} NextStep(s: State) returns (step: Step)
    requires Good(s) && Awake(s) && s.core.queue != []
    ensures Enabled(s, step) && Drains(step) && step != FailBuild
    ensures Distance(Do(s, step).core) < Distance(s.core)
    ensures Do(s, step).core.queue != [] ==> Awake(Do(s, step))
    ensures Do(s, step).callers.threads == s.callers.threads && Do(s, step).core.inserted == s.core.inserted
  {
    if s.core.worker == Waiting {
      step := Wake;
    } else {
      step := WorkerNeverStuck(s);
      DrainProgress(s, step);
    }
    ThreadsFrame(s, step);
  }

  /** The worker empties the queue, if nothing is added. */
  lemma {:induction false} Drain(s: State, id: nat) returns (run: Run)
    requires Good(s) && (s.core.queue != [] ==> Awake(s)) && id in s.callers.threads
    ensures Leaves(run, id) && Good(run.Last()) && run.First() == s && run.Last().core.queue == []
    ensures run.Last().callers.threads == s.callers.threads && run.Last().core.inserted == s.core.inserted
    decreases Distance(s.core)
  {
    RemainingNonNegative(s);
    if s.core.queue == [] {
      run := Run([s], []);
    } else {
      var step := NextStep(s);
      var first := OneStep(s, step, id);
      RemainingNonNegative(first.Last());
      var rest := Drain(first.Last(), id);
      run := LeavesOn(first, rest, id);
    }
  }

  /** OFF is declined and gets an item. */
  lemma {:induction false} OffPrepared(s: State, off: nat, id: nat) returns (run: Run)
    requires OffArrived(s, off) && id in s.callers.threads && id != off
    ensures Leaves(run, id) && Good(run.Last()) && run.First() == s && At(run.Last(), off, PlainReady)
    ensures run.Last().callers.threads[off].request == s.callers.threads[off].request
    ensures run.Last().core == s.core
  {
    var tested := OneStep(s, TestCached(off), id);
    var prepared := OneStep(tested.Last(), Prepare(off, Prepared), id);
    run := LeavesOn(tested, prepared, id);
  }

  /** The item goes into the queue and wakes the worker. */
  lemma {:induction false} OffInserted(s: State, off: nat, id: nat) returns (run: Run)
    requires Good(s) && At(s, off, PlainReady) && id in s.callers.threads && id != off
    ensures Leaves(run, id) && Good(run.Last()) && run.First() == s && off !in run.Last().callers.threads
    ensures run.Last().flags.event && run.Last().core == Append(s.core, PlainItem(off, s.callers.threads[off].request))
  {
    InsertedShape(s, off);
    var inserted := OneStep(s, Insert(off), id);
    var signalled := OneStep(inserted.Last(), Signal(off), id);
    run := LeavesOn(inserted, signalled, id);
  }

  lemma {:induction false} OffGoesIn(s: State, off: nat, id: nat) returns (run: Run)
    requires OffArrived(s, off) && Serving(s) && id in s.callers.threads && id != off
    ensures Leaves(run, id) && Good(run.Last()) && run.First() == s && Awake(run.Last()) && off !in run.Last().callers.threads
    ensures off < run.Last().callers.nextId && PlainItem(off, s.callers.threads[off].request) in run.Last().core.inserted
  {
    var prepared := OffPrepared(s, off, id);
    var inserted := OffInserted(prepared.Last(), off, id);
    run := LeavesOn(prepared, inserted, id);
    var history := run.Last().core.inserted;
    assert history[|history| - 1] == PlainItem(off, s.callers.threads[off].request);
  }

  function PhasesLeft(phase: Phase): nat {
    match phase case SawCached => 3 case SawRoom => 2 case Admitted => 1 case _ => 0
  }

  /** With an empty queue the tests that are left let the thread through. */
  lemma {:induction false} NextPhase(s: State, id: nat, flushesToo: bool) returns (step: Step)
    requires Good(s) && s.core.queue == [] && MayYetDefer(s, id, flushesToo) && s.callers.threads[id].phase != LazyReady
    ensures Enabled(s, step) && step != CacheOn && MayYetDefer(Do(s, step), id, flushesToo)
    ensures Do(s, step).core == s.core && Do(s, step).callers.completed == s.callers.completed
    ensures Do(s, step).callers.threads[id].request == s.callers.threads[id].request
    ensures PhasesLeft(Do(s, step).callers.threads[id].phase) < PhasesLeft(s.callers.threads[id].phase)
  {
    step := match s.callers.threads[id].phase
      case SawCached => TestRoom(id, true)
      case SawRoom => TestItems(id)
      case _ => Prepare(id, Prepared);
  }

  /** The thread inserts its lazy item after all. */
  lemma {:induction false} ThreadFollows(run: Run, id: nat, flushesToo: bool) returns (r: Run)
    requires run.Valid() && Good(run.Last()) && StaysOff(run.steps)
    requires run.Last().core.queue == [] && MayYetDefer(run.Last(), id, flushesToo)
    ensures r.Valid() && r.First() == run.First() && StaysOff(r.steps)
    ensures run.Last().core.inserted <= r.Last().core.inserted
    ensures r.Last().callers.completed == run.Last().callers.completed
    ensures r.Last().core.queue == [LazyItem(id, run.Last().callers.threads[id].request)]
    decreases PhasesLeft(run.Last().callers.threads[id].phase)
  {
    var s := run.Last();
    if s.callers.threads[id].phase == LazyReady {
      InsertedShape(s, id);
      r := Take(run, Insert(id));
    } else {
      var step := NextPhase(s, id, flushesToo);
      GoodStep(s, step);
      var next := Take(run, step);
      r := ThreadFollows(next, id, flushesToo);
    }
  }

  /** If a thread is on its way past the flag when OFF arrives, and the worker still serves,
      then from there a run completes OFF and ends with that thread's lazy item in the queue. */
  lemma {:induction false} BarrierBreaks(s: State, off: nat, id: nat, flushesToo: bool) returns (run: Run)
    requires OffArrived(s, off) && Serving(s) && MayYetDefer(s, id, flushesToo)
    ensures run.Valid() && run.First() == s && StaysOff(run.steps)
    ensures Completed(run.Last(), off, s.callers.threads[off].request)
    ensures run.Last().core.queue == [LazyItem(id, s.callers.threads[id].request)]
  {
    var queued := OffGoesIn(s, off, id);
    var drained := Drain(queued.Last(), id);
    var over := LeavesOn(queued, drained, id);
    assert over.Last().callers.completed[off] == 1;
    run := ThreadFollows(over, id, flushesToo);
  }

  /** The exact condition, for every reachable state in which OFF has just arrived: it is a
      barrier on every continuation if and only if no thread is on its way past the flag, or
      the worker is leaving and will never complete it. */
  lemma {:induction false} OffIsBarrierExactly(s: State, off: nat, flushesToo: bool)
    requires OffArrived(s, off)
    ensures Barrier(s, off, flushesToo) <==> Quiet(s, flushesToo) || !Serving(s)
  {
    if Quiet(s, flushesToo) || !Serving(s) {
      forall run: Run | run.Valid() && run.First() == s && StaysOff(run.steps) && Completed(run.Last(), off, s.callers.threads[off].request)
        ensures NoLazy(run.Last().core.queue, flushesToo)
      {
        if Quiet(s, flushesToo) {
          QuietMeansBarrier(s, off, run, flushesToo);
        } else {
          LeavingMeansNever(s, off, run);
        }
      }
    } else {
      var id :| id in s.callers.threads && MayYetDefer(s, id, flushesToo);
      var run := BarrierBreaks(s, off, id, flushesToo);
      assert run.Last().core.queue[0] in run.Last().core.queue && LazyOf(run.Last().core.queue[0], flushesToo);
    }
  }
}
