/** Requests that the worker completes in their turn, and what the completion means. */
module Barriers {
  import opened Accounting
  import opened Durability
  import opened Interleaving
  import opened Ordering
  import opened Overlay
  import opened Protocol
  import opened Scenarios
  import opened Sectors
  import opened Views

  /** When the worker completes a request that is no write - a FLUSH or OFF marker, an
      ordinary flush, a shutdown - every item inserted before it has been dispatched and
      removed, and the disk is exactly those items, carried out in order. */
  lemma {:induction false} CompletionIsBarrier(run: Run, k: nat, n: nat)
    requires ValidFromInit(run) && k < |run.steps| && run.steps[k] == Reply && run.states[k].core.worker.Finished?
    requires run.states[k].core.worker.item.irp.Some? && !run.states[k].core.worker.item.irp.value.WriteRequest?
    requires n < |run.states[k].core.inserted| && run.states[k].core.inserted[n] == run.states[k].core.worker.item
    ensures run.states[k + 1].callers.completed[run.states[k].core.inserted[n].id] == run.states[k].callers.completed[run.states[k].core.inserted[n].id] + 1
    ensures run.states[k + 1].core.removed == run.states[k].core.inserted[..n]
    ensures run.states[k + 1].core.disk == Replay(run.First().limits.base, Effects(run.states[k].core.inserted[..n]))
  {
    InvEverywhere(run, k);
    var c := run.states[k].core;
    FallsBetween(run, k, c.worker.item);
    assert n == |c.removed|;
    assert run.Taken(k);
    ReplyShape(run.states[k]);
  }

  lemma {:induction false} ReplyShape(s: State)
    requires Enabled(s, Reply)
    ensures Do(s, Reply).core == s.core.(worker := Replied(s.core.worker.item))
    ensures !s.core.worker.item.Lazy() ==>
              Do(s, Reply).callers.completed == s.callers.completed + multiset{s.core.worker.item.id}
  {
  }

  /** Requests that leave a lazy item behind when they are deferred: writes, and flushes if
      those are to count as well. */
  predicate Deferred(request: Request, flushesToo: bool) {
    request.WriteRequest? || (flushesToo && request.FlushRequest?)
  }

  predicate LazyOf(item: Item, flushesToo: bool) { item.Lazy() && (item.isWrite || flushesToo) }

  ghost predicate NoLazy(queue: seq<Item>, flushesToo: bool) {
    forall item :: item in queue ==> !LazyOf(item, flushesToo)
  }

  /** A thread that has passed the test of the cache flag and can still get through the
      tests that are left. */
  predicate MayYetDefer(s: State, id: nat, flushesToo: bool) {
    && id in s.callers.threads && Deferred(s.callers.threads[id].request, flushesToo)
    && match s.callers.threads[id].phase
       case SawCached => s.limits.maxSize > 0 && s.limits.maxItems > 0
       case SawRoom => s.limits.maxItems > 0
       case Admitted => true
       case LazyReady => true
       case _ => false
  }

  /** The cache is off and no thread is on its way past it. */
  ghost predicate Quiet(s: State, flushesToo: bool) {
    !s.flags.isCached && forall id :: id in s.callers.threads ==> !MayYetDefer(s, id, flushesToo)
  }

  /** With the cache off no thread sets out on the lazy path. */
  lemma {:induction false} MayYetDeferStep(s: State, step: Step, id: nat, flushesToo: bool)
    requires CountersInv(s) && !s.flags.isCached && Enabled(s, step) && MayYetDefer(Do(s, step), id, flushesToo)
    ensures MayYetDefer(s, id, flushesToo)
  {
    if !ByThread(step) {
      ThreadsFrame(s, step);
    }
  }

  lemma {:induction false} QuietInsert(s: State, id: nat, flushesToo: bool)
    requires ThreadsInv(s.callers, s.limits.base) && Quiet(s, flushesToo) && Enabled(s, Insert(id))
    ensures exists item :: Do(s, Insert(id)).core.inserted == s.core.inserted + [item] && !LazyOf(item, flushesToo)
  {
    InsertedShape(s, id);
    var item := if At(s, id, LazyReady) then LazyItem(id, s.callers.threads[id].request) else PlainItem(id, s.callers.threads[id].request);
    assert !MayYetDefer(s, id, flushesToo) && !LazyOf(item, flushesToo);
  }

  lemma {:induction false} QuietStep(s: State, step: Step, flushesToo: bool)
    requires Inv(s) && CountersInv(s) && Quiet(s, flushesToo) && Enabled(s, step) && step != CacheOn
    ensures Quiet(Do(s, step), flushesToo)
    ensures Do(s, step).core.inserted == s.core.inserted
            || exists item :: Do(s, step).core.inserted == s.core.inserted + [item] && !LazyOf(item, flushesToo)
  {
    forall id | id in Do(s, step).callers.threads ensures !MayYetDefer(Do(s, step), id, flushesToo) {
      if MayYetDefer(Do(s, step), id, flushesToo) {
        MayYetDeferStep(s, step, id, flushesToo);
      }
    }
    if step.Insert? {
      QuietInsert(s, step.id, flushesToo);
    }
  }

  lemma {:induction false} QuietAlong(run: Run, j: nat, n: nat, flushesToo: bool)
    requires run.Valid() && j <= n < |run.states| && Good(run.states[j]) && Quiet(run.states[j], flushesToo)
    requires forall k :: j <= k < n ==> run.steps[k] != CacheOn
    ensures Quiet(run.states[n], flushesToo) && run.states[j].core.inserted <= run.states[n].core.inserted
    ensures forall i :: |run.states[j].core.inserted| <= i < |run.states[n].core.inserted| ==>
                          !LazyOf(run.states[n].core.inserted[i], flushesToo)
  {
    if j < n {
      QuietAlong(run, j, n - 1, flushesToo);
      GoodAlong(run, j, n - 1);
      assert run.Taken(n - 1);
      QuietStep(run.states[n - 1], run.steps[n - 1], flushesToo);
    }
  }

  /** Without lazy writes in the queue, readers see the bare disk. */
  lemma {:induction false} NothingCached(c: Core, base: Disk)
    requires QueueInv(c, base) && NoLazy(c.queue, false)
    ensures View(c) == c.disk
  {
    forall i | 0 <= i < |c.disk| ensures View(c)[i] == c.disk[i] {
      ViewAt(c, i);
      NewestSome(Cached(c.queue), i);
      forall k | 0 <= k < |c.queue| ensures !Cached(c.queue)[k].Covers(i) {
        assert c.queue[k] == c.inserted[|c.removed| + k] && c.queue[k] in c.queue;
      }
    }
  }

  /** After `j` the cache stays off and quiet; once everything inserted by then has been
      removed, the queue holds no lazy item and readers see the bare disk. */
  lemma {:induction false} QuietAndDrained(run: Run, j: nat, n: nat, flushesToo: bool)
    requires run.Valid() && j <= n < |run.states| && Good(run.states[j]) && Quiet(run.states[j], flushesToo)
    requires forall k :: j <= k < n ==> run.steps[k] != CacheOn
    requires |run.states[j].core.inserted| <= |run.states[n].core.removed|
    ensures NoLazy(run.states[n].core.queue, flushesToo)
    ensures View(run.states[n].core) == run.states[n].core.disk
  {
    QuietAlong(run, j, n, flushesToo);
    GoodAlong(run, j, n);
    var c := run.states[n].core;
    forall item | item in c.queue ensures !LazyOf(item, flushesToo) {
      var k :| 0 <= k < |c.queue| && c.queue[k] == item;
      assert c.inserted[|c.removed| + k] == item;
    }
    NothingCached(c, run.states[n].limits.base);
  }

  /** Everything inserted before a request arrived is removed by the time the worker
      completes it. */
  lemma {:induction false} AllBeforeRemoved(run: Run, j: nat, m: nat)
    requires ValidFromInit(run) && j < m < |run.states| && run.steps[j].Arrive?
    requires run.states[m].core.worker.Finished? && run.states[m].core.worker.item.id == run.states[j].callers.nextId
    ensures |run.states[j + 1].core.inserted| <= |run.states[m].core.removed|
  {
    InvEverywhere(run, j);
    InvEverywhere(run, m);
    assert run.Taken(j);
    ArriveShape(run.states[j], run.steps[j].request);
    InsertedGrows(run, j + 1, m);
    var before, c := run.states[j].core.inserted, run.states[m].core;
    assert c.inserted[|c.removed|] == c.worker.item;
  }

  lemma {:induction false} AllBeforeStayRemoved(run: Run, j: nat, m: nat, n: nat)
    requires ValidFromInit(run) && j < m <= n < |run.states| && run.steps[j].Arrive?
    requires run.states[m].core.worker.Finished? && run.states[m].core.worker.item.id == run.states[j].callers.nextId
    ensures |run.states[j + 1].core.inserted| <= |run.states[n].core.removed|
  {
    AllBeforeRemoved(run, j, m);
    RemovedGrows(run, m, n);
  }

  /** The request that turns the cache off in step `j` is completed by the worker in step
      `m`.  If no thread was on its way into the queue on the lazy path when it arrived,
      then from its completion on, until the cache is turned on again, the queue holds no
      lazy item and readers see the bare disk. */
  lemma {:induction false} OffIsBarrier(run: Run, j: nat, m: nat, n: nat, flushesToo: bool)
    requires ValidFromInit(run) && j < m < n < |run.states|
    requires run.steps[j].Arrive? && run.steps[j].request in {ShutdownRequest, ControlRequest(CacheOff)} && Quiet(run.states[j + 1], flushesToo)
    requires run.steps[m] == Reply && run.states[m].core.worker.Finished?
    requires run.states[m].core.worker.item.id == run.states[j].callers.nextId
    requires forall k :: j < k < n ==> run.steps[k] != CacheOn
    ensures NoLazy(run.states[n].core.queue, flushesToo)
    ensures View(run.states[n].core) == run.states[n].core.disk
  {
    GoodEverywhere(run, j + 1);
    AllBeforeStayRemoved(run, j, m, n);
    QuietAndDrained(run, j + 1, n, flushesToo);
  }

  lemma {:induction false} ArriveShape(s: State, request: Request)
    requires Enabled(s, Arrive(request))
    ensures Do(s, Arrive(request)).core == s.core
  {
  }

  /** The condition cannot be dropped.  On a new device: a write passes the tests, OFF
      arrives, is dispatched and completed, the write is inserted all the same - and
      readers see it although the cache is off and the disk does not have it. */
  lemma {:induction false} LateLazyInsert(limits: Limits, w: Write<Sector>, sector: nat) returns (run: Run)
    requires Admits(limits, w) && w.Covers(sector) && w.At(sector) != limits.base[sector]
    ensures ValidFromInit(run) && run.First() == NewDevice(limits) && |run.steps| == 16
    ensures run.steps[5] == Arrive(OFF) && forall k :: 5 < k < 16 ==> run.steps[k] != CacheOn
    ensures run.Last().callers.completed == multiset{1} && PlainItem(1, OFF) in run.Last().core.removed
    ensures run.Last().core.queue == [LazyItem(0, WriteRequest(w))] && !run.Last().flags.isCached
    ensures sector < |run.Last().core.disk| && run.Last().core.disk[sector] == limits.base[sector]
    ensures View(run.Last().core)[sector] == w.At(sector)
  {
    run := OffCompleted(limits, w);
    var s := run.Last();
    InsertedShape(s, 0);
    ViewOnInsert(s.core, LazyItem(0, WriteRequest(w)), sector);
    run := Take(run, Insert(0));
  }
}
