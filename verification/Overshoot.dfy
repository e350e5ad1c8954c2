/** How far admission is overshot in fact: the bounds of module Admission are reached. */
module Overshoot {
  import opened Admission
  import opened Overlay
  import opened Protocol
  import opened Scenarios
  import opened Sectors
  import opened Shutdown

  /** Never more than `k` threads past a test and not inserted, and no write larger than
      `largest` bytes: what the bounds ask of a run. */
  ghost predicate Few(run: Run, k: nat, largest: nat) {
    && (forall j :: 0 <= j < |run.states| ==> |PastSizeTest(run.states[j].callers.threads)| <= k)
    && (forall j :: 0 <= j < |run.states| ==> |PastItemTest(run.states[j].callers.threads)| <= k)
    && (forall j :: 0 <= j < |run.steps| && run.steps[j].Arrive? ==> SECTOR * |run.steps[j].request.Payload().data| <= largest)
  }

  /** What one write takes in the queue. */
  function Unit(w: Write<Sector>): nat { ITEM_SIZE + SECTOR * |w.data| }

  /** Threads 0 to `n` carry the write `w`: the first `done` of them have inserted it, the
      last one is at `phase`, those in between have passed the tests. */
  ghost predicate Crowd(s: State, w: Write<Sector>, n: nat, done: nat, phase: Phase) {
    && s.callers.nextId == n && done <= n
    && forall id :: (id in s.callers.threads <==> 0 <= id < n)
                    && (0 <= id < n ==> s.callers.threads[id] ==
                                        Submitter(WriteRequest(w), if id < done then LazyInserted else if id < n - 1 then Admitted else phase))
  }

  /** The first `done` writes are in the queue, and the counters say so. */
  ghost predicate Loaded(s: State, limits: Limits, w: Write<Sector>, done: nat) {
    && s.limits == limits && s.flags.isCached
    && LazyItems(s.core.queue) == done == s.counters.items
    && LazyBytes(s.core.queue) == done * Unit(w) == s.counters.size
  }

  lemma {:induction false} TakeFew(run: Run, step: Step, w: Write<Sector>, n: nat, done: nat, phase: Phase, k: nat) returns (r: Run)
    requires ValidFromInit(run) && Few(run, k, SECTOR * |w.data|) && Enabled(run.Last(), step)
    requires step.Arrive? ==> step.request == WriteRequest(w)
    requires Crowd(Do(run.Last(), step), w, n, done, phase) && n - done <= k
    ensures ValidFromInit(r) && r.First() == run.First() && Few(r, k, SECTOR * |w.data|) && r.Last() == Do(run.Last(), step)
  {
    r := Take(run, step);
    RangeSize(PastSizeTest(r.Last().callers.threads), done, n);
    RangeSize(PastItemTest(r.Last().callers.threads), done, n);
  }

  /** One more thread arrives and finds the cache on. */
  lemma {:induction false} OneMoreArrives(run: Run, limits: Limits, w: Write<Sector>, n: nat, done: nat, k: nat) returns (r: Run)
    requires ValidFromInit(run) && Few(run, k, SECTOR * |w.data|) && n + 1 - done <= k && Admits(limits, w)
    requires Loaded(run.Last(), limits, w, done) && Crowd(run.Last(), w, n, done, Admitted)
    ensures ValidFromInit(r) && r.First() == run.First() && Few(r, k, SECTOR * |w.data|)
    ensures Loaded(r.Last(), limits, w, done) && Crowd(r.Last(), w, n + 1, done, SawCached)
  {
    r := TakeFew(run, Arrive(WriteRequest(w)), w, n + 1, done, Entered, k);
    r := TakeFew(r, TestCached(n), w, n + 1, done, SawCached, k);
  }

  /** It passes the tests, if there is room for one. */
  lemma {:induction false} OneMorePasses(run: Run, limits: Limits, w: Write<Sector>, n: nat, done: nat, k: nat) returns (r: Run)
    requires ValidFromInit(run) && Few(run, k, SECTOR * |w.data|) && n + 1 - done <= k
    requires Loaded(run.Last(), limits, w, done) && Crowd(run.Last(), w, n + 1, done, SawCached) && done <= n
    requires done < limits.maxItems && done * Unit(w) < limits.maxSize
    ensures ValidFromInit(r) && r.First() == run.First() && Few(r, k, SECTOR * |w.data|)
    ensures Loaded(r.Last(), limits, w, done) && Crowd(r.Last(), w, n + 1, done, Admitted)
  {
    r := TakeFew(run, TestRoom(n, true), w, n + 1, done, SawRoom, k);
    r := TakeFew(r, TestItems(n), w, n + 1, done, Admitted, k);
  }

  lemma {:induction false} OneUnitMore(n: nat, unit: nat)
    ensures (n + 1) * unit == n * unit + unit
  {
  }

  /** The thread `id` gets its item and inserts it. */
  lemma {:induction false} InsertedLoad(s: State, limits: Limits, w: Write<Sector>, id: nat)
    requires At(s, id, Admitted) && s.callers.threads[id].request == WriteRequest(w) && Loaded(s, limits, w, id)
    ensures Enabled(s, Prepare(id, Prepared)) && Enabled(Do(s, Prepare(id, Prepared)), Insert(id))
    ensures Do(s, Prepare(id, Prepared)).callers == Move(s.callers, id, LazyReady)
    ensures var s' := Do(Do(s, Prepare(id, Prepared)), Insert(id));
            && Loaded(s', limits, w, id + 1) && s'.callers == Move(Do(s, Prepare(id, Prepared)).callers, id, LazyInserted)
  {
    var ready := Do(s, Prepare(id, Prepared));
    InsertedShape(ready, id);
    var item := LazyItem(id, WriteRequest(w));
    LazyAppend(ready.core.queue, item);
    assert item.Lazy() && item.Size() == Unit(w);
    OneUnitMore(id, Unit(w));
  }

  /** Nobody has got past a test meanwhile, and the thread joins those that have inserted. */
  lemma {:induction false} CrowdMoves(s: State, ready: State, s': State, w: Write<Sector>, n: nat, done: nat)
    requires Crowd(s, w, n, done, Admitted) && done < n
    requires ready.callers == Move(s.callers, done, LazyReady) && s'.callers == Move(ready.callers, done, LazyInserted)
    ensures Crowd(s', w, n, done + 1, Admitted)
    ensures |PastSizeTest(ready.callers.threads)| <= n - done && |PastItemTest(ready.callers.threads)| <= n - done
  {
    RangeSize(PastSizeTest(ready.callers.threads), done, n);
    RangeSize(PastItemTest(ready.callers.threads), done, n);
  }

  /** The next thread of the crowd inserts. */
  lemma {:induction false} OneMoreInserts(run: Run, limits: Limits, w: Write<Sector>, n: nat, done: nat, k: nat) returns (r: Run)
    requires ValidFromInit(run) && Few(run, k, SECTOR * |w.data|) && done < n <= done + k
    requires Loaded(run.Last(), limits, w, done) && Crowd(run.Last(), w, n, done, Admitted)
    ensures ValidFromInit(r) && r.First() == run.First() && Few(r, k, SECTOR * |w.data|)
    ensures Loaded(r.Last(), limits, w, done + 1) && Crowd(r.Last(), w, n, done + 1, Admitted)
  {
    InsertedLoad(run.Last(), limits, w, done);
    var ready := Do(run.Last(), Prepare(done, Prepared));
    CrowdMoves(run.Last(), ready, Do(ready, Insert(done)), w, n, done);
    r := Take(run, Prepare(done, Prepared));
    r := TakeFew(r, Insert(done), w, n, done + 1, Admitted, k);
  }

  /** `done` writes are queued one after the other. */
  lemma {:induction false} Filled(limits: Limits, w: Write<Sector>, done: nat, k: nat) returns (run: Run)
    requires Admits(limits, w) && k > 0 && done <= limits.maxItems && (done > 0 ==> (done - 1) * Unit(w) < limits.maxSize)
    ensures ValidFromInit(run) && run.First() == NewDevice(limits) && Few(run, k, SECTOR * |w.data|)
    ensures Loaded(run.Last(), limits, w, done) && Crowd(run.Last(), w, done, done, Admitted)
  {
    if done == 0 {
      run := Run([NewDevice(limits)], []);
      assert PastSizeTest(map[]) == {} && PastItemTest(map[]) == {};
    } else {
      if done > 1 {
        assert (done - 1) * Unit(w) == (done - 2) * Unit(w) + Unit(w);
      }
      run := Filled(limits, w, done - 1, k);
      run := OneMoreArrives(run, limits, w, done - 1, done - 1, k);
      run := OneMorePasses(run, limits, w, done - 1, done - 1, k);
      run := OneMoreInserts(run, limits, w, done, done - 1, k);
    }
  }

  /** `count` threads more pass all tests before any of them inserts. */
  lemma {:induction false} AllAdmitted(limits: Limits, w: Write<Sector>, done: nat, count: nat, k: nat) returns (run: Run)
    requires Admits(limits, w) && k > 0 && count <= k && done < limits.maxItems && done * Unit(w) < limits.maxSize
    ensures ValidFromInit(run) && run.First() == NewDevice(limits) && Few(run, k, SECTOR * |w.data|)
    ensures Loaded(run.Last(), limits, w, done) && Crowd(run.Last(), w, done + count, done, Admitted)
  {
    if count == 0 {
      if done > 0 {
        assert done * Unit(w) == (done - 1) * Unit(w) + Unit(w);
      }
      run := Filled(limits, w, done, k);
    } else {
      run := AllAdmitted(limits, w, done, count - 1, k);
      run := OneMoreArrives(run, limits, w, done + count - 1, done, k);
      run := OneMorePasses(run, limits, w, done + count - 1, done, k);
    }
  }

  /** On every device with room for one item more than the `a` that are queued: `k` threads
      pass the tests, and then `count` of them insert. */
  lemma {:induction false} Overshot(limits: Limits, w: Write<Sector>, a: nat, count: nat, k: nat) returns (run: Run)
    requires Admits(limits, w) && k > 0 && count <= k && a < limits.maxItems && a * Unit(w) < limits.maxSize
    ensures ValidFromInit(run) && run.First() == NewDevice(limits) && Few(run, k, SECTOR * |w.data|)
    ensures Loaded(run.Last(), limits, w, a + count) && Crowd(run.Last(), w, a + k, a + count, Admitted)
  {
    if count == 0 {
      run := AllAdmitted(limits, w, a, k, k);
    } else {
      run := Overshot(limits, w, a, count - 1, k);
      run := OneMoreInserts(run, limits, w, a + k, a + count - 1, k);
    }
  }

  /** The bound on items is reached, for every limit and every number of threads. */
  lemma {:induction false} ItemBoundReached(limits: Limits, w: Write<Sector>, k: nat) returns (run: Run)
    requires Admits(limits, w) && (limits.maxItems - 1) * Unit(w) < limits.maxSize && k > 0
    ensures ValidFromInit(run) && run.First() == NewDevice(limits) && Few(run, k, SECTOR * |w.data|)
    ensures LazyItems(run.Last().core.queue) == limits.maxItems - 1 + k
  {
    run := Overshot(limits, w, limits.maxItems - 1, k, k);
  }

  /** The bound on bytes is reached, for every size limit that whole items can just miss. */
  lemma {:induction false} ByteBoundReached(limits: Limits, w: Write<Sector>, a: nat, k: nat) returns (run: Run)
    requires Admits(limits, w) && limits.maxSize - 1 == a * Unit(w) && a < limits.maxItems && k > 0
    ensures ValidFromInit(run) && run.First() == NewDevice(limits) && Few(run, k, SECTOR * |w.data|)
    ensures LazyBytes(run.Last().core.queue) == limits.maxSize - 1 + k * (ITEM_SIZE + SECTOR * |w.data|)
  {
    run := Overshot(limits, w, a, k, k);
    assert (a + k) * Unit(w) == a * Unit(w) + k * Unit(w);
  }
}
