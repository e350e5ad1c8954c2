/** Short runs from a new device, as far as the states in which something can go wrong. */
module Scenarios {
  import opened Overlay
  import opened Protocol
  import opened Sectors

  predicate Admits(limits: Limits, w: Write<Sector>) {
    limits.maxItems > 0 && limits.maxSize > 0 && w.data != [] && w.End() <= |limits.base|
  }

  function NewDevice(limits: Limits): State {
    State(limits, Core(limits.base, {}, [], Top, [], []), Counters(0, 0, 0, 0), Flags(true, false, false, Absent),
          Callers(map[], 0, multiset{}), Locks(0, 0, 0))
  }

  /** Request 0, a write, is at `phase`, and nothing else has happened. */
  function Alone(limits: Limits, w: Write<Sector>, phase: Phase, held: int): State {
    NewDevice(limits).(callers := Callers(map[0 := Submitter(WriteRequest(w), phase)], 1, multiset{}), locks := Locks(held, 0, 0))
  }

  lemma {:induction false} WriteAdmitted(limits: Limits, w: Write<Sector>) returns (run: Run)
    requires Admits(limits, w)
    ensures ValidFromInit(run) && run.First() == NewDevice(limits) && run.Last() == Alone(limits, w, Admitted, 0)
    ensures run.steps == [Arrive(WriteRequest(w)), TestCached(0), TestRoom(0, true), TestItems(0)]
  {
    run := Run([NewDevice(limits)], []);
    run := Take(run, Arrive(WriteRequest(w)));
    assert run.Last() == Alone(limits, w, Entered, 0);
    run := Take(run, TestCached(0));
    assert run.Last() == Alone(limits, w, SawCached, 0);
    run := Take(run, TestRoom(0, true));
    assert run.Last() == Alone(limits, w, SawRoom, 0);
    run := Take(run, TestItems(0));
  }

  /** The write is copied and about to be inserted. */
  lemma {:induction false} WriteReady(limits: Limits, w: Write<Sector>) returns (run: Run)
    requires Admits(limits, w)
    ensures ValidFromInit(run) && run.First() == NewDevice(limits) && run.Last() == Alone(limits, w, LazyReady, 1) && |run.steps| == 5
  {
    run := WriteAdmitted(limits, w);
    run := Take(run, Prepare(0, Prepared));
  }

  /** The same, with another request, 1, on the ordinary path. */
  function Beside(limits: Limits, w: Write<Sector>, other: Request, phase: Phase, held: int): State {
    Alone(limits, w, LazyReady, held).(
    callers := Callers(map[0 := Submitter(WriteRequest(w), LazyReady), 1 := Submitter(other, phase)], 2, multiset{}),
    flags := Flags(!other.TurnsOff(), false, false, Absent))
  }

  /** And with that request in the queue. */
  function Behind(limits: Limits, w: Write<Sector>, other: Request): State {
    Beside(limits, w, other, PlainInserted, 2).(
    core := Core(limits.base, {}, [PlainItem(1, other)], Top, [PlainItem(1, other)], []),
    counters := Counters(ITEM_SIZE, 1, ITEM_SIZE, 1))
  }

  lemma {:induction false} InsertBeside(run: Run, limits: Limits, w: Write<Sector>, other: Request) returns (r: Run)
    requires ValidFromInit(run) && run.Last() == Beside(limits, w, other, Declined, 1)
    ensures ValidFromInit(r) && r.First() == run.First() && r.Last() == Behind(limits, w, other) && |r.steps| == |run.steps| + 2
    ensures r.steps == run.steps + [Prepare(1, Prepared), Insert(1)]
  {
    r := Take(run, Prepare(1, Prepared));
    assert r.Last() == Beside(limits, w, other, PlainReady, 2);
    r := Take(r, Insert(1));
  }

  /** An ordinary write, declined by the memory test, has become the head and is about to
      be sent, with a lazy write about to be inserted. */
  lemma {:induction false} OrdinaryHeld(limits: Limits, w: Write<Sector>, x: Write<Sector>) returns (run: Run)
    requires Admits(limits, w) && x.data != [] && x.End() <= |limits.base|
    ensures ValidFromInit(run) && run.First() == NewDevice(limits)
    ensures run.Last() == Behind(limits, w, WriteRequest(x)).(core := run.Last().core)
    ensures run.Last().core == Behind(limits, w, WriteRequest(x)).core.(worker := Holding(PlainItem(1, WriteRequest(x))))
  {
    var other := WriteRequest(x);
    run := WriteReady(limits, w);
    run := Take(run, Arrive(other));
    assert run.Last() == Beside(limits, w, other, Entered, 1);
    run := Take(run, TestCached(1));
    assert run.Last() == Beside(limits, w, other, SawCached, 1);
    run := Take(run, TestRoom(1, false));
    assert run.Last() == Beside(limits, w, other, Declined, 1);
    run := InsertBeside(run, limits, w, other);
    run := Take(run, Peek);
  }

  const OFF: Request := ControlRequest(CacheOff)

  /** OFF has been queued, with a lazy write about to be inserted. */
  lemma {:induction false} OffQueued(limits: Limits, w: Write<Sector>) returns (run: Run)
    requires Admits(limits, w)
    ensures ValidFromInit(run) && run.First() == NewDevice(limits) && run.Last() == Behind(limits, w, OFF)
    ensures |run.steps| == 9 && run.steps[5] == Arrive(OFF) && forall k :: 5 < k < 9 ==> run.steps[k] != CacheOn
  {
    run := WriteReady(limits, w);
    run := Take(run, Arrive(OFF));
    assert run.Last() == Beside(limits, w, OFF, Entered, 1);
    run := Take(run, TestCached(1));
    assert run.Last() == Beside(limits, w, OFF, Declined, 1);
    run := InsertBeside(run, limits, w, OFF);
  }

  /** The worker has carried out and removed the one item in the queue, OFF, and has
      completed it. */
  function OffOver(limits: Limits, w: Write<Sector>): State {
    State(limits, Core(limits.base, {}, [], Top, [PlainItem(1, OFF)], [PlainItem(1, OFF)]), Counters(0, 0, ITEM_SIZE, 1),
          Flags(false, true, false, Absent),
          Callers(map[0 := Submitter(WriteRequest(w), LazyReady)], 2, multiset{1}), Locks(1, 0, 0))
  }

  /** OFF as the worker holds it: its thread has left, and nothing is completed yet. */
  function OffHeld(limits: Limits, w: Write<Sector>, worker: Worker): State {
    Behind(limits, w, OFF).(core := Behind(limits, w, OFF).core.(worker := worker),
                            flags := Flags(false, true, false, Absent),
                            callers := OffOver(limits, w).callers.(completed := multiset{}))
  }

  lemma {:induction false} OffSignalled(limits: Limits, w: Write<Sector>) returns (run: Run)
    requires Admits(limits, w)
    ensures ValidFromInit(run) && run.First() == NewDevice(limits) && run.Last() == OffHeld(limits, w, Top)
    ensures |run.steps| == 10 && run.steps[5] == Arrive(OFF) && forall k :: 5 < k < 10 ==> run.steps[k] != CacheOn
  {
    run := OffQueued(limits, w);
    run := Take(run, Signal(1));
    assert run.Last().callers.threads == map[0 := Submitter(WriteRequest(w), LazyReady)];
  }

  lemma {:induction false} OffCompleted(limits: Limits, w: Write<Sector>) returns (run: Run)
    requires Admits(limits, w)
    ensures ValidFromInit(run) && run.First() == NewDevice(limits) && run.Last() == OffOver(limits, w)
    ensures |run.steps| == 15 && run.steps[5] == Arrive(OFF) && forall k :: 5 < k < 15 ==> run.steps[k] != CacheOn
  {
    run := OffSignalled(limits, w);
    run := Take(run, Peek);
    assert run.Last() == OffHeld(limits, w, Holding(PlainItem(1, OFF)));
    run := Take(run, Issue);
    assert run.Last() == OffHeld(limits, w, Finished(PlainItem(1, OFF)));
    run := OffRemoved(run, limits, w);
  }

  lemma {:induction false} OffRemoved(run: Run, limits: Limits, w: Write<Sector>) returns (r: Run)
    requires ValidFromInit(run) && |run.steps| == 12
    requires run.Last() == OffHeld(limits, w, Finished(PlainItem(1, OFF)))
    ensures ValidFromInit(r) && r.First() == run.First() && r.Last() == OffOver(limits, w) && r.steps == run.steps + [Reply, Remove, Release]
  {
    var s := run.Last();
    r := Take(run, Reply);
    assert r.Last() == s.(core := s.core.(worker := Replied(PlainItem(1, OFF))), callers := OffOver(limits, w).callers);
    r := Take(r, Remove);
    assert r.Last() == OffOver(limits, w).(core := OffOver(limits, w).core.(worker := Releasing(PlainItem(1, OFF))), locks := Locks(2, 0, 0));
    r := Take(r, Release);
  }
}
