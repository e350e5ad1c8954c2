/** A flush that is completed before it is carried out: what its completion means. */
module Flushes {
  import opened Durability
  import opened Interleaving
  import opened Overlay
  import opened Protocol
  import opened Scenarios
  import opened Sectors

  /** Everything inserted before insertion `n` is on the disk. */
  ghost predicate AllCarriedOut(c: Core, n: nat) {
    forall m: nat :: m < n ==> CarriedOut(c, m)
  }

  lemma {:induction false} CompletedAtOnce(s: State, id: nat) returns (run: Run)
    requires At(s, id, LazyInserted)
    ensures run.Valid() && run.First() == s && run.steps == [Signal(id), CompleteLazy(id)]
    ensures run.Last().core == s.core && run.Last().callers.completed == s.callers.completed + multiset{id}
  {
    run := Take(Run([s], []), Signal(id));
    run := Take(run, CompleteLazy(id));
  }

  /** In every reachable state in which a flush has been inserted on the lazy path: whenever
      it is completed from then on, what was inserted before it is on the disk - if and only
      if all of that is on the disk already. */
  lemma {:induction false} DeferredFlushExactly(s: State, id: nat, n: nat)
    requires Good(s) && At(s, id, LazyInserted) && s.callers.threads[id].request.FlushRequest?
    requires n < |s.core.inserted| && s.core.inserted[n].id == id
    ensures (forall run: Run :: run.Valid() && run.First() == s && run.Last().callers.completed[id] > 0 ==> AllCarriedOut(run.Last().core, n))
            <==> AllCarriedOut(s.core, n)
  {
    var soon := CompletedAtOnce(s, id);
    assert soon.Last().callers.completed[id] > 0;
    if AllCarriedOut(s.core, n) {
      forall run: Run, m: nat | run.Valid() && run.First() == s && m < n ensures CarriedOut(run.Last().core, m) {
        CarriedOutForever(run, 0, |run.states| - 1, m);
      }
    }
  }

  /** The write has been inserted and acknowledged; nothing else has happened. */
  function Acknowledged(limits: Limits, w: Write<Sector>): State {
    var item := LazyItem(0, WriteRequest(w));
    NewDevice(limits).(core := Append(NewDevice(limits).core, item), counters := Counters(item.Size(), 1, item.Size(), 1),
                       flags := Flags(true, true, false, Absent), callers := Callers(map[], 1, multiset{0}), locks := Locks(1, 0, 0))
  }

  lemma {:induction false} WriteAcknowledged(limits: Limits, w: Write<Sector>) returns (run: Run)
    requires Admits(limits, w)
    ensures ValidFromInit(run) && run.First() == NewDevice(limits) && run.Last() == Acknowledged(limits, w)
  {
    run := WriteReady(limits, w);
    InsertedShape(run.Last(), 0);
    run := Take(run, Insert(0));
    run := Take(run, Signal(0));
    run := Take(run, CompleteLazy(0));
    assert run.Last().callers.threads == map[];
  }

  /** A flush is on its way behind it. */
  function FlushAt(limits: Limits, w: Write<Sector>, phase: Phase, held: int): State {
    var s := Acknowledged(limits, w);
    s.(callers := Callers(map[1 := Submitter(FlushRequest, phase)], 2, multiset{0}), locks := Locks(held, 0, 0))
  }

  lemma {:induction false} FlushReady(limits: Limits, w: Write<Sector>) returns (run: Run)
    requires Admits(limits, w) && limits.maxItems > 1 && limits.maxSize > LazyItem(0, WriteRequest(w)).Size()
    ensures ValidFromInit(run) && run.First() == NewDevice(limits) && run.Last() == FlushAt(limits, w, LazyReady, 2)
  {
    run := WriteAcknowledged(limits, w);
    run := Take(run, Arrive(FlushRequest));
    assert run.Last() == FlushAt(limits, w, Entered, 1);
    run := Take(run, TestCached(1));
    assert run.Last() == FlushAt(limits, w, SawCached, 1);
    run := Take(run, TestRoom(1, true));
    assert run.Last() == FlushAt(limits, w, SawRoom, 1);
    run := Take(run, TestItems(1));
    assert run.Last() == FlushAt(limits, w, Admitted, 1);
    run := Take(run, Prepare(1, Prepared));
  }

  /** A completed flush after which nothing has been written: a new device with room for two
      items, a write, a flush, both acknowledged, and the disk as it was (QC-01). */
  lemma {:induction false} FlushThatFlushesNothing(limits: Limits, w: Write<Sector>) returns (run: Run)
    requires Admits(limits, w) && limits.maxItems > 1 && limits.maxSize > LazyItem(0, WriteRequest(w)).Size()
    ensures ValidFromInit(run) && run.First() == NewDevice(limits)
    ensures run.Last().callers.completed == multiset{0, 1}
    ensures run.Last().core.inserted == [LazyItem(0, WriteRequest(w)), LazyItem(1, FlushRequest)]
    ensures run.Last().core.disk == limits.base && !CarriedOut(run.Last().core, 0)
  {
    run := FlushReady(limits, w);
    InsertedShape(run.Last(), 1);
    run := Take(run, Insert(1));
    var soon := CompletedAtOnce(run.Last(), 1);
    JoinValid(run, soon);
    run := Join(run, soon);
  }
}
