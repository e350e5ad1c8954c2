/** What every run keeps of the queue and of the disk: the worker only ever works on the
    head, the disk is the dispatched writes in order plus one torn write at most. */
module Ordering {
  import opened Overlay
  import opened Protocol

  /** Items are as the two insertion paths make them. */
  predicate WellFormed(item: Item, d: Disk) {
    match item.irp
    case None => if item.isWrite then item.data != [] && item.offset + |item.data| <= |d| else item.offset == 0 && item.data == []
    case Some(r) => r.Fits(d) && item.offset == 0 && item.data == [] && item.isWrite == r.WriteRequest?
  }

  predicate Working(w: Worker) { w.Holding? || w.Issued? || w.Finished? || w.Replied? }

  /** Insertion order, and the worker on the head. */
  ghost predicate QueueInv(c: Core, base: Disk) {
    && |c.disk| == |base|
    && c.inserted == c.removed + c.queue
    && (Working(c.worker) ==> c.queue != [] && c.worker.item == c.queue[0])
    && (c.worker.Issued? && c.worker.item.irp.Some? ==> !c.worker.item.irp.value.Marker())
    && (c.worker.Issued? ==> forall sector :: sector in c.landed ==> c.worker.item.Effect().Covers(sector))
    && (forall i :: 0 <= i < |c.inserted| ==> WellFormed(c.inserted[i], base))
  }

  /** The disk is the dispatched writes in order, plus what has landed of the current one. */
  ghost predicate DiskInv(c: Core, base: Disk) {
    var settled := Replay(base, Effects(c.removed));
    match c.worker
    case Issued(item) => c.disk == Torn(settled, item.Effect(), c.landed)
    case Finished(item) => c.disk == Apply(settled, item.Effect())
    case Replied(item) => c.disk == Apply(settled, item.Effect())
    case _ => c.disk == settled
  }

  predicate HasInserted(phase: Phase) { phase in {LazyInserted, PlainInserted, LazySignalled} }

  predicate OnLazyPath(phase: Phase) {
    phase in {SawCached, SawRoom, Admitted, LazyReady, LazyInserted, LazySignalled}
  }

  /** Threads carry requests that fit, and only deferrable ones are on the lazy path. */
  ghost predicate ThreadsInv(c: Callers, base: Disk) {
    forall id :: id in c.threads ==>
                   && id < c.nextId
                   && c.threads[id].request.Fits(base)
                   && (OnLazyPath(c.threads[id].phase) ==> c.threads[id].request.Deferrable())
  }

  /** Every item has its own number, which is that of its request. */
  ghost predicate IdsInv(inserted: seq<Item>, c: Callers) {
    && (forall i :: 0 <= i < |inserted| ==> inserted[i].id < c.nextId)
    && (forall i, j :: 0 <= i < j < |inserted| ==> inserted[i].id != inserted[j].id)
    && (forall i :: 0 <= i < |inserted| && inserted[i].id in c.threads ==> HasInserted(c.threads[inserted[i].id].phase))
  }

  ghost predicate Inv(s: State) {
    && QueueInv(s.core, s.limits.base)
    && DiskInv(s.core, s.limits.base)
    && ThreadsInv(s.callers, s.limits.base)
    && IdsInv(s.core.inserted, s.callers)
  }

  lemma {:induction false} InvInit(s: State)
    requires Init(s)
    ensures Inv(s)
  {
  }

  lemma {:induction false} ThreadsInvStep(s: State, step: Step)
    requires ThreadsInv(s.callers, s.limits.base) && Enabled(s, step)
    ensures ThreadsInv(Do(s, step).callers, s.limits.base)
  {
    if !ByThread(step) {
      ThreadsFrame(s, step);
    }
  }

  lemma {:induction false} IdsInvInsert(s: State, id: nat)
    requires IdsInv(s.core.inserted, s.callers) && ThreadsInv(s.callers, s.limits.base) && Enabled(s, Insert(id))
    ensures IdsInv(Do(s, Insert(id)).core.inserted, Do(s, Insert(id)).callers)
  {
  }

  lemma {:induction false} IdsInvStep(s: State, step: Step)
    requires IdsInv(s.core.inserted, s.callers) && ThreadsInv(s.callers, s.limits.base) && Enabled(s, step)
    ensures IdsInv(Do(s, step).core.inserted, Do(s, step).callers)
  {
    if step.Insert? {
      IdsInvInsert(s, step.id);
    } else if !ByThread(step) {
      ThreadsFrame(s, step);
    } else {
      assert Do(s, step).core.inserted == s.core.inserted;
    }
  }

  lemma {:induction false} QueueInvStep(s: State, step: Step)
    requires QueueInv(s.core, s.limits.base) && ThreadsInv(s.callers, s.limits.base) && Enabled(s, step)
    ensures QueueInv(Do(s, step).core, s.limits.base)
  {
  }

  lemma {:induction false} DiskInvStep(s: State, step: Step)
    requires QueueInv(s.core, s.limits.base) && DiskInv(s.core, s.limits.base) && Enabled(s, step)
    ensures DiskInv(Do(s, step).core, s.limits.base)
  {
    var c, c' := s.core, Do(s, step).core;
    var settled := Replay(s.limits.base, Effects(c.removed));
    match step {
      case Remove =>
        ReplayAppend(s.limits.base, Effects(c.removed), c.worker.item.Effect());
        assert Effects(c'.removed) == Effects(c.removed) + [c.worker.item.Effect()];
      case Issue =>
        assert Torn(settled, c.worker.item.Effect(), {}) == settled;
        assert c'.worker.Finished? ==> Apply(settled, c.worker.item.Effect()) == settled;
      case LowerDone =>
        assert Torn(settled, c.worker.item.Effect(), c.landed) == Apply(settled, c.worker.item.Effect());
      case Land(sector) =>
        assert c'.disk == Torn(settled, c.worker.item.Effect(), c'.landed);
      case _ =>
    }
  }
}
