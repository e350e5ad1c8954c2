/** What readers see (the queue over the disk), step by step and against the order in
    which the requests were inserted. */
module Views {
  import opened Ordering
  import opened Overlay
  import opened Protocol
  import opened Sectors

  lemma {:induction false} ViewAt(c: Core, i: nat)
    requires i < |c.disk|
    ensures View(c)[i] == if Newest(Cached(c.queue), i).Some? then Newest(Cached(c.queue), i).value else c.disk[i]
  {
    ReplayAt(c.disk, Cached(c.queue), i);
  }

  lemma {:induction false} CachedAppend(queue: seq<Item>, item: Item, i: int)
    ensures Newest(Cached(queue + [item]), i) ==
            if item.Cached().Covers(i) then Some(item.Cached().At(i)) else Newest(Cached(queue), i)
  {
    assert Cached(queue + [item]) == Cached(queue) + [item.Cached()];
    NewestAppend(Cached(queue), item.Cached(), i);
  }

  lemma {:induction false} CachedHead(queue: seq<Item>, i: int)
    requires queue != []
    ensures Newest(Cached(queue), i) ==
            if Newest(Cached(queue[1..]), i).Some? then Newest(Cached(queue[1..]), i)
            else if queue[0].Cached().Covers(i) then Some(queue[0].Cached().At(i)) else None
  {
    assert Cached(queue)[1..] == Cached(queue[1..]);
    NewestFront(Cached(queue), i);
  }

  /** The value sector `i` of the view takes in a step. */
  ghost function NextView(s: State, step: Step, i: nat): Sector
    requires Inv(s) && Enabled(s, step) && i < |s.limits.base|
  {
    match step
    // acknowledging a lazy write makes it visible at once
    case Insert(id) =>
      var payload := s.callers.threads[id].request.Payload();
      if At(s, id, LazyReady) && payload.Covers(i) then payload.At(i) else View(s.core)[i]
    // an ordinary write becomes visible as it lands, unless a lazy write is queued over it
    case Land(c) =>
      var item := s.core.worker.item;
      if c == i && !item.Lazy() && Newest(Cached(s.core.queue), i).None? then item.Effect().At(i) else View(s.core)[i]
    case _ => View(s.core)[i]
  }

  lemma {:induction false} ViewOnInsert(c: Core, item: Item, i: nat)
    requires i < |c.disk|
    ensures View(Append(c, item))[i] == if item.Cached().Covers(i) then item.Cached().At(i) else View(c)[i]
  {
    ViewAt(c, i);
    ViewAt(Append(c, item), i);
    CachedAppend(c.queue, item, i);
  }

  /** Taking the head out of the queue, once it is on the disk where nothing newer covers it. */
  lemma {:induction false} ViewOnRemove(c: Core, i: nat)
    requires i < |c.disk| && c.queue != []
    requires c.queue[0].Cached().Covers(i) ==> c.disk[i] == c.queue[0].Cached().At(i)
    ensures Replay(c.disk, Cached(c.queue[1..]))[i] == View(c)[i]
  {
    ViewAt(c, i);
    ReplayAt(c.disk, Cached(c.queue[1..]), i);
    CachedHead(c.queue, i);
  }

  lemma {:induction false} ViewOnLand(c: Core, sector: nat, v: Sector, i: nat)
    requires i < |c.disk| && sector < |c.disk| && c.queue != []
    requires c.queue[0].Cached().Covers(sector) ==> v == c.queue[0].Cached().At(sector)
    ensures Replay(c.disk[sector := v], Cached(c.queue))[i] ==
            if sector == i && Newest(Cached(c.queue), i).None? then v else View(c)[i]
  {
    ViewAt(c, i);
    ReplayAt(c.disk[sector := v], Cached(c.queue), i);
  }

  lemma {:induction false} CoveredByHead(queue: seq<Item>, i: int)
    requires queue != [] && queue[0].Cached().Covers(i)
    ensures Newest(Cached(queue), i).Some?
  {
    CachedHead(queue, i);
  }

  lemma {:induction false} CachedIsEffect(item: Item, base: Disk)
    requires WellFormed(item, base)
    ensures if item.Lazy() then item.Cached() == item.Effect() else item.Cached().data == []
  {
  }

  /** Exactly these two kinds of steps change what readers see, and exactly so. */
  lemma {:induction false} ViewChanges(s: State, step: Step, i: nat)
    requires Inv(s) && Enabled(s, step) && i < |s.limits.base|
    ensures |Do(s, step).core.disk| == |s.limits.base|
    ensures View(Do(s, step).core)[i] == NextView(s, step, i)
  {
    var c := s.core;
    match step {
      case Insert(id) =>
        ViewOnInsert(c, Do(s, step).core.queue[|c.queue|], i);
      case Land(sector) =>
        var item := c.worker.item;
        HeadFits(s);
        ViewOnLand(c, sector, item.Effect().At(sector), i);
        if item.Lazy() {
          CoveredByHead(c.queue, sector);
        }
      case Remove =>
        HeadFits(s);
        RemovedHeadHasLanded(s, i);
        ViewOnRemove(c, i);
      case _ =>
    }
  }

  lemma {:induction false} HeadFits(s: State)
    requires Inv(s) && Working(s.core.worker)
    ensures var item := s.core.worker.item;
            && s.core.queue != [] && item == s.core.queue[0]
            && (item.Lazy() ==> item.Cached() == item.Effect())
            && (!item.Lazy() ==> item.Cached().data == [])
  {
    assert WellFormed(s.core.inserted[|s.core.removed|], s.limits.base);
    CachedIsEffect(s.core.queue[0], s.limits.base);
  }

  lemma {:induction false} RemovedHeadHasLanded(s: State, i: nat)
    requires Inv(s) && (s.core.worker.Finished? || s.core.worker.Replied?) && i < |s.limits.base|
    ensures s.core.worker.item.Effect().Covers(i) ==> s.core.disk[i] == s.core.worker.item.Effect().At(i)
  {
  }

  predicate ByWorker(step: Step) {
    step in {Peek, TestShutdown, Wake, FailBuild, Issue, LowerDone, Reply, Remove, Release}
  }

  /** Nothing the worker or the lower device does to a lazy item can be seen by a reader:
      not a lower write in progress, not a failed attempt to build it, not its removal. */
  lemma {:induction false} WorkerInvisible(s: State, step: Step)
    requires Inv(s) && Enabled(s, step)
    requires ByWorker(step) || (step.Land? && s.core.worker.item.Lazy())
    ensures View(Do(s, step).core) == View(s.core)
  {
    forall i | 0 <= i < |s.limits.base| ensures View(Do(s, step).core)[i] == View(s.core)[i] {
      ViewChanges(s, step, i);
    }
    QueueInvStep(s, step);
  }

  /** No ordinary write that covers sector `i` is waiting. */
  ghost predicate OnlyLazyAt(queue: seq<Item>, i: int) {
    forall k :: 0 <= k < |queue| && queue[k].Effect().Covers(i) ==> queue[k].Lazy()
  }

  lemma {:induction false} OnlyLazyNewest(queue: seq<Item>, i: int, base: Disk)
    requires OnlyLazyAt(queue, i)
    requires forall k :: 0 <= k < |queue| ==> WellFormed(queue[k], base)
    ensures Newest(Effects(queue), i) == Newest(Cached(queue), i)
  {
    if queue != [] {
      var n := |queue| - 1;
      OnlyLazyNewest(queue[..n], i, base);
      assert Effects(queue)[..n] == Effects(queue[..n]) && Cached(queue)[..n] == Cached(queue[..n]);
      assert WellFormed(queue[n], base);
    }
  }

  lemma {:induction false} EffectsAppend(a: seq<Item>, b: seq<Item>)
    ensures Effects(a + b) == Effects(a) + Effects(b)
  {
  }

  /** The disk runs ahead of the removed items only where the head of the queue writes. */
  lemma {:induction false} OnlyHeadAhead(c: Core, base: Disk, i: nat)
    requires QueueInv(c, base) && DiskInv(c, base) && i < |base|
    ensures c.disk[i] == Replay(base, Effects(c.removed))[i] || (c.queue != [] && c.queue[0].Effect().Covers(i))
  {
  }

  lemma {:induction false} ReplayOfAllAt(c: Core, base: Disk, i: nat)
    requires c.inserted == c.removed + c.queue && i < |base|
    ensures Replay(base, Effects(c.inserted))[i] ==
            if Newest(Effects(c.queue), i).Some? then Newest(Effects(c.queue), i).value
            else Replay(base, Effects(c.removed))[i]
  {
    EffectsAppend(c.removed, c.queue);
    ReplayConcat(base, Effects(c.removed), Effects(c.queue));
    ReplayAt(Replay(base, Effects(c.removed)), Effects(c.queue), i);
  }

  /** Wherever no ordinary write is waiting, readers see every request inserted so far
      carried out in order, however far the worker has got. */
  lemma {:induction false} ViewIsReplayOfAll(s: State, i: nat)
    requires Inv(s) && i < |s.limits.base| && OnlyLazyAt(s.core.queue, i)
    ensures View(s.core)[i] == Replay(s.limits.base, Effects(s.core.inserted))[i]
  {
    var c, base := s.core, s.limits.base;
    forall k | 0 <= k < |c.queue| ensures WellFormed(c.queue[k], base) {
      assert c.queue[k] == c.inserted[|c.removed| + k];
    }
    OnlyLazyNewest(c.queue, i, base);
    ReplayOfAllAt(c, base, i);
    ViewAt(c, i);
    OnlyHeadAhead(c, base, i);
    if c.queue != [] {
      CachedHead(c.queue, i);
    }
  }

  /** When the queue is empty and nothing is in flight, the disk is the whole history. */
  lemma {:induction false} DrainedDisk(s: State)
    requires Inv(s) && s.core.queue == []
    ensures s.core.disk == Replay(s.limits.base, Effects(s.core.inserted)) && View(s.core) == s.core.disk
  {
    assert s.core.removed == s.core.inserted;
  }
}
