/** The protocol in terms of the requests alone: what the disk, the readers, the lower device
    and the cache flag owe to the requests as they arrived. */
module Requests {
  import opened Durability
  import opened Linearizability
  import opened Ordering
  import opened Overlay
  import opened Protocol
  import opened Registers
  import opened Sectors

  // From an arrival to its item.

  /** Does the request write to the sector? */
  predicate Puts(request: Request, sector: int) {
    request.WriteRequest? && request.write.offset <= sector < request.write.offset + |request.write.data|
  }

  /** What it writes there. */
  function Put(request: Request, sector: int): Sector
    requires Puts(request, sector)
  {
    request.write.data[sector - request.write.offset]
  }

  /** Insertion `n` of state `k` carries the request that arrived in step `j`. */
  ghost predicate Carries(run: Run, k: nat, n: int, j: nat)
    requires |run.states| == |run.steps| + 1
  {
    && k < |run.states| && j < |run.steps| && run.steps[j].Arrive?
    && 0 <= n < |run.states[k].core.inserted| && run.states[k].core.inserted[n].id == run.states[j].callers.nextId
  }

  /** The two items that can be made of a request: one with a copy of its data, for writes
      and flushes only, and one that keeps the request and has none. */
  predicate MadeOf(item: Item, request: Request) {
    match request
    case WriteRequest(w) =>
      item == Item(item.id, true, w.offset, w.data, None) || item == Item(item.id, true, 0, [], Some(request))
    case FlushRequest =>
      item == Item(item.id, false, 0, [], None) || item == Item(item.id, false, 0, [], Some(request))
    case _ => item == Item(item.id, false, 0, [], Some(request))
  }

  /** Thread and item of request `id` are those of `request`. */
  ghost predicate Keeps(s: State, id: nat, request: Request) {
    && id < s.callers.nextId
    && (id in s.callers.threads ==> s.callers.threads[id].request == request)
    && forall item :: item in s.core.inserted && item.id == id ==> MadeOf(item, request)
  }

  lemma {:induction false} InsertedItem(s: State, id: nat, request: Request)
    requires ThreadsInv(s.callers, s.limits.base) && Enabled(s, Insert(id)) && s.callers.threads[id].request == request
    ensures exists item :: Do(s, Insert(id)).core.inserted == s.core.inserted + [item] && item.id == id && MadeOf(item, request)
  {
    InsertedShape(s, id);
    var item := if At(s, id, LazyReady) then LazyItem(id, request) else PlainItem(id, request);
    assert item.id == id && MadeOf(item, request);
  }

  lemma {:induction false} KeepsStep(s: State, step: Step, id: nat, request: Request)
    requires Inv(s) && Enabled(s, step) && Keeps(s, id, request)
    ensures Keeps(Do(s, step), id, request)
  {
    if !ByThread(step) {
      ThreadsFrame(s, step);
    } else if step.Insert? {
      InsertedItem(s, step.id, s.callers.threads[step.id].request);
      InsertedShape(s, step.id);
    } else {
      assert Do(s, step).core.inserted == s.core.inserted;
    }
  }

  lemma {:induction false} KeepsAlong(run: Run, j: nat, k: nat)
    requires ValidFromInit(run) && j < |run.steps| && run.steps[j].Arrive? && j < k < |run.states|
    ensures Keeps(run.states[k], run.states[j].callers.nextId, run.steps[j].request)
  {
    InvEverywhere(run, k - 1);
    assert run.Taken(k - 1);
    if k > j + 1 {
      KeepsAlong(run, j, k - 1);
      KeepsStep(run.states[k - 1], run.steps[k - 1], run.states[j].callers.nextId, run.steps[j].request);
    }
  }

  lemma {:induction false} NextIdStep(s: State, step: Step)
    requires Enabled(s, step)
    ensures Do(s, step).callers.nextId == s.callers.nextId + if step.Arrive? then 1 else 0
  {
  }

  /** Every number is that of an arrival. */
  lemma {:induction false} Arrival(run: Run, k: nat, id: nat) returns (j: nat)
    requires ValidFromInit(run) && k < |run.states| && id < run.states[k].callers.nextId
    ensures j < k && run.steps[j].Arrive? && run.states[j].callers.nextId == id
  {
    assert run.Taken(k - 1);
    NextIdStep(run.states[k - 1], run.steps[k - 1]);
    j := k - 1;
    if id < run.states[k - 1].callers.nextId {
      j := Arrival(run, k - 1, id);
    }
  }

  /** Every insertion carries a request that has arrived before. */
  lemma {:induction false} Carried(run: Run, k: nat, n: nat) returns (j: nat)
    requires ValidFromInit(run) && k < |run.states| && n < |run.states[k].core.inserted|
    ensures j < k && Carries(run, k, n, j)
  {
    InvEverywhere(run, k);
    j := Arrival(run, k, run.states[k].core.inserted[n].id);
  }

  /** The item is made of that request, and what it writes to the lower disk is the write
      of the request, unchanged, if it is one. */
  lemma {:induction false} CarriedWrite(run: Run, k: nat, n: nat, j: nat)
    requires ValidFromInit(run) && k < |run.states| && Carries(run, k, n, j)
    ensures j < k && MadeOf(run.states[k].core.inserted[n], run.steps[j].request)
    ensures forall c :: run.states[k].core.inserted[n].Effect().Covers(c) <==> Puts(run.steps[j].request, c)
    ensures forall c :: Puts(run.steps[j].request, c) ==> run.states[k].core.inserted[n].Effect().At(c) == Put(run.steps[j].request, c)
  {
    InvEverywhere(run, k);
    if k <= j {
      NextIdGrows(run, k, j);
    }
    KeepsAlong(run, j, k);
  }

  lemma {:induction false} NextIdGrows(run: Run, j: nat, k: nat)
    requires run.Valid() && j <= k < |run.states|
    ensures run.states[j].callers.nextId <= run.states[k].callers.nextId
  {
    if j < k {
      NextIdGrows(run, j, k - 1);
      assert run.Taken(k - 1);
      NextIdStep(run.states[k - 1], run.steps[k - 1]);
    }
  }

  // The disk.

  /** `v` is what the request of insertion `n`, which arrived in step `j`, puts into the
      sector, or what was there from the start if `n` is -1. */
  ghost predicate Brings(run: Run, k: nat, n: int, j: nat, sector: nat, v: Sector)
    requires |run.states| == |run.steps| + 1 && run.states != [] && sector < |run.First().limits.base|
  {
    if n == -1 then v == run.First().limits.base[sector]
    else Carries(run, k, n, j) && Puts(run.steps[j].request, sector) && v == Put(run.steps[j].request, sector)
  }

  /** No request inserted between the positions `n` and `end` writes to the sector. */
  ghost predicate NoneBetween(run: Run, k: nat, n: int, end: nat, sector: nat)
    requires |run.states| == |run.steps| + 1
  {
    forall m: int, j: nat :: n < m < end && Carries(run, k, m, j) ==> !Puts(run.steps[j].request, sector)
  }

  lemma {:induction false} SourceBrings(run: Run, k: nat, n: int, sector: nat, v: Sector) returns (j: nat)
    requires ValidFromInit(run) && k < |run.states| && sector < |run.First().limits.base|
    requires sector < |run.states[k].limits.base| && ComesFrom(run.states[k], n, sector, v) && n >= -1
    ensures Brings(run, k, n, j, sector, v)
  {
    InvEverywhere(run, k);
    j := 0;
    if n >= 0 {
      j := Carried(run, k, n);
      CarriedWrite(run, k, n, j);
    }
  }

  /** In every state of every run a sector of the disk holds what the newest dispatched
      request that writes there put into it, or what the request at the head of the queue
      has put there already, or what it held at first: requests go to the disk in the order
      of their insertion, unchanged, lazy and ordinary ones together. */
  lemma {:induction false} DiskHoldsRequests(run: Run, k: nat, sector: nat) returns (n: int, j: nat)
    requires ValidFromInit(run) && k < |run.states| && sector < |run.First().limits.base|
    ensures |run.states[k].core.disk| == |run.First().limits.base|
    ensures -1 <= n <= |run.states[k].core.removed| && Brings(run, k, n, j, sector, run.states[k].core.disk[sector])
    ensures NoneBetween(run, k, n, |run.states[k].core.removed|, sector)
  {
    InvEverywhere(run, k);
    var c := run.states[k].core;
    DiskComesFrom(run.states[k], sector);
    n := DiskSource(c, sector);
    j := SourceBrings(run, k, n, sector, c.disk[sector]);
    forall m: int, i: nat | n < m < |c.removed| && Carries(run, k, m, i) ensures !Puts(run.steps[i].request, sector) {
      CarriedWrite(run, k, m, i);
      assert Effects(c.removed)[m] == c.inserted[m].Effect();
    }
  }

  /** With the queue empty it is the newest request of all. */
  lemma {:induction false} DrainedDiskHoldsNewest(run: Run, k: nat, sector: nat) returns (n: int, j: nat)
    requires ValidFromInit(run) && k < |run.states| && sector < |run.First().limits.base| && run.states[k].core.queue == []
    ensures |run.states[k].core.disk| == |run.First().limits.base|
    ensures n >= -1 && Brings(run, k, n, j, sector, run.states[k].core.disk[sector])
    ensures NoneBetween(run, k, n, |run.states[k].core.inserted|, sector)
  {
    InvEverywhere(run, k);
    n, j := DiskHoldsRequests(run, k, sector);
  }

  /** What one dispatch changes: from the moment the worker takes the item to the moment its
      lower request is over, the sectors of its write, and no others. */
  lemma {:induction false} DispatchChanges(run: Run, a: nat, b: nat, item: Item, j: nat, sector: nat)
    requires ValidFromInit(run) && a <= b < |run.states| && sector < |run.First().limits.base|
    requires run.states[a].core.worker == Holding(item) && run.states[b].core.worker == Finished(item)
    requires run.states[b].core.removed == run.states[a].core.removed
    requires Carries(run, b, |run.states[a].core.removed|, j)
    ensures |run.states[a].core.disk| == |run.states[b].core.disk| == |run.First().limits.base|
    ensures run.states[b].core.disk[sector] ==
            if Puts(run.steps[j].request, sector) then Put(run.steps[j].request, sector) else run.states[a].core.disk[sector]
  {
    InvEverywhere(run, a);
    InvEverywhere(run, b);
    CarriedWrite(run, b, |run.states[a].core.removed|, j);
    assert run.states[b].core.inserted[|run.states[b].core.removed|] == run.states[b].core.queue[0];
  }

  /** What a read returns is what the request at its source brings. */
  lemma {:induction false} ReadReturnsRequest(run: Run, i: nat, t: nat, sector: nat) returns (j: nat)
    requires ValidFromInit(run) && i <= t < |run.states| && sector < |run.First().limits.base|
    ensures |run.states[t].core.disk| == |run.First().limits.base|
    ensures Brings(run, t, Source(run, i, t, sector), j, sector, ReadSector(run, i, t, sector))
  {
    ReadComesFrom(run, i, t, sector);
    j := SourceBrings(run, t, Source(run, i, t, sector), sector, ReadSector(run, i, t, sector));
  }

  // The lower device.

  /** The two controls that end in the queue. */
  predicate StaysHere(item: Item) {
    item.irp == Some(ControlRequest(CacheOff)) || item.irp == Some(ControlRequest(CacheFlush))
  }

  predicate AtWork(w: Worker, item: Item) { w == Holding(item) || w == Issued(item) || w == Finished(item) }

  lemma {:induction false} WorkStep(s: State, step: Step, item: Item)
    requires Enabled(s, step) && AtWork(Do(s, step).core.worker, item)
    ensures var before, after := s.core.worker, Do(s, step).core.worker;
            || (step == Peek && after == Holding(item))
            || after == before
            || (before == Holding(item) && after == if StaysHere(item) then Finished(item) else Issued(item))
            || (before == Issued(item) && after == Finished(item))
  {
  }

  /** Between step `p`, in which the worker took the item, and state `b` a lower request was
      outstanding for it. */
  ghost predicate SentBetween(run: Run, p: nat, b: nat, item: Item) {
    exists u :: p < u < b < |run.states| && run.states[u].core.worker == Issued(item)
  }

  lemma {:induction false} WorkAlong(run: Run, b: nat, item: Item) returns (p: nat)
    requires ValidFromInit(run) && b < |run.states| && AtWork(run.states[b].core.worker, item)
    ensures p < b && run.steps[p] == Peek && run.states[p + 1].core.worker == Holding(item)
    ensures forall w :: p < w <= b ==> AtWork(run.states[w].core.worker, item)
    ensures run.states[b].core.worker == Holding(item) ==> forall w :: p < w <= b ==> run.states[w].core.worker == Holding(item)
    ensures run.states[b].core.worker == Issued(item) ==> !StaysHere(item)
    ensures run.states[b].core.worker == Finished(item) ==> (SentBetween(run, p, b, item) <==> !StaysHere(item))
  {
    assert b > 0;
    assert run.Taken(b - 1);
    WorkStep(run.states[b - 1], run.steps[b - 1], item);
    if run.steps[b - 1] == Peek && run.states[b].core.worker == Holding(item) {
      p := b - 1;
    } else {
      p := WorkAlong(run, b - 1, item);
    }
  }

  /** Every item the worker has finished has been outstanding at the lower device since the
      worker took it, except the OFF and FLUSH controls, which never are. */
  lemma {:induction false} SentUnlessMarker(run: Run, b: nat, item: Item) returns (p: nat)
    requires ValidFromInit(run) && b < |run.states| && run.states[b].core.worker == Finished(item)
    ensures p < b && run.steps[p] == Peek && run.states[p + 1].core.worker == Holding(item)
    ensures forall w :: p < w <= b ==> AtWork(run.states[w].core.worker, item)
    ensures SentBetween(run, p, b, item) <==>
            item.irp != Some(ControlRequest(CacheOff)) && item.irp != Some(ControlRequest(CacheFlush))
  {
    p := WorkAlong(run, b, item);
  }

  // The cache flag.

  /** The flag is cleared by a shutdown request, by OFF and by the removal, and set by ON. */
  lemma {:induction false} FlagChanges(run: Run, k: nat)
    requires run.Valid() && k < |run.steps|
    ensures run.states[k].flags.isCached && !run.states[k + 1].flags.isCached <==>
            run.states[k].flags.isCached && run.steps[k] in {Arrive(ShutdownRequest), Arrive(ControlRequest(CacheOff)), ClearForRemoval}
    ensures !run.states[k].flags.isCached && run.states[k + 1].flags.isCached <==>
            !run.states[k].flags.isCached && run.steps[k] == CacheOn
  {
    assert run.Taken(k);
  }
}
