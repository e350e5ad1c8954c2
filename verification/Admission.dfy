/** Admission to the lazy path is tested without the queue lock, one counter at a time.
    How far the configured limits can be overshot, whatever ordinary items do. */
module Admission {
  import opened Accounting
  import opened Durability
  import opened Ordering
  import opened Protocol
  import opened Sectors

  function LazyItems(queue: seq<Item>): nat {
    if queue == [] then 0 else LazyItems(queue[..|queue| - 1]) + if queue[|queue| - 1].irp.None? then 1 else 0
  }

  function LazyBytes(queue: seq<Item>): nat {
    if queue == [] then 0 else LazyBytes(queue[..|queue| - 1]) + if queue[|queue| - 1].irp.None? then ITEM_SIZE + SECTOR * |queue[|queue| - 1].data| else 0
  }

  lemma {:induction false} LazyAppend(queue: seq<Item>, item: Item)
    ensures LazyItems(queue + [item]) == LazyItems(queue) + if item.Lazy() then 1 else 0
    ensures LazyBytes(queue + [item]) == LazyBytes(queue) + if item.Lazy() then item.Size() else 0
  {
    assert (queue + [item])[..|queue|] == queue;
  }

  lemma {:induction false} LazyTail(queue: seq<Item>)
    requires queue != []
    ensures LazyItems(queue[1..]) <= LazyItems(queue)
    ensures LazyBytes(queue[1..]) <= LazyBytes(queue)
  {
    var n := |queue| - 1;
    if n == 0 {
      assert queue[1..] == [];
    } else {
      LazyTail(queue[..n]);
      assert queue[1..][..n - 1] == queue[..n][1..];
    }
  }

  lemma {:induction false} LazyWithinTotals(queue: seq<Item>)
    ensures LazyItems(queue) <= |queue|
    ensures LazyBytes(queue) <= TotalSize(queue)
  {
    if queue != [] {
      LazyWithinTotals(queue[..|queue| - 1]);
    }
  }

  /** Threads that have passed the item test and not inserted yet. */
  function PastItemTest(threads: map<nat, Submitter>): set<nat> {
    set id | id in threads && threads[id].phase in {Admitted, LazyReady}
  }

  /** Threads that have passed the size test and not inserted yet. */
  function PastSizeTest(threads: map<nat, Submitter>): set<nat> {
    set id | id in threads && threads[id].phase in {SawRoom, Admitted, LazyReady}
  }

  lemma {:induction false} PastItemTestStep(s: State, step: Step)
    requires ThreadsInv(s.callers, s.limits.base) && Enabled(s, step)
    ensures var past, past' := PastItemTest(s.callers.threads), PastItemTest(Do(s, step).callers.threads);
            match step
            case TestItems(id) => past' <= past + {id} && (past' <= past || s.counters.items < s.limits.maxItems)
            case Insert(id) => if At(s, id, LazyReady) then id in past && past' == past - {id} else past' == past
            case _ => past' <= past
  {
    if !ByThread(step) {
      ThreadsFrame(s, step);
    }
  }

  lemma {:induction false} PastSizeTestStep(s: State, step: Step)
    requires ThreadsInv(s.callers, s.limits.base) && Enabled(s, step)
    ensures var past, past' := PastSizeTest(s.callers.threads), PastSizeTest(Do(s, step).callers.threads);
            match step
            case TestRoom(id, _) => past' <= past + {id} && (past' == past || s.counters.size < s.limits.maxSize)
            case Insert(id) => if At(s, id, LazyReady) then id in past && past' == past - {id} else past' == past
            case _ => past' <= past
  {
    if !ByThread(step) {
      ThreadsFrame(s, step);
    }
  }

  /** Lazy items in the queue or on their way into it. */
  ghost predicate ItemsBounded(s: State, k: nat) {
    var load := LazyItems(s.core.queue) + |PastItemTest(s.callers.threads)|;
    load == 0 || load <= s.limits.maxItems - 1 + k
  }

  lemma {:induction false} SmallerSet(a: set<nat>, b: set<nat>)
    requires a <= b
    ensures |a| <= |b|
  {
    if a != b {
      assert b == a + (b - a);
    }
  }

  lemma {:induction false} ItemsBoundedStep(s: State, step: Step, k: nat)
    requires Inv(s) && CountersInv(s) && ItemsBounded(s, k) && Enabled(s, step)
    requires |PastItemTest(Do(s, step).callers.threads)| <= k
    ensures ItemsBounded(Do(s, step), k)
  {
    var s' := Do(s, step);
    var past, past' := PastItemTest(s.callers.threads), PastItemTest(s'.callers.threads);
    PastItemTestStep(s, step);
    LazyWithinTotals(s.core.queue);
    if past' <= past {
      SmallerSet(past', past);
    }
    match step {
      case Insert(id) => LazyAppend(s.core.queue, s'.core.queue[|s.core.queue|]);
      case Remove => LazyTail(s.core.queue);
      case _ =>
    }
  }

  lemma {:induction false} ItemsBoundedNext(run: Run, n: nat, k: nat)
    requires ValidFromInit(run) && n < |run.steps| && ItemsBounded(run.states[n], k)
    requires |PastItemTest(run.states[n + 1].callers.threads)| <= k
    ensures ItemsBounded(run.states[n + 1], k)
  {
    var _, _ := CountersExact(run, n);
    InvEverywhere(run, n);
    assert run.Taken(n);
    ItemsBoundedStep(run.states[n], run.steps[n], k);
  }

  /** With at most `k` threads between the item test and their insertion at any time, the
      queue never holds more than MaxQueueItems - 1 + k lazy items. */
  lemma {:induction false} LazyItemsBounded(run: Run, n: nat, k: nat)
    requires ValidFromInit(run) && n < |run.states|
    requires forall j :: 0 <= j <= n ==> |PastItemTest(run.states[j].callers.threads)| <= k
    ensures ItemsBounded(run.states[n], k)
    ensures LazyItems(run.states[n].core.queue) == 0
            || LazyItems(run.states[n].core.queue) <= run.First().limits.maxItems - 1 + k
  {
    InvEverywhere(run, n);
    if n == 0 {
      assert PastItemTest(run.states[0].callers.threads) == {};
    } else {
      LazyItemsBounded(run, n - 1, k);
      ItemsBoundedNext(run, n - 1, k);
    }
  }

  /** No write in the system is longer than `largest` bytes. */
  ghost predicate WritesWithin(c: Callers, largest: nat) {
    forall id :: id in c.threads ==> SECTOR * |c.threads[id].request.Payload().data| <= largest
  }

  /** Lazy bytes in the queue, with `unit` bytes set aside for each thread on its way in. */
  function ByteLoad(queue: seq<Item>, past: set<nat>, unit: nat): nat {
    LazyBytes(queue) + unit * |past|
  }

  ghost predicate BytesBounded(s: State, unit: nat, limit: int) {
    var load := ByteLoad(s.core.queue, PastSizeTest(s.callers.threads), unit);
    load == 0 || load <= limit
  }

  lemma {:induction false} Scaled(unit: nat, a: nat, b: nat)
    requires a <= b
    ensures unit * a <= unit * b
  {
  }

  lemma {:induction false} LoadOnInsert(queue: seq<Item>, past: set<nat>, item: Item, id: nat, unit: nat)
    requires id in past && item.Size() <= unit
    ensures ByteLoad(queue + [item], past - {id}, unit) <= ByteLoad(queue, past, unit)
  {
    LazyAppend(queue, item);
    assert |past - {id}| == |past| - 1;
    assert unit * |past| == unit * (|past| - 1) + unit;
  }

  lemma {:induction false} LoadShrinks(queue: seq<Item>, past: set<nat>, past': set<nat>, unit: nat)
    requires past' <= past
    ensures ByteLoad(queue, past', unit) <= ByteLoad(queue, past, unit)
  {
    SmallerSet(past', past);
    Scaled(unit, |past'|, |past|);
  }

  lemma {:induction false} InsertShape(s: State, id: nat) returns (item: Item)
    requires Enabled(s, Insert(id))
    ensures Do(s, Insert(id)).core.queue == s.core.queue + [item]
    ensures if At(s, id, LazyReady) then item == LazyItem(id, s.callers.threads[id].request)
            else item == PlainItem(id, s.callers.threads[id].request)
  {
    item := Do(s, Insert(id)).core.queue[|s.core.queue|];
  }

  lemma {:induction false} BytesAfterInsert(s: State, id: nat, unit: nat, limit: int)
    requires Inv(s) && BytesBounded(s, unit, limit) && Enabled(s, Insert(id))
    requires ITEM_SIZE + SECTOR * |s.callers.threads[id].request.Payload().data| <= unit
    ensures BytesBounded(Do(s, Insert(id)), unit, limit)
  {
    PastSizeTestStep(s, Insert(id));
    var item := InsertShape(s, id);
    LoadAfterInsert(s.core.queue, PastSizeTest(s.callers.threads), PastSizeTest(Do(s, Insert(id)).callers.threads), item, id, unit);
  }

  lemma {:induction false} LoadAfterInsert(queue: seq<Item>, past: set<nat>, past': set<nat>, item: Item, id: nat, unit: nat)
    requires if item.Lazy() then id in past && past' == past - {id} && item.Size() <= unit else past' == past
    ensures ByteLoad(queue + [item], past', unit) <= ByteLoad(queue, past, unit)
  {
    if item.Lazy() {
      LoadOnInsert(queue, past, item, id, unit);
    } else {
      LazyAppend(queue, item);
    }
  }

  lemma {:induction false} BytesAfterTest(s: State, step: Step, k: nat, unit: nat, limit: int)
    requires Inv(s) && CountersInv(s) && BytesBounded(s, unit, limit) && Enabled(s, step) && step.TestRoom?
    requires limit == s.limits.maxSize - 1 + k * unit
    requires |PastSizeTest(Do(s, step).callers.threads)| <= k
    ensures BytesBounded(Do(s, step), unit, limit)
  {
    var past' := PastSizeTest(Do(s, step).callers.threads);
    PastSizeTestStep(s, step);
    LazyWithinTotals(s.core.queue);
    Scaled(unit, |past'|, k);
  }

  lemma {:induction false} BytesBoundedStep(s: State, step: Step, k: nat, unit: nat, limit: int)
    requires Inv(s) && CountersInv(s) && BytesBounded(s, unit, limit) && Enabled(s, step)
    requires limit == s.limits.maxSize - 1 + k * unit
    requires step.Insert? ==> ITEM_SIZE + SECTOR * |s.callers.threads[step.id].request.Payload().data| <= unit
    requires |PastSizeTest(Do(s, step).callers.threads)| <= k
    ensures BytesBounded(Do(s, step), unit, limit)
  {
    match step {
      case Insert(id) => BytesAfterInsert(s, id, unit, limit);
      case TestRoom(_, _) => BytesAfterTest(s, step, k, unit, limit);
      case _ => BytesAfterOther(s, step, unit, limit);
    }
  }

  lemma {:induction false} BytesAfterOther(s: State, step: Step, unit: nat, limit: int)
    requires Inv(s) && BytesBounded(s, unit, limit) && Enabled(s, step) && !step.Insert? && !step.TestRoom?
    ensures BytesBounded(Do(s, step), unit, limit)
  {
    PastSizeTestStep(s, step);
    LoadShrinks(s.core.queue, PastSizeTest(s.callers.threads), PastSizeTest(Do(s, step).callers.threads), unit);
    if step == Remove {
      LazyTail(s.core.queue);
    } else {
      QueueFrame(s, step);
    }
  }

  lemma {:induction false} WritesWithinStep(s: State, step: Step, largest: nat)
    requires Enabled(s, step) && WritesWithin(s.callers, largest)
    requires step.Arrive? ==> SECTOR * |step.request.Payload().data| <= largest
    ensures WritesWithin(Do(s, step).callers, largest)
  {
    if !ByThread(step) {
      ThreadsFrame(s, step);
    }
  }

  lemma {:induction false} BytesBoundedNext(run: Run, n: nat, k: nat, unit: nat, limit: int)
    requires ValidFromInit(run) && n < |run.steps|
    requires limit == run.First().limits.maxSize - 1 + k * unit && unit >= ITEM_SIZE
    requires BytesBounded(run.states[n], unit, limit) && WritesWithin(run.states[n].callers, unit - ITEM_SIZE)
    requires |PastSizeTest(run.states[n + 1].callers.threads)| <= k
    requires run.steps[n].Arrive? ==> SECTOR * |run.steps[n].request.Payload().data| <= unit - ITEM_SIZE
    ensures BytesBounded(run.states[n + 1], unit, limit) && WritesWithin(run.states[n + 1].callers, unit - ITEM_SIZE)
  {
    var _, _ := CountersExact(run, n);
    InvEverywhere(run, n);
    assert run.Taken(n);
    BytesBoundedStep(run.states[n], run.steps[n], k, unit, limit);
    WritesWithinStep(run.states[n], run.steps[n], unit - ITEM_SIZE);
  }

  lemma {:induction false} BytesBoundedAlong(run: Run, n: nat, k: nat, unit: nat, limit: int)
    requires ValidFromInit(run) && n < |run.states|
    requires limit == run.First().limits.maxSize - 1 + k * unit && unit >= ITEM_SIZE
    requires forall j :: 0 <= j <= n ==> |PastSizeTest(run.states[j].callers.threads)| <= k
    requires forall j :: 0 <= j < n && run.steps[j].Arrive? ==>
                           SECTOR * |run.steps[j].request.Payload().data| <= unit - ITEM_SIZE
    ensures BytesBounded(run.states[n], unit, limit) && WritesWithin(run.states[n].callers, unit - ITEM_SIZE)
  {
    if n == 0 {
      assert PastSizeTest(run.states[0].callers.threads) == {};
    } else {
      BytesBoundedAlong(run, n - 1, k, unit, limit);
      BytesBoundedNext(run, n - 1, k, unit, limit);
    }
  }

  /** With at most `k` threads between the size test and their insertion at any time, and
      writes of at most `largest` bytes, the lazy items never take more than
      MaxQueueSize - 1 + k * (item size + largest) bytes. */
  lemma {:induction false} LazyBytesBounded(run: Run, n: nat, k: nat, largest: nat)
    requires ValidFromInit(run) && n < |run.states|
    requires forall j :: 0 <= j <= n ==> |PastSizeTest(run.states[j].callers.threads)| <= k
    requires forall j :: 0 <= j < n && run.steps[j].Arrive? ==> SECTOR * |run.steps[j].request.Payload().data| <= largest
    ensures var bytes := LazyBytes(run.states[n].core.queue);
            bytes == 0 || bytes <= run.First().limits.maxSize - 1 + k * (ITEM_SIZE + largest)
  {
    var unit := ITEM_SIZE + largest;
    BytesBoundedAlong(run, n, k, unit, run.First().limits.maxSize - 1 + k * unit);
    assert ByteLoad(run.states[n].core.queue, PastSizeTest(run.states[n].callers.threads), unit)
           >= LazyBytes(run.states[n].core.queue);
  }
}
