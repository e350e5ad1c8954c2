/** The counters of DEVICE_STATISTICS, remove locks and request completions, over all runs. */
module Accounting {
  import opened Arithmetic
  import opened Durability
  import opened Ordering
  import opened Overlay
  import opened Protocol
  import opened Scenarios
  import opened Sectors

  function TotalSize(queue: seq<Item>): nat {
    if queue == [] then 0 else TotalSize(queue[..|queue| - 1]) + ITEM_SIZE + SECTOR * |queue[|queue| - 1].data|
  }

  lemma {:induction false} TotalSizeAppend(queue: seq<Item>, item: Item)
    ensures TotalSize(queue + [item]) == TotalSize(queue) + item.Size()
  {
    assert (queue + [item])[..|queue|] == queue;
  }

  lemma {:induction false} TotalSizeHead(queue: seq<Item>)
    requires queue != []
    ensures TotalSize(queue) == queue[0].Size() + TotalSize(queue[1..])
  {
    var n := |queue| - 1;
    if n == 0 {
      assert queue[..0] == [] && queue[1..] == [];
    } else {
      TotalSizeHead(queue[..n]);
      assert queue[1..][..n - 1] == queue[..n][1..];
    }
  }

  /** Two insertion paths charge different amounts and one removal path pays back, and yet
      the counters always say what is in the queue. */
  ghost predicate CountersInv(s: State) {
    && s.counters.items == |s.core.queue|
    && s.counters.size == TotalSize(s.core.queue)
    && s.counters.items <= s.counters.itemsTop
    && s.counters.size <= s.counters.sizeTop
  }

  lemma {:induction false} CountersInvStep(s: State, step: Step)
    requires Inv(s) && CountersInv(s) && Enabled(s, step)
    ensures CountersInv(Do(s, step))
    ensures Do(s, step).counters.sizeTop == Max(Do(s, step).counters.size, s.counters.sizeTop)
    ensures Do(s, step).counters.itemsTop == Max(Do(s, step).counters.items, s.counters.itemsTop)
  {
    match step {
      case Insert(id) => TotalSizeAppend(s.core.queue, Do(s, step).core.queue[|s.core.queue|]);
      case Remove => TotalSizeHead(s.core.queue);
      case _ => QueueFrame(s, step);
    }
  }

  lemma {:induction false} CountersInvNext(run: Run, n: nat)
    requires run.Valid() && n < |run.steps| && Inv(run.states[n]) && CountersInv(run.states[n])
    ensures var before, after := run.states[n].counters, run.states[n + 1].counters;
            && CountersInv(run.states[n + 1])
            && after.sizeTop == Max(after.size, before.sizeTop)
            && after.itemsTop == Max(after.items, before.itemsTop)
  {
    assert run.Taken(n);
    CountersInvStep(run.states[n], run.steps[n]);
  }

  /** In every state of every run the counters are those of the queue, and the Top fields
      are the largest values the counters have had so far, no more and no less. */
  lemma {:induction false} CountersExact(run: Run, n: nat) returns (atSize: nat, atItems: nat)
    requires ValidFromInit(run) && n < |run.states|
    ensures CountersInv(run.states[n])
    ensures forall k :: 0 <= k <= n ==> run.states[k].counters.size <= run.states[n].counters.sizeTop
    ensures forall k :: 0 <= k <= n ==> run.states[k].counters.items <= run.states[n].counters.itemsTop
    ensures atSize <= n && run.states[atSize].counters.size == run.states[n].counters.sizeTop
    ensures atItems <= n && run.states[atItems].counters.items == run.states[n].counters.itemsTop
  {
    atSize, atItems := 0, 0;
    if n > 0 {
      atSize, atItems := CountersExact(run, n - 1);
      InvEverywhere(run, n - 1);
      CountersInvNext(run, n - 1);
      var s' := run.states[n];
      atSize := if s'.counters.sizeTop == s'.counters.size then n else atSize;
      atItems := if s'.counters.itemsTop == s'.counters.items then n else atItems;
    }
  }

  /** Threads that hold a remove lock for an item that is not in the queue yet. */
  function Carrying(threads: map<nat, Submitter>): set<nat> {
    set id | id in threads && threads[id].phase in {LazyReady, PlainReady}
  }

  /** Every remove lock held belongs to a queue item, an item on its way in or out, a live
      scatter object, or one of the two error exits that forget it. */
  ghost predicate LocksInv(s: State) {
    && s.locks.scatters >= 0
    && s.locks.held == |s.core.queue| + |Carrying(s.callers.threads)|
                       + (if s.core.worker.Releasing? then 1 else 0) + s.locks.scatters + s.locks.leaked
  }

  lemma {:induction false} CarryingStep(s: State, step: Step)
    requires ThreadsInv(s.callers, s.limits.base) && Enabled(s, step)
    ensures var before, after := Carrying(s.callers.threads), Carrying(Do(s, step).callers.threads);
            match step
            case Prepare(id, outcome) => id !in before && after == if outcome == Prepared then before + {id} else before
            case Insert(id) => id in before && after == before - {id}
            case _ => after == before
  {
    if !ByThread(step) {
      ThreadsFrame(s, step);
    }
  }

  lemma {:induction false} QueueLengthStep(s: State, step: Step)
    requires QueueInv(s.core, s.limits.base) && Enabled(s, step)
    ensures |Do(s, step).core.queue| == |s.core.queue| + (if step.Insert? then 1 else if step == Remove then -1 else 0)
    ensures Do(s, step).core.worker.Releasing? <==> step == Remove || (s.core.worker.Releasing? && step != Release)
  {
  }

  lemma {:induction false} LocksInvStep(s: State, step: Step)
    requires Inv(s) && LocksInv(s) && Enabled(s, step)
    ensures LocksInv(Do(s, step))
  {
    CarryingStep(s, step);
    QueueLengthStep(s, step);
  }

  /** The two error exits that forget the remove lock. */
  predicate Forgets(step: Step) { step.Prepare? && step.outcome in {NoMapping, NoPayload} }

  function Leaks(steps: seq<Step>): nat {
    if steps == [] then 0 else Leaks(steps[..|steps| - 1]) + if Forgets(steps[|steps| - 1]) then 1 else 0
  }

  lemma {:induction false} LeaksNone(steps: seq<Step>)
    ensures Leaks(steps) == 0 <==> forall k :: 0 <= k < |steps| ==> !Forgets(steps[k])
  {
    if steps != [] {
      var n := |steps| - 1;
      LeaksNone(steps[..n]);
      assert forall k :: 0 <= k < n ==> steps[..n][k] == steps[k];
    }
  }

  lemma {:induction false} LeakedStep(s: State, step: Step)
    requires Enabled(s, step)
    ensures Do(s, step).locks.leaked == s.locks.leaked + if Forgets(step) then 1 else 0
  {
  }

  lemma {:induction false} LeakedExact(run: Run, n: nat)
    requires ValidFromInit(run) && n < |run.states|
    ensures LocksInv(run.states[n]) && run.states[n].locks.leaked == Leaks(run.steps[..n])
  {
    if n == 0 {
      assert Carrying(map[]) == {};
    } else {
      LeakedExact(run, n - 1);
      InvEverywhere(run, n - 1);
      assert run.Taken(n - 1);
      LocksInvStep(run.states[n - 1], run.steps[n - 1]);
      LeakedStep(run.states[n - 1], run.steps[n - 1]);
      assert run.steps[..n][..n - 1] == run.steps[..n - 1];
    }
  }

  /** Remove locks that somebody will give back: of queue items, of items on their way in
      or out, and of live scatter objects. */
  function LocksOwed(s: State): int {
    |s.core.queue| + |Carrying(s.callers.threads)| + (if s.core.worker.Releasing? then 1 else 0) + s.locks.scatters
  }

  /** In every state of every run, the remove locks held are those, plus one for every time
      a mapping or a payload allocation has failed; so they balance exactly on the runs on
      which neither has failed. */
  lemma {:induction false} LocksBalance(run: Run, n: nat)
    requires ValidFromInit(run) && n < |run.states|
    ensures run.states[n].locks.held == LocksOwed(run.states[n]) + Leaks(run.steps[..n])
    ensures run.states[n].locks.held == LocksOwed(run.states[n]) <==> forall k :: 0 <= k < n ==> !Forgets(run.steps[k])
  {
    LeakedExact(run, n);
    LeaksNone(run.steps[..n]);
  }

  /** It does happen: one write on a new device whose buffer cannot be mapped, after which
      nothing is under way and a lock is held for ever. */
  lemma {:induction false} ForgottenLock(limits: Limits, w: Write<Sector>) returns (run: Run)
    requires Admits(limits, w)
    ensures ValidFromInit(run) && run.First().limits == limits
    ensures run.Last().callers.threads == map[] && run.Last().callers.completed == multiset{0}
    ensures LocksOwed(run.Last()) == 0 && run.Last().locks.held == 1
  {
    run := WriteAdmitted(limits, w);
    run := Take(run, Prepare(0, NoMapping));
    assert run.Last().callers.threads == map[] && Carrying(map[]) == {};
  }
}
