/** Every request given to the queue is completed exactly once. */
module Completion {
  import opened Durability
  import opened Ordering
  import opened Protocol

  /** A thread on an error path or on the lazy path completes its request itself. */
  predicate OwedByThread(s: State, id: nat) {
    id in s.callers.threads && s.callers.threads[id].phase != PlainInserted
  }

  /** The request of an ordinary item is completed by the worker. */
  ghost predicate OwedByQueue(c: Core, id: nat) {
    exists item :: item in c.queue && item.id == id && !item.Lazy() && c.worker != Replied(item)
  }

  /** Lazy items come from threads on the lazy path, the others from the ordinary path. */
  ghost predicate KindsInv(s: State) {
    forall item :: item in s.core.inserted && item.id in s.callers.threads ==>
                     (item.Lazy() <==> s.callers.threads[item.id].phase in {LazyInserted, LazySignalled})
                     && (!item.Lazy() <==> s.callers.threads[item.id].phase == PlainInserted)
  }

  ghost predicate CompletedOnce(s: State) {
    forall id: nat ::
      s.callers.completed[id] ==
      if id < s.callers.nextId && !OwedByThread(s, id) && !OwedByQueue(s.core, id) then 1 else 0
  }

  /** Only the thread that inserts an item moves from before its insertion to after it. */
  lemma {:induction false} PhasesStep(s: State, step: Step, id: nat)
    requires Inv(s) && Enabled(s, step) && !step.Insert?
    requires id < s.callers.nextId && id in Do(s, step).callers.threads
    ensures id in s.callers.threads
    ensures var before, after := s.callers.threads[id].phase, Do(s, step).callers.threads[id].phase;
            HasInserted(before) ==> (before == PlainInserted <==> after == PlainInserted) && HasInserted(after)
    ensures Do(s, step).core.inserted == s.core.inserted
  {
    if !ByThread(step) {
      ThreadsFrame(s, step);
    }
  }

  lemma {:induction false} InsertedKind(s: State, id: nat, item: Item)
    requires Inv(s) && Enabled(s, Insert(id)) && item in Do(s, Insert(id)).core.inserted
    ensures var after := Do(s, Insert(id)).callers.threads;
            if item in s.core.inserted
            then item.id != id && (item.id in after <==> item.id in s.callers.threads)
                 && (item.id in after ==> after[item.id] == s.callers.threads[item.id])
            else item.id == id && id in after && after[id].phase == if item.Lazy() then LazyInserted else PlainInserted
  {
  }

  lemma {:induction false} KindsInvStep(s: State, step: Step)
    requires Inv(s) && KindsInv(s) && Enabled(s, step)
    ensures KindsInv(Do(s, step))
  {
    var s' := Do(s, step);
    forall item | item in s'.core.inserted && item.id in s'.callers.threads
      ensures (item.Lazy() <==> s'.callers.threads[item.id].phase in {LazyInserted, LazySignalled})
              && (!item.Lazy() <==> s'.callers.threads[item.id].phase == PlainInserted)
    {
      if step.Insert? {
        InsertedKind(s, step.id, item);
      } else {
        PhasesStep(s, step, item.id);
      }
    }
  }

  /** The items of the queue are inserted items with numbers of their own. */
  lemma {:induction false} QueueIds(s: State)
    requires Inv(s)
    ensures forall item :: item in s.core.queue ==> item in s.core.inserted && item.id < s.callers.nextId
    ensures forall a, b :: a in s.core.queue && b in s.core.queue && a.id == b.id ==> a == b
    ensures s.core.queue != [] ==> s.core.queue[0] !in s.core.queue[1..]
  {
    var c := s.core;
    assert forall k :: 0 <= k < |c.queue| ==> c.queue[k] == c.inserted[|c.removed| + k];
  }

  lemma {:induction false} SamePhases(s: State, step: Step)
    requires Enabled(s, step) && (step.TestCached? || step.TestRoom? || step.TestItems?)
    ensures var before, after := s.callers.threads, Do(s, step).callers.threads;
            forall id :: (id in before <==> id in after) &&
                         (id in before ==> (before[id].phase == PlainInserted <==> after[id].phase == PlainInserted))
  {
  }

  lemma {:induction false} OwedByThreadStep(s: State, step: Step, id: nat)
    requires Inv(s) && Enabled(s, step)
    ensures OwedByThread(Do(s, step), id) ==
            match step
            case Arrive(_) => id == s.callers.nextId || OwedByThread(s, id)
            case Prepare(i, outcome) => OwedByThread(s, id) && (i != id || outcome == Prepared)
            case Insert(i) => OwedByThread(s, id) && (i != id || At(s, i, LazyReady))
            case CompleteLazy(i) => OwedByThread(s, id) && i != id
            case _ => OwedByThread(s, id)
  {
    if !ByThread(step) {
      ThreadsFrame(s, step);
    } else if step.TestCached? || step.TestRoom? || step.TestItems? {
      SamePhases(s, step);
    }
  }

  lemma {:induction false} OwedOnInsert(s: State, i: nat, id: nat)
    requires Inv(s) && Enabled(s, Insert(i))
    ensures OwedByQueue(Do(s, Insert(i)).core, id) <==> OwedByQueue(s.core, id) || (i == id && At(s, i, PlainReady))
  {
    var c, c' := s.core, Do(s, Insert(i)).core;
    var item := c'.queue[|c.queue|];
    QueueIds(s);
    assert c'.queue == c.queue + [item] && item in c'.queue && c'.worker == c.worker;
    assert item.id == i && (item.Lazy() <==> At(s, i, LazyReady));
    assert c.worker != Replied(item) by {
      if c.worker.Replied? {
        assert c.worker.item in c.inserted;
      }
    }
    forall other | other in c'.queue ensures other in c.queue || other == item {
    }
  }

  lemma {:induction false} OwedOnReply(s: State, id: nat)
    requires Inv(s) && Enabled(s, Reply)
    ensures OwedByQueue(Do(s, Reply).core, id) <==> OwedByQueue(s.core, id) && s.core.worker.item.id != id
  {
    QueueIds(s);
  }

  lemma {:induction false} OwedOnRemove(s: State, id: nat)
    requires Inv(s) && Enabled(s, Remove)
    ensures OwedByQueue(Do(s, Remove).core, id) <==> OwedByQueue(s.core, id)
  {
    var c, c' := s.core, Do(s, Remove).core;
    QueueIds(s);
    assert c'.queue == c.queue[1..] && c.worker == Replied(c.queue[0]);
    forall item ensures item in c.queue <==> item == c.queue[0] || item in c'.queue {
      assert c.queue == [c.queue[0]] + c'.queue;
    }
  }

  lemma {:induction false} OwedByQueueStep(s: State, step: Step, id: nat)
    requires Inv(s) && Enabled(s, step)
    ensures OwedByQueue(Do(s, step).core, id) <==>
            match step
            case Insert(i) => OwedByQueue(s.core, id) || (i == id && At(s, i, PlainReady))
            case Reply => OwedByQueue(s.core, id) && s.core.worker.item.id != id
            case _ => OwedByQueue(s.core, id)
  {
    match step {
      case Insert(i) => OwedOnInsert(s, i, id);
      case Reply => OwedOnReply(s, id);
      case Remove => OwedOnRemove(s, id);
      case _ =>
    }
  }

  lemma {:induction false} CompletedOnceStep(s: State, step: Step)
    requires Inv(s) && KindsInv(s) && CompletedOnce(s) && Enabled(s, step)
    ensures CompletedOnce(Do(s, step))
  {
    var s' := Do(s, step);
    QueueIds(s);
    forall id: nat
      ensures s'.callers.completed[id] ==
              if id < s'.callers.nextId && !OwedByThread(s', id) && !OwedByQueue(s'.core, id) then 1 else 0
    {
      OwedByThreadStep(s, step, id);
      OwedByQueueStep(s, step, id);
    }
  }

  lemma {:induction false} CompletionAlong(run: Run, n: nat)
    requires ValidFromInit(run) && n < |run.states|
    ensures KindsInv(run.states[n]) && CompletedOnce(run.states[n])
  {
    if n > 0 {
      CompletionAlong(run, n - 1);
      InvEverywhere(run, n - 1);
      assert run.Taken(n - 1);
      KindsInvStep(run.states[n - 1], run.steps[n - 1]);
      CompletedOnceStep(run.states[n - 1], run.steps[n - 1]);
    }
  }

  /** In every state of every run: no request is completed twice, a request still owed by
      its thread or by the queue has not been completed, and one owed by neither has. */
  lemma {:induction false} ExactlyOnce(run: Run, n: nat, id: nat)
    requires ValidFromInit(run) && n < |run.states| && id < run.states[n].callers.nextId
    ensures run.states[n].callers.completed[id] ==
            if OwedByThread(run.states[n], id) || OwedByQueue(run.states[n].core, id) then 0 else 1
    ensures !(OwedByThread(run.states[n], id) && OwedByQueue(run.states[n].core, id))
  {
    CompletionAlong(run, n);
    InvEverywhere(run, n);
    QueueIds(run.states[n]);
  }
}
