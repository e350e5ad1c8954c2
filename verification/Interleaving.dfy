/** What the other threads may do between two accesses of one thread, and what they leave
    alone. */
module Interleaving {
  import opened Accounting
  import opened Completion
  import opened Durability
  import opened Ordering
  import opened Protocol
  import opened Shutdown
  import opened Views

  /** All that is known of every reachable state. */
  ghost predicate Good(s: State) {
    Inv(s) && CountersInv(s) && LocksInv(s) && KindsInv(s) && CompletedOnce(s) && WakeInv(s) && SeenInv(s)
  }

  lemma {:induction false} GoodInit(s: State)
    requires Init(s)
    ensures Good(s)
  {
    InvInit(s);
    assert Carrying(map[]) == {};
  }

  lemma {:induction false} GoodStep(s: State, step: Step)
    requires Good(s) && Enabled(s, step)
    ensures Good(Do(s, step))
  {
    InvStep(s, step);
    CountersInvStep(s, step);
    LocksInvStep(s, step);
    KindsInvStep(s, step);
    CompletedOnceStep(s, step);
    WakeInvStep(s, step);
    SeenInvStep(s, step);
  }

  lemma {:induction false} GoodAlong(run: Run, j: nat, k: nat)
    requires run.Valid() && j <= k < |run.states| && Good(run.states[j])
    ensures Good(run.states[k])
  {
    if j < k {
      GoodAlong(run, j, k - 1);
      assert run.Taken(k - 1);
      GoodStep(run.states[k - 1], run.steps[k - 1]);
    }
  }

  lemma {:induction false} GoodEverywhere(run: Run, k: nat)
    requires ValidFromInit(run) && k < |run.states|
    ensures Good(run.states[k])
  {
    GoodInit(run.First());
    GoodAlong(run, 0, k);
  }

  ghost predicate Reaches(a: State, b: State) {
    exists run: Run :: run.Valid() && run.First() == a && run.Last() == b
  }

  lemma {:induction false} ReachesItself(a: State)
    ensures Reaches(a, a)
  {
    assert Run([a], []).Valid() && Run([a], []).First() == a && Run([a], []).Last() == a;
  }

  lemma {:induction false} ReachesByStep(a: State, step: Step)
    requires Enabled(a, step)
    ensures Reaches(a, Do(a, step))
  {
    var run := Run([a], []);
    ExtendValid(run, step);
    assert Extend(run, step).Valid();
  }

  lemma {:induction false} ReachesOn(a: State, b: State, c: State)
    requires Reaches(a, b) && Reaches(b, c)
    ensures Reaches(a, c)
  {
    var first: Run :| first.Valid() && first.First() == a && first.Last() == b;
    var second: Run :| second.Valid() && second.First() == b && second.Last() == c;
    JoinValid(first, second);
    assert Join(first, second).Valid();
  }

  datatype Actor = Caller(id: nat) | TheWorker | TheRemover

  /** Whose step it is. */
  predicate By(step: Step, me: Actor) {
    match me
    case Caller(id) => ByThread(step) && !step.Arrive? && step.id == id
    case TheWorker => ByWorker(step)
    case TheRemover => step in {ClearForRemoval, FlagShutdown, SignalShutdown}
  }

  /** What the others leave to `me`. */
  ghost predicate Unmoved(a: State, b: State, me: Actor) {
    && b.limits == a.limits
    && a.core.inserted <= b.core.inserted
    && match me
       case Caller(id) =>
         id < a.callers.nextId ==>
           && (id in b.callers.threads <==> id in a.callers.threads)
           && (id in a.callers.threads ==> b.callers.threads[id] == a.callers.threads[id])
           && id < b.callers.nextId
       case TheWorker =>
         b.core.worker == a.core.worker && b.core.removed == a.core.removed && a.core.landed <= b.core.landed
       case TheRemover => b.flags.remover == a.flags.remover
  }

  lemma {:induction false} UnmovedOn(a: State, b: State, c: State, me: Actor)
    requires Unmoved(a, b, me) && Unmoved(b, c, me)
    ensures Unmoved(a, c, me)
  {
  }

  lemma {:induction false} HistoryStays(s: State, step: Step)
    requires Enabled(s, step)
    ensures Do(s, step).limits == s.limits && s.core.inserted <= Do(s, step).core.inserted
  {
  }

  lemma {:induction false} OthersLeaveCaller(s: State, step: Step, id: nat)
    requires ThreadsInv(s.callers, s.limits.base) && Enabled(s, step) && !By(step, Caller(id)) && id < s.callers.nextId
    ensures var before, after := s.callers, Do(s, step).callers;
            && (id in after.threads <==> id in before.threads)
            && (id in before.threads ==> after.threads[id] == before.threads[id])
            && id < after.nextId
  {
    if !ByThread(step) {
      ThreadsFrame(s, step);
    }
  }

  lemma {:induction false} OthersLeaveWorker(s: State, step: Step)
    requires Enabled(s, step) && !ByWorker(step)
    ensures var before, after := s.core, Do(s, step).core;
            && after.worker == before.worker && after.removed == before.removed
            && before.landed <= after.landed
  {
  }

  lemma {:induction false} OthersLeave(s: State, step: Step, me: Actor)
    requires Inv(s) && Enabled(s, step) && !By(step, me)
    ensures Unmoved(s, Do(s, step), me)
  {
    HistoryStays(s, step);
    match me {
      case Caller(id) =>
        if id < s.callers.nextId {
          OthersLeaveCaller(s, step, id);
        }
      case TheWorker => OthersLeaveWorker(s, step);
      case TheRemover =>
    }
  }

  /** A whole run of the others. */
  lemma {:induction false} OthersLeaveAlong(run: Run, k: nat, me: Actor)
    requires run.Valid() && Good(run.First()) && k < |run.states|
    requires forall i :: 0 <= i < k ==> !By(run.steps[i], me)
    ensures Good(run.states[k]) && Unmoved(run.First(), run.states[k], me)
  {
    if k > 0 {
      OthersLeaveAlong(run, k - 1, me);
      assert run.Taken(k - 1);
      GoodStep(run.states[k - 1], run.steps[k - 1]);
      OthersLeave(run.states[k - 1], run.steps[k - 1], me);
      UnmovedOn(run.First(), run.states[k - 1], run.states[k], me);
    }
  }

  /** What `Interfere` may do: any run without a step of `me`. */
  ghost predicate OthersRan(a: State, b: State, me: Actor) {
    exists run: Run ::
      run.Valid() && run.First() == a && run.Last() == b && forall i :: 0 <= i < |run.steps| ==> !By(run.steps[i], me)
  }

  lemma {:induction false} OthersRanKeeps(a: State, b: State, me: Actor)
    requires Good(a) && OthersRan(a, b, me)
    ensures Good(b) && Reaches(a, b) && Unmoved(a, b, me)
  {
    var run: Run :| run.Valid() && run.First() == a && run.Last() == b && forall i :: 0 <= i < |run.steps| ==> !By(run.steps[i], me);
    OthersLeaveAlong(run, |run.states| - 1, me);
  }
}
