/** SCATTERED_IRP as the object it is, with its completion routine and the gap loop that
    uses it.  Between any two accesses other parties may run (`Interfere`); the ghost
    field is the state of the protocol, which every method only moves along its steps. */
module ScatterObject {
  import opened Scatter

  datatype Party = TheIssuer | TheLower(i: nat)

  /** Whose step it is. */
  predicate By(step: Step, me: Party) {
    match me
    case TheIssuer => step in {Build, FailBuild, Send, DropIssuer, DestroyIssuer}
    case TheLower(i) => (step.Record? || step.Drop? || step.Destroy?) && step.i == i
  }

  /** What the others leave to `me`. */
  ghost predicate Unmoved(a: State, b: State, me: Party) {
    && b.wanted == a.wanted
    && match me
       case TheIssuer => b.issuer == a.issuer && |b.lower| == |a.lower| && b.buildFailed == a.buildFailed
       case TheLower(i) => i < |a.lower| && a.lower[i] != Built ==> i < |b.lower| && b.lower[i] == a.lower[i]
  }

  /** Any run without a step of `me`. */
  ghost predicate OthersRan(a: State, b: State, me: Party) {
    exists run: Run ::
      && run.Valid() && run.states[0] == a && run.states[|run.states| - 1] == b
      && forall i :: 0 <= i < |run.steps| ==> !By(run.steps[i], me)
  }

  lemma {:induction false} OthersLeave(s: State, step: Step, me: Party)
    requires Inv(s) && Enabled(s, step) && !By(step, me)
    ensures Unmoved(s, Do(s, step), me)
  {
  }

  lemma {:induction false} OthersLeaveAlong(run: Run, k: nat, me: Party)
    requires run.Valid() && Inv(run.states[0]) && k < |run.states|
    requires forall i :: 0 <= i < k ==> !By(run.steps[i], me)
    ensures Inv(run.states[k]) && Unmoved(run.states[0], run.states[k], me)
  {
    if k > 0 {
      OthersLeaveAlong(run, k - 1, me);
      assert run.Taken(k - 1);
      InvStep(run.states[k - 1], run.steps[k - 1]);
      OthersLeave(run.states[k - 1], run.steps[k - 1], me);
    }
  }

  lemma {:induction false} OthersRanKeeps(a: State, b: State, me: Party)
    requires Inv(a) && OthersRan(a, b, me)
    ensures Inv(b) && Reaches(a, b) && Unmoved(a, b, me)
  {
    var run: Run :| run.Valid() && run.states[0] == a && run.states[|run.states| - 1] == b
                    && forall i :: 0 <= i < |run.steps| ==> !By(run.steps[i], me);
    OthersLeaveAlong(run, |run.states| - 1, me);
  }

  ghost predicate Reaches(a: State, b: State) {
    exists run: Run :: run.Valid() && run.states[0] == a && run.states[|run.states| - 1] == b
  }

  lemma {:induction false} ReachesItself(a: State)
    ensures Reaches(a, a)
  {
    assert Run([a], []).Valid();
  }

  lemma {:induction false} ReachesFurther(a: State, b: State, step: Step)
    requires Reaches(a, b) && Enabled(b, step)
    ensures Reaches(a, Do(b, step))
  {
    var run: Run :| run.Valid() && run.states[0] == a && run.states[|run.states| - 1] == b;
    var longer := Take(run, step);
    assert longer.Valid();
  }

  lemma {:induction false} ReachesOn(a: State, b: State, c: State)
    requires Reaches(a, b) && Reaches(b, c)
    ensures Reaches(a, c)
  {
    var first: Run :| first.Valid() && first.states[0] == a && first.states[|first.states| - 1] == b;
    var second: Run :| second.Valid() && second.states[0] == b && second.states[|second.states| - 1] == c;
    var both := Run(first.states + second.states[1..], first.steps + second.steps);
    forall i | 0 <= i < |both.steps| ensures both.Taken(i) {
      if i < |first.steps| {
        assert first.Taken(i);
      } else {
        assert second.Taken(i - |first.steps|);
      }
    }
    assert both.Valid();
  }

  class ScatteredIrp {
    var scatterCount: int
    var lastFailedStatus: int
    var bytesCompleted: int
    ghost var state: State

    /** The fields are those of the protocol state, as long as the object exists. */
    ghost predicate Valid()
      reads this
    {
      Inv(state) && (!state.deleted ==> state.fields == Fields(scatterCount, lastFailedStatus, bytesCompleted))
    }

    constructor Create(wanted: nat)
      requires wanted > 0
      ensures Valid() && Init(state) && state.wanted == wanted
    {
      scatterCount, lastFailedStatus, bytesCompleted := 1, STATUS_SUCCESS, 0;
      state := State(wanted, Looping, [], Fields(1, STATUS_SUCCESS, 0), false, false, []);
      new;
      InvInit(state);
    }

    /** Any other party may make any number of steps here. */
    method Interfere(ghost me: Party)
      requires Valid()
      modifies this
      ensures Valid() && OthersRan(old(state), state, me)
      ensures Reaches(old(state), state) && Unmoved(old(state), state, me)
    {
      assert Run([state], []).Valid();
      OthersRanKeeps(state, state, me);
    }

    ghost method Advance(step: Step)
      requires Inv(state) && Enabled(state, step)
      modifies this`state
      ensures state == Do(old(state), step) && Inv(state) && Reaches(old(state), state)
    {
      ReachesItself(state);
      ReachesFurther(state, state, step);
      InvStep(state, step);
      state := Do(state, step);
    }

    /** BuildIrp: takes a reference for the lower request, or records the failure. */
    method BuildIrp(granted: bool) returns (built: bool)
      requires Valid() && state.issuer == Looping
      modifies this
      ensures Valid() && built == granted && state == Do(old(state), if built then Build else FailBuild)
      ensures Reaches(old(state), state)
    {
      NeverTouchedAfterDeletion(state, FailBuild);
      if !granted {
        lastFailedStatus := STATUS_INSUFFICIENT_RESOURCES;
        Advance(FailBuild);
        return false;
      }
      scatterCount := scatterCount + 1;
      Advance(Build);
      return true;
    }

    /** Complete: drops one reference; whoever drops the last one destroys the object,
        which completes the original request. */
    method Complete(ghost me: Party)
      requires Valid()
      requires match me case TheIssuer => state.issuer == Leaving case TheLower(i) => i < |state.lower| && state.lower[i].Recorded?
      modifies this
      ensures Valid() && Reaches(old(state), state)
      ensures match me
              case TheIssuer => state.issuer == Through && |state.lower| == |old(state).lower| && state.buildFailed == old(state).buildFailed
              case TheLower(i) => i < |state.lower| && state.lower[i] == Over(old(state).lower[i].status, old(state).lower[i].information)
    {
      ghost var before := state;
      ghost var drop := if me == TheIssuer then DropIssuer else Drop(me.i);
      NeverTouchedAfterDeletion(state, drop);
      scatterCount := scatterCount - 1;
      var scatterItems := scatterCount;
      Advance(drop);
      if scatterItems == 0 {
        ghost var dropped := state;
        Interfere(me);
        ReachesOn(before, dropped, state);
        ghost var alive := state;
        Advance(if me == TheIssuer then DestroyIssuer else Destroy(me.i));
        ReachesOn(before, alive, state);
      }
    }

    /** IrpCompletionRoutine of the i-th lower request. */
    method IrpCompletionRoutine(ghost i: nat, status: int, information: nat)
      requires Valid() && i < |state.lower| && state.lower[i].Sent?
      modifies this
      ensures Valid() && Reaches(old(state), state)
      ensures i < |state.lower| && state.lower[i] == Over(status, information)
    {
      ghost var before := state;
      NeverTouchedAfterDeletion(state, Record(i, status, information));
      if NtSuccess(status) {
        bytesCompleted := bytesCompleted + information;
      } else {
        lastFailedStatus := status;
      }
      Advance(Record(i, status, information));
      ghost var recorded := state;
      Interfere(TheLower(i));
      ReachesOn(before, recorded, state);
      ghost var later := state;
      Complete(TheLower(i));
      ReachesOn(before, later, state);
    }

    /** The gap loop of QCacheRead: one request for each gap until one cannot be built,
        then the issuer's own reference.  Lower requests complete meanwhile, or inside
        IoCallDriver. */
    method Issue(gaps: nat, builds: nat)
      requires Valid() && Init(state) && state.wanted == gaps
      modifies this
      ensures Valid() && Reaches(old(state), state) && state.issuer == Through
      ensures |state.lower| == if builds < gaps then builds else gaps
      ensures state.buildFailed <==> builds < gaps
    {
      ghost var before := state;
      var splits := 0;
      ReachesItself(state);
      while true
        invariant Valid() && Reaches(before, state) && state.wanted == gaps
        invariant state.issuer == Looping && splits == |state.lower| && splits <= builds
        decreases gaps - splits
      {
        ghost var here := state;
        var built := BuildIrp(splits < builds);
        ReachesOn(before, here, state);
        if !built {
          break;
        }
        here := state;
        Interfere(TheIssuer);
        ReachesOn(before, here, state);
        here := state;
        Advance(Send);
        ReachesOn(before, here, state);
        here := state;
        Interfere(TheIssuer);
        ReachesOn(before, here, state);
        splits := splits + 1;
        if splits == gaps {
          break;
        }
      }
      ghost var here := state;
      Interfere(TheIssuer);
      ReachesOn(before, here, state);
      here := state;
      Complete(TheIssuer);
      ReachesOn(before, here, state);
    }
  }
}
