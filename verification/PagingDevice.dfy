/** QCacheDeviceUsageNotification as the code it is, with other notifications going on
    between any two of its accesses. */
module PagingDevice {
  import opened PagingPath

  ghost predicate Reaches(a: State, b: State) {
    exists run: Run :: run.Connected() && run.states[0] == a && run.states[|run.states| - 1] == b
  }

  lemma {:induction false} ReachesItself(a: State)
    ensures Reaches(a, a)
  {
    assert Run([a], []).Connected();
  }

  lemma {:induction false} ReachesFurther(a: State, b: State, step: Step)
    requires Reaches(a, b) && Enabled(b, step)
    ensures Reaches(a, Do(b, step))
  {
    var run: Run :| run.Connected() && run.states[0] == a && run.states[|run.states| - 1] == b;
    var longer := Run(run.states + [Do(b, step)], run.steps + [step]);
    forall i | 0 <= i < |longer.steps| ensures longer.Taken(i) {
      assert i < |run.steps| ==> run.Taken(i);
    }
    assert longer.Connected();
  }

  /** What other notifications leave to number `id`: while it waits, its own place; once
      it is past the event, everything the event protects. */
  ghost predicate Unmoved(a: State, b: State, id: nat) {
    id in a.notes ==>
      && id in b.notes && b.notes[id] == a.notes[id] && b.inrush == a.inrush
      && (!a.notes[id].Waiting? ==> b.count == a.count && b.pagable == a.pagable && !b.event)
  }

  lemma {:induction false} OthersLeave(s: State, step: Step, id: nat)
    requires Inv(s) && Enabled(s, step) && (step.Arrive? || step.id != id)
    ensures Unmoved(s, Do(s, step), id)
  {
  }

  /** A whole run of the others. */
  lemma {:induction false} OthersLeaveAlong(run: Run, k: nat, id: nat)
    requires run.Connected() && Inv(run.states[0]) && k < |run.states|
    requires forall i :: 0 <= i < k ==> run.steps[i].Arrive? || run.steps[i].id != id
    ensures Inv(run.states[k]) && Unmoved(run.states[0], run.states[k], id)
  {
    if k > 0 {
      OthersLeaveAlong(run, k - 1, id);
      assert run.Taken(k - 1);
      InvStep(run.states[k - 1], run.steps[k - 1]);
      OthersLeave(run.states[k - 1], run.steps[k - 1], id);
    }
  }

  class DeviceObject {
    var pagingPathCount: int
    var pagable: bool
    var event: bool
    const inrush: bool
    ghost var state: State

    ghost predicate Valid()
      reads this
    {
      && Inv(state)
      && state.count == pagingPathCount && state.pagable == pagable && state.event == event && state.inrush == inrush
    }

    constructor (needsInrush: bool)
      ensures Valid() && PagingPath.Init(state) && state.inrush == needsInrush
    {
      pagingPathCount, pagable, event, inrush := 0, true, true, needsInrush;
      state := State(0, true, needsInrush, true, map[], 0);
      new;
      assert Removals(map[]) == {};
    }

    /** Other notifications may make any number of steps; OthersLeaveAlong allows for them all. */
    method Interfere(ghost id: nat, ghost start: State)
      requires Valid() && Reaches(start, state)
      modifies this
      ensures Valid() && Reaches(start, state) && Unmoved(old(state), state, id)
    {
    }

    ghost method Advance(step: Step, start: State)
      requires Inv(state) && Enabled(state, step) && Reaches(start, state)
      modifies this`state
      ensures state == Do(old(state), step) && Inv(state) && Reaches(start, state)
    {
      InvStep(state, step);
      ReachesFurther(start, state, step);
      state := Do(state, step);
    }

    /** Removing the last paging file allows paging the driver out, unless it needs inrush power. */
    method PrepareFlag(ghost id: nat, inPath: bool, ghost start: State) returns (setPagable: bool)
      requires Valid() && Reaches(start, state) && id in state.notes && state.notes[id] == Inside(inPath)
      modifies this`state, this`pagable
      ensures Valid() && Reaches(start, state) && id in state.notes && state.notes[id] == Prepared(inPath, setPagable)
      ensures pagable == (old(pagable) || setPagable) && setPagable == (!inPath && pagingPathCount == 1 && !inrush)
    {
      setPagable := !inPath && pagingPathCount == 1 && !inrush;
      if setPagable {
        pagable := true;
      }
      Advance(Prepare(id), start);
    }

    /** The lower drivers have accepted: the count, then the flag for a first paging file. */
    method Accept(ghost id: nat, inPath: bool, ghost setPagable: bool, ghost start: State)
      requires Valid() && Reaches(start, state) && id in state.notes && state.notes[id] == Prepared(inPath, setPagable)
      modifies this
      ensures Valid() && Reaches(start, state) && id in state.notes && state.notes[id] == Ending(inPath)
      ensures pagingPathCount == old(pagingPathCount) + if inPath then 1 else -1
    {
      pagingPathCount := if inPath then pagingPathCount + 1 else pagingPathCount - 1;
      Advance(Forward(id, true), start);
      Interfere(id, start);
      if inPath && pagingPathCount == 1 {
        pagable := false;
      }
      Advance(ClearFlag(id), start);
    }

    /** The lower drivers have refused: the flag is put back. */
    method Undo(ghost id: nat, inPath: bool, setPagable: bool, ghost start: State)
      requires Valid() && Reaches(start, state) && id in state.notes && state.notes[id] == Prepared(inPath, setPagable)
      modifies this`state, this`pagable
      ensures Valid() && Reaches(start, state) && id in state.notes && state.notes[id] == Ending(inPath)
      ensures pagable == (old(pagable) && !setPagable)
    {
      if setPagable {
        pagable := false;
      }
      Advance(Forward(id, false), start);
    }

    /** Between the wait for the event and its being set again: the flag is prepared, the
        lower drivers answer, and count or flag follow. */
    method Adjust(ghost id: nat, inPath: bool, lowerSucceeds: bool, ghost start: State)
      requires Valid() && Reaches(start, state) && id in state.notes && state.notes[id] == Inside(inPath)
      modifies this
      ensures Valid() && Reaches(start, state) && id in state.notes && state.notes[id] == Ending(inPath)
      ensures pagingPathCount == old(pagingPathCount) + if !lowerSucceeds then 0 else if inPath then 1 else -1
      ensures !lowerSucceeds ==> pagable == old(pagable)
    {
      var setPagable := PrepareFlag(id, inPath, start);
      Interfere(id, start);
      if lowerSucceeds {
        Accept(id, inPath, setPagable, start);
      } else {
        Undo(id, inPath, setPagable, start);
      }
    }

    /** The notification from the moment its wait for the event is over until it sets the
        event: the count follows the outcome, the flag follows the count, and a refusal
        leaves both as they were. */
    method DeviceUsageNotification(ghost id: nat, inPath: bool, lowerSucceeds: bool)
      requires Valid() && event && id in state.notes && state.notes[id] == Waiting(inPath)
      modifies this
      ensures Valid() && Reaches(old(state), state) && event && id !in state.notes
      ensures pagingPathCount == old(pagingPathCount) + if !lowerSucceeds then 0 else if inPath then 1 else -1
      ensures pagable ==> pagingPathCount == 0
      ensures !inrush && pagingPathCount == 0 ==> pagable
      ensures !lowerSucceeds ==> pagable == old(pagable)
    {
      ghost var start := state;
      ReachesItself(state);
      event := false;
      Advance(Enter(id), start);
      Interfere(id, start);
      Adjust(id, inPath, lowerSucceeds, start);
      Interfere(id, start);
      event := true;
      Advance(Finish(id), start);
    }
  }
}
