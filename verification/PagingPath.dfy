/** QCacheDeviceUsageNotification: paging-file notifications, serialised by an auto-reset
    event, keep a count and the DO_POWER_PAGABLE flag in step. */
module PagingPath {

  /** One notification: waiting for the event, then inside, with the flag prepared, with
      the count adjusted, and about to set the event. */
  datatype Note =
    | Waiting(inPath: bool)
    | Inside(inPath: bool)
    | Prepared(inPath: bool, setPagable: bool)
    | Adjusted(inPath: bool)
    | Ending(inPath: bool)
  {
    /** A removal that may still lower the count. */
    predicate MayLower() { !inPath && (Waiting? || Inside? || Prepared?) }
  }

  datatype State = State(count: int, pagable: bool, inrush: bool, event: bool, notes: map<nat, Note>, nextId: nat)

  predicate Init(s: State) {
    s == State(0, true, s.inrush, true, map[], 0)
  }

  datatype Step =
    | Arrive(inPath: bool)
    | Enter(id: nat)
    | Prepare(id: nat)
    | Forward(id: nat, succeeds: bool)
    | ClearFlag(id: nat)
    | Finish(id: nat)

  function Removals(notes: map<nat, Note>): set<nat> {
    set id | id in notes && notes[id].MayLower()
  }

  /** The power manager removes only paging files it has added. */
  predicate Enabled(s: State, step: Step) {
    match step
    case Arrive(inPath) => inPath || |Removals(s.notes)| < s.count
    case Enter(id) => id in s.notes && s.notes[id].Waiting? && s.event
    case Prepare(id) => id in s.notes && s.notes[id].Inside?
    case Forward(id, _) => id in s.notes && s.notes[id].Prepared?
    case ClearFlag(id) => id in s.notes && s.notes[id].Adjusted?
    case Finish(id) => id in s.notes && s.notes[id].Ending?
  }

  function Arrived(s: State, inPath: bool): State {
    s.(notes := s.notes[s.nextId := Waiting(inPath)], nextId := s.nextId + 1)
  }

  function Do(s: State, step: Step): State
    requires Enabled(s, step)
  {
    match step
    case Arrive(inPath) => Arrived(s, inPath)
    case Enter(id) => s.(event := false, notes := s.notes[id := Inside(s.notes[id].inPath)])
    case Prepare(id) =>
      var inPath := s.notes[id].inPath;
      var setPagable := !inPath && s.count == 1 && !s.inrush;
      s.(pagable := s.pagable || setPagable, notes := s.notes[id := Prepared(inPath, setPagable)])
    case Forward(id, succeeds) =>
      var note := s.notes[id];
      if succeeds then
        s.(count := if note.inPath then s.count + 1 else s.count - 1, notes := s.notes[id := Adjusted(note.inPath)])
      else
        s.(pagable := s.pagable && !note.setPagable, notes := s.notes[id := Ending(note.inPath)])
    case ClearFlag(id) =>
      var inPath := s.notes[id].inPath;
      s.(pagable := s.pagable && !(inPath && s.count == 1), notes := s.notes[id := Ending(inPath)])
    case Finish(id) => s.(event := true, notes := s.notes - {id})
  }

  /** The flag is set only without paging files, and always then unless the device needs inrush power. */
  predicate FlagFits(s: State) {
    && (s.pagable ==> s.count == 0)
    && (!s.inrush && s.count == 0 ==> s.pagable)
  }

  /** What holds of count and flag while a notification stands at `note`. */
  predicate FlagInv(s: State, note: Note) {
    match note
    case Waiting(_) => true
    case Inside(_) => FlagFits(s)
    case Prepared(inPath, setPagable) =>
      if setPagable then s.pagable && s.count == 1 && !inPath && !s.inrush
      else FlagFits(s) && (!inPath && s.count == 1 ==> s.inrush)
    case Adjusted(inPath) => if inPath && s.count == 1 then true else FlagFits(s)
    case Ending(_) => FlagFits(s)
  }

  /** Every removal on its way is covered by the count. */
  ghost predicate CountInv(s: State) {
    && |Removals(s.notes)| <= s.count
    && (forall id :: id in s.notes ==> id < s.nextId)
  }

  /** The event is signalled exactly if nobody is past it, and nobody else gets in meanwhile. */
  ghost predicate EventInv(s: State) {
    && (s.event <==> forall id :: id in s.notes ==> s.notes[id].Waiting?)
    && (forall a, b :: a in s.notes && b in s.notes && !s.notes[a].Waiting? && !s.notes[b].Waiting? ==> a == b)
  }

  ghost predicate FlagsInv(s: State) {
    && (s.event ==> FlagFits(s))
    && (forall id :: id in s.notes ==> FlagInv(s, s.notes[id]))
  }

  ghost predicate Inv(s: State) {
    CountInv(s) && EventInv(s) && FlagsInv(s)
  }

  lemma {:induction false} RemovalsStep(s: State, step: Step)
    requires CountInv(s) && Enabled(s, step)
    ensures var before, after := Removals(s.notes), Removals(Do(s, step).notes);
            match step
            case Arrive(inPath) => s.nextId !in before && after == if inPath then before else before + {s.nextId}
            case Forward(id, _) => if s.notes[id].inPath then after == before else id in before && after == before - {id}
            case _ => after == before
  {
  }

  lemma {:induction false} CountInvStep(s: State, step: Step)
    requires CountInv(s) && Enabled(s, step)
    ensures CountInv(Do(s, step))
  {
    RemovalsStep(s, step);
  }

  lemma {:induction false} EventInvStep(s: State, step: Step)
    requires CountInv(s) && EventInv(s) && Enabled(s, step)
    ensures EventInv(Do(s, step))
  {
    var s' := Do(s, step);
    if !s.event {
      var holder :| holder in s.notes && !s.notes[holder].Waiting?;
      assert step == Finish(holder) || (holder in s'.notes && !s'.notes[holder].Waiting?);
    }
    if step.Enter? {
      assert step.id in s'.notes && !s'.notes[step.id].Waiting?;
    }
  }

  /** The party inside moves from one stage to the next. */
  lemma {:induction false} FlagInvOfStep(s: State, step: Step)
    requires Inv(s) && Enabled(s, step) && !step.Arrive? && !step.Finish?
    ensures FlagInv(Do(s, step), Do(s, step).notes[step.id])
  {
    if step.Prepare? || step.Forward? {
      assert !s.notes[step.id].inPath ==> step.id in Removals(s.notes);
    }
  }

  lemma {:induction false} FlagsInvStep(s: State, step: Step)
    requires Inv(s) && Enabled(s, step)
    ensures FlagsInv(Do(s, step))
  {
    var s' := Do(s, step);
    EventInvStep(s, step);
    if !step.Arrive? && !step.Finish? {
      FlagInvOfStep(s, step);
      assert !s.notes[step.id].Waiting? || step.Enter?;
    }
    forall id | id in s'.notes ensures FlagInv(s', s'.notes[id]) {
      if !s'.notes[id].Waiting? && !step.Arrive? && !step.Finish? {
        assert id == step.id;
      }
    }
  }

  lemma {:induction false} InvStep(s: State, step: Step)
    requires Inv(s) && Enabled(s, step)
    ensures Inv(Do(s, step))
  {
    CountInvStep(s, step);
    EventInvStep(s, step);
    FlagsInvStep(s, step);
  }

  datatype Run = Run(states: seq<State>, steps: seq<Step>) {
    ghost predicate Taken(i: nat)
      requires i < |steps| && |states| == |steps| + 1
    {
      Enabled(states[i], steps[i]) && states[i + 1] == Do(states[i], steps[i])
    }

    ghost predicate Connected() {
      && |states| == |steps| + 1
      && forall i :: 0 <= i < |steps| ==> Taken(i)
    }

    ghost predicate Valid() { Connected() && Init(states[0]) }
  }

  lemma {:induction false} InvEverywhere(run: Run, k: nat)
    requires run.Valid() && k < |run.states|
    ensures Inv(run.states[k])
  {
    if k > 0 {
      InvEverywhere(run, k - 1);
      assert run.Taken(k - 1);
      InvStep(run.states[k - 1], run.steps[k - 1]);
    } else {
      assert Removals(map[]) == {};
    }
  }

  /** In every state of every run, lower-driver failures included: at most one notification
      is past the event, none while the event is signalled, and then the flag fits the count. */
  lemma {:induction false} FlagFollowsCount(run: Run, k: nat)
    requires run.Valid() && k < |run.states|
    ensures var s := run.states[k];
            && s.count >= 0
            && (forall a, b :: a in s.notes && b in s.notes && !s.notes[a].Waiting? && !s.notes[b].Waiting? ==> a == b)
            && (s.event <==> forall id :: id in s.notes ==> s.notes[id].Waiting?)
            && (s.event ==> FlagFits(s))
  {
    InvEverywhere(run, k);
  }

  /** A removal that the lower drivers accept, from the end of its wait for the event on. */
  function AfterRemoval(s: State, id: nat): State
    requires s.event && id in s.notes && s.notes[id] == Waiting(false)
  {
    var inside := Do(s, Enter(id));
    var prepared := Do(inside, Prepare(id));
    var adjusted := Do(prepared, Forward(id, true));
    var ending := Do(adjusted, ClearFlag(id));
    Do(ending, Finish(id))
  }

  /** What a removal does that nobody has announced an addition for: count and flag stay in
      step if and only if there still was a paging file, or the flag was off anyway. */
  lemma {:induction false} UnmatchedRemoval(s: State, id: nat)
    requires s.event && id in s.notes && s.notes[id] == Waiting(false) && FlagFits(s) && s.count >= 0
    ensures FlagFits(AfterRemoval(s, id)) <==> s.count > 0 || !s.pagable
    ensures AfterRemoval(s, id).count == s.count - 1
  {
  }

  /** On a new device such a removal leaves a count below zero and the flag set. */
  lemma {:induction false} RemovalOnNewDevice(s: State)
    requires Init(s)
    ensures var end := AfterRemoval(Arrived(s, false), 0);
            end.count == -1 && end.pagable && end.event && !FlagFits(end)
  {
    UnmatchedRemoval(Arrived(s, false), 0);
  }
}
