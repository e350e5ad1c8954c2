/** SCATTERED_IRP: one read split into several lower requests, whose completion routines
    run at any time and in any order, and race with the issuing thread on a reference
    count.  Every interlocked access is one step. */
module Scatter {

  const STATUS_SUCCESS: int := 0
  const STATUS_INSUFFICIENT_RESOURCES: int := 0xC000009A - 0x1_0000_0000
  const STATUS_IO_DEVICE_ERROR: int := 0xC0000185 - 0x1_0000_0000

  predicate NtSuccess(status: int) { status >= 0 }

  /** One lower request: built, sent, its result recorded, and its reference dropped.
      `Last` is one whose drop brought the count to zero. */
  datatype Lower =
    | Built
    | Sent
    | Recorded(status: int, information: nat)
    | Last(status: int, information: nat)
    | Over(status: int, information: nat)
  {
    predicate Done() { !Built? && !Sent? }
  }

  /** The thread that runs QCacheRead: in the gap loop, between building and sending a
      request, out of the loop, destroying the object, or through. */
  datatype Issuer = Looping | Calling | Leaving | Destroying | Through

  /** The interlocked fields. */
  datatype Fields = Fields(scatterCount: int, lastFailedStatus: int, bytesCompleted: int)

  datatype State = State(
    wanted: nat, issuer: Issuer, lower: seq<Lower>, fields: Fields,
    buildFailed: bool, deleted: bool,
    replies: seq<(int, int)>)             // completions of the original request: status, information

  predicate Init(s: State) {
    s == State(s.wanted, Looping, [], Fields(1, STATUS_SUCCESS, 0), false, false, []) && s.wanted > 0
  }

  datatype Step =
    | Build
    | FailBuild
    | Send
    | Record(i: nat, status: int, information: nat)
    | Drop(i: nat)
    | DropIssuer
    | Destroy(i: nat)
    | DestroyIssuer

  predicate Enabled(s: State, step: Step) {
    match step
    case Build => s.issuer == Looping
    case FailBuild => s.issuer == Looping
    case Send => s.issuer == Calling && s.lower != []
    case Record(i, _, _) => i < |s.lower| && s.lower[i].Sent?
    case Drop(i) => i < |s.lower| && s.lower[i].Recorded?
    case DropIssuer => s.issuer == Leaving
    case Destroy(i) => i < |s.lower| && s.lower[i].Last?
    case DestroyIssuer => s.issuer == Destroying
  }

  /** Does the step read or write the object? */
  predicate Touches(step: Step) { step != Send }

  /** The destructor: what the original request is completed with. */
  function Reply(f: Fields): (int, int) {
    (f.lastFailedStatus, if NtSuccess(f.lastFailedStatus) then f.bytesCompleted else 0)
  }

  function Accumulate(f: Fields, status: int, information: nat): Fields {
    if NtSuccess(status) then f.(bytesCompleted := f.bytesCompleted + information) else f.(lastFailedStatus := status)
  }

  function Do(s: State, step: Step): State
    requires Enabled(s, step)
  {
    match step
    case Build => s.(issuer := Calling, lower := s.lower + [Built], fields := s.fields.(scatterCount := s.fields.scatterCount + 1))
    case FailBuild =>
      s.(issuer := Leaving, buildFailed := true, fields := s.fields.(lastFailedStatus := STATUS_INSUFFICIENT_RESOURCES))
    case Send =>
      s.(issuer := if |s.lower| < s.wanted then Looping else Leaving, lower := s.lower[|s.lower| - 1 := Sent])
    case Record(i, status, information) =>
      s.(lower := s.lower[i := Recorded(status, information)], fields := Accumulate(s.fields, status, information))
    case Drop(i) =>
      var count := s.fields.scatterCount - 1;
      var l := s.lower[i];
      s.(fields := s.fields.(scatterCount := count),
      lower := s.lower[i := if count == 0 then Last(l.status, l.information) else Over(l.status, l.information)])
    case DropIssuer =>
      var count := s.fields.scatterCount - 1;
      s.(fields := s.fields.(scatterCount := count), issuer := if count == 0 then Destroying else Through)
    case Destroy(i) =>
      s.(lower := s.lower[i := Over(s.lower[i].status, s.lower[i].information)], deleted := true, replies := s.replies + [Reply(s.fields)])
    case DestroyIssuer => s.(issuer := Through, deleted := true, replies := s.replies + [Reply(s.fields)])
  }

  // Sums over the lower requests.

  function Sum(f: Lower -> int, s: seq<Lower>): int {
    if s == [] then 0 else Sum(f, s[..|s| - 1]) + f(s[|s| - 1])
  }

  lemma {:induction false} SumAppend(f: Lower -> int, s: seq<Lower>, x: Lower)
    ensures Sum(f, s + [x]) == Sum(f, s) + f(x)
  {
    assert (s + [x])[..|s|] == s;
  }

  lemma {:induction false} SumUpdate(f: Lower -> int, s: seq<Lower>, i: nat, x: Lower)
    requires i < |s|
    ensures Sum(f, s[i := x]) == Sum(f, s) - f(s[i]) + f(x)
  {
    var n := |s| - 1;
    if i == n {
      assert s[i := x][..n] == s[..n];
    } else {
      SumUpdate(f, s[..n], i, x);
      assert s[i := x][..n] == s[..n][i := x];
    }
  }

  lemma {:induction false} SumNonNegative(f: Lower -> int, s: seq<Lower>, i: nat)
    requires i < |s| && forall l :: f(l) >= 0
    ensures Sum(f, s) >= f(s[i])
  {
    var n := |s| - 1;
    if i < n {
      SumNonNegative(f, s[..n], i);
    } else if n > 0 {
      SumNonNegative(f, s[..n], 0);
    }
  }

  function HoldsReference(l: Lower): int { if l.Built? || l.Sent? || l.Recorded? then 1 else 0 }

  function IsLast(l: Lower): int { if l.Last? then 1 else 0 }

  /** Bytes a lower request contributes to the count. */
  function Contributes(l: Lower): int { if l.Done() && l.status >= 0 then l.information else 0 }

  predicate InLoop(issuer: Issuer) { issuer in {Looping, Calling, Leaving} }

  predicate Failed(s: State) {
    s.buildFailed || exists l :: l in s.lower && l.Done() && l.status < 0
  }

  /** `status` is one of the failures seen so far. */
  predicate AFailure(s: State, status: int) {
    || (s.buildFailed && status == STATUS_INSUFFICIENT_RESOURCES)
    || exists l :: l in s.lower && l.Done() && l.status < 0 && l.status == status
  }

  /** The count is the number of references. */
  ghost predicate RefsInv(s: State) {
    && s.fields.scatterCount >= 0
    && s.fields.scatterCount == Sum(HoldsReference, s.lower) + (if InLoop(s.issuer) then 1 else 0)
  }

  /** Exactly one party finds the count at zero, and it completes the original request. */
  ghost predicate EndInv(s: State) {
    && Sum(IsLast, s.lower) + (if s.issuer == Destroying then 1 else 0) + |s.replies|
       == (if s.fields.scatterCount == 0 then 1 else 0)
    && (s.deleted <==> s.replies != [])
  }

  /** Only the newest request can be built and not sent, while the issuer is sending it. */
  ghost predicate SendInv(s: State) {
    && (s.issuer == Calling ==> s.lower != [] && s.lower[|s.lower| - 1] == Built)
    && (forall i :: 0 <= i < |s.lower| && s.lower[i] == Built ==> s.issuer == Calling && i == |s.lower| - 1)
  }

  ghost predicate CountInv(s: State) {
    RefsInv(s) && EndInv(s) && SendInv(s)
  }

  ghost predicate BytesInv(s: State) {
    s.fields.bytesCompleted == Sum(Contributes, s.lower)
  }

  ghost predicate StatusInv(s: State) {
    if Failed(s) then s.fields.lastFailedStatus < 0 && AFailure(s, s.fields.lastFailedStatus)
    else s.fields.lastFailedStatus == STATUS_SUCCESS
  }

  ghost predicate ReplyInv(s: State) {
    s.replies != [] ==> s.replies[0] == Reply(s.fields)
  }

  /** The loop is left once every wanted request has been built, or one could not be. */
  ghost predicate LoopInv(s: State) {
    match s.issuer
    case Looping => !s.buildFailed && |s.lower| < s.wanted
    case Calling => !s.buildFailed && |s.lower| <= s.wanted
    case _ => if s.buildFailed then |s.lower| < s.wanted else |s.lower| == s.wanted
  }

  ghost predicate Inv(s: State) {
    CountInv(s) && BytesInv(s) && StatusInv(s) && ReplyInv(s) && LoopInv(s)
  }

  /** With the count at zero nobody holds a reference any more. */
  lemma {:induction false} ZeroMeansAllDone(s: State)
    requires CountInv(s) && s.fields.scatterCount == 0
    ensures !InLoop(s.issuer) && forall i :: 0 <= i < |s.lower| ==> s.lower[i].Last? || s.lower[i].Over?
  {
    forall i | 0 <= i < |s.lower| ensures s.lower[i].Last? || s.lower[i].Over? {
      SumNonNegative(HoldsReference, s.lower, i);
    }
    if s.lower != [] {
      SumNonNegative(HoldsReference, s.lower, 0);
    }
  }

  /** The object is alive whenever some party is about to touch it. */
  lemma {:induction false} NeverTouchedAfterDeletion(s: State, step: Step)
    requires CountInv(s) && Enabled(s, step) && Touches(step)
    ensures !s.deleted
    ensures !step.Destroy? && !step.DestroyIssuer? ==> s.fields.scatterCount > 0
  {
    if s.lower != [] {
      SumNonNegative(HoldsReference, s.lower, 0);
      SumNonNegative(IsLast, s.lower, 0);
    }
    match step {
      case Record(i, _, _) => SumNonNegative(HoldsReference, s.lower, i);
      case Drop(i) => SumNonNegative(HoldsReference, s.lower, i);
      case Destroy(i) => SumNonNegative(IsLast, s.lower, i);
      case _ =>
    }
  }

  /** Which lower request a step changes, if any. */
  function Changed(s: State, step: Step): nat {
    match step
    case Send => if s.lower == [] then 0 else |s.lower| - 1
    case Record(i, _, _) => i
    case Drop(i) => i
    case Destroy(i) => i
    case _ => 0
  }

  lemma {:induction false} SumStep(f: Lower -> int, s: State, step: Step)
    requires Enabled(s, step)
    ensures var i, lower' := Changed(s, step), Do(s, step).lower;
            Sum(f, lower') ==
            match step
            case Build => Sum(f, s.lower) + f(Built)
            case Send => Sum(f, s.lower) - f(s.lower[i]) + f(lower'[i])
            case Record(_, _, _) => Sum(f, s.lower) - f(s.lower[i]) + f(lower'[i])
            case Drop(_) => Sum(f, s.lower) - f(s.lower[i]) + f(lower'[i])
            case Destroy(_) => Sum(f, s.lower) - f(s.lower[i]) + f(lower'[i])
            case _ => Sum(f, s.lower)
  {
    var i, lower' := Changed(s, step), Do(s, step).lower;
    match step {
      case Build => SumAppend(f, s.lower, Built);
      case FailBuild =>
      case DropIssuer =>
      case DestroyIssuer =>
      case _ =>
        SumUpdate(f, s.lower, i, lower'[i]);
        assert lower' == s.lower[i := lower'[i]];
    }
  }

  lemma {:induction false} CountInvStep(s: State, step: Step)
    requires CountInv(s) && Enabled(s, step)
    ensures CountInv(Do(s, step))
  {
    if Touches(step) {
      NeverTouchedAfterDeletion(s, step);
    }
    SumStep(HoldsReference, s, step);
    SumStep(IsLast, s, step);
  }

  lemma {:induction false} BytesInvStep(s: State, step: Step)
    requires SendInv(s) && BytesInv(s) && Enabled(s, step)
    ensures BytesInv(Do(s, step))
  {
    SumStep(Contributes, s, step);
  }

  /** A recorded result stays recorded. */
  lemma {:induction false} DoneStays(s: State, step: Step, l: Lower)
    requires SendInv(s) && Enabled(s, step) && l in s.lower && l.Done()
    ensures exists l' :: l' in Do(s, step).lower && l'.Done() && l'.status == l.status
  {
    var k :| 0 <= k < |s.lower| && s.lower[k] == l;
    var l' := Do(s, step).lower[k];
    assert l' in Do(s, step).lower && l'.Done() && l'.status == l.status;
  }

  /** Results are recorded by Record alone. */
  lemma {:induction false} DoneCameFrom(s: State, step: Step, l': Lower)
    requires SendInv(s) && Enabled(s, step) && l' in Do(s, step).lower && l'.Done()
    ensures (step.Record? && l'.status == step.status) || exists l :: l in s.lower && l.Done() && l.status == l'.status
  {
    var k :| 0 <= k < |Do(s, step).lower| && Do(s, step).lower[k] == l';
    if k < |s.lower| {
      assert s.lower[k] in s.lower;
    }
  }

  lemma {:induction false} FailedStep(s: State, step: Step)
    requires SendInv(s) && Enabled(s, step)
    ensures Failed(Do(s, step)) <==> Failed(s) || step == FailBuild || (step.Record? && step.status < 0)
    ensures forall status :: AFailure(s, status) ==> AFailure(Do(s, step), status)
  {
    var s' := Do(s, step);
    forall l | l in s.lower && l.Done()
      ensures exists l' :: l' in s'.lower && l'.Done() && l'.status == l.status
    {
      DoneStays(s, step, l);
    }
    forall l' | l' in s'.lower && l'.Done()
      ensures (step.Record? && l'.status == step.status) || exists l :: l in s.lower && l.Done() && l.status == l'.status
    {
      DoneCameFrom(s, step, l');
    }
    if step.Record? {
      assert s'.lower[step.i] in s'.lower;
    }
  }

  lemma {:induction false} StatusInvStep(s: State, step: Step)
    requires SendInv(s) && StatusInv(s) && Enabled(s, step)
    ensures StatusInv(Do(s, step))
  {
    FailedStep(s, step);
    if step.Record? {
      assert Do(s, step).lower[step.i] in Do(s, step).lower;
    }
  }

  lemma {:induction false} ReplyInvStep(s: State, step: Step)
    requires CountInv(s) && ReplyInv(s) && Enabled(s, step)
    ensures ReplyInv(Do(s, step))
  {
    if Touches(step) {
      NeverTouchedAfterDeletion(s, step);
    }
  }

  lemma {:induction false} InvStep(s: State, step: Step)
    requires Inv(s) && Enabled(s, step)
    ensures Inv(Do(s, step)) && Do(s, step).wanted == s.wanted
  {
    CountInvStep(s, step);
    BytesInvStep(s, step);
    StatusInvStep(s, step);
    ReplyInvStep(s, step);
  }

  lemma {:induction false} InvInit(s: State)
    requires Init(s)
    ensures Inv(s)
  {
  }

  datatype Run = Run(states: seq<State>, steps: seq<Step>) {
    ghost predicate Taken(i: nat)
      requires i < |steps| && |states| == |steps| + 1
    {
      Enabled(states[i], steps[i]) && states[i + 1] == Do(states[i], steps[i])
    }

    ghost predicate Valid() {
      && |states| == |steps| + 1
      && forall i :: 0 <= i < |steps| ==> Taken(i)
    }

    function Last(): State
      requires states != []
    {
      states[|states| - 1]
    }
  }

  /** One more step of a run. */
  lemma {:induction false} Take(run: Run, step: Step) returns (r: Run)
    requires run.Valid() && Enabled(run.Last(), step)
    ensures r == Run(run.states + [Do(run.Last(), step)], run.steps + [step]) && r.Valid()
  {
    r := Run(run.states + [Do(run.Last(), step)], run.steps + [step]);
    forall i | 0 <= i < |r.steps| ensures r.Taken(i) {
      assert i < |run.steps| ==> run.Taken(i);
    }
  }

  ghost predicate ValidFromInit(run: Run) {
    run.Valid() && Init(run.states[0])
  }

  lemma {:induction false} InvEverywhere(run: Run, k: nat)
    requires ValidFromInit(run) && k < |run.states|
    ensures Inv(run.states[k]) && run.states[k].wanted == run.states[0].wanted
  {
    if k == 0 {
      InvInit(run.states[0]);
    } else {
      InvEverywhere(run, k - 1);
      assert run.Taken(k - 1);
      InvStep(run.states[k - 1], run.steps[k - 1]);
    }
  }

  /** In every state of every run: the original request has been completed at most once,
      and if it has, every lower request that was built is over, the issuer is through,
      and nothing touches the object any more. */
  lemma {:induction false} CompletedAtMostOnce(run: Run, k: nat)
    requires ValidFromInit(run) && k < |run.states|
    ensures |run.states[k].replies| <= 1
    ensures run.states[k].replies != [] ==>
              && run.states[k].issuer == Through
              && (forall i :: 0 <= i < |run.states[k].lower| ==> run.states[k].lower[i].Over?)
              && (forall step :: Enabled(run.states[k], step) ==> !Touches(step))
  {
    InvEverywhere(run, k);
    var s := run.states[k];
    if s.lower != [] {
      SumNonNegative(IsLast, s.lower, 0);
    }
    if s.replies != [] {
      ZeroMeansAllDone(s);
      forall i | 0 <= i < |s.lower| ensures s.lower[i].Over? {
        SumNonNegative(IsLast, s.lower, i);
      }
    }
  }

  /** A run that cannot go on has completed the original request. */
  lemma {:induction false} CompletedInTheEnd(run: Run, k: nat)
    requires ValidFromInit(run) && k < |run.states| && forall step :: !Enabled(run.states[k], step)
    ensures |run.states[k].replies| == 1
  {
    InvEverywhere(run, k);
    var s := run.states[k];
    assert !Enabled(s, Build) && !Enabled(s, Send) && !Enabled(s, DropIssuer) && !Enabled(s, DestroyIssuer);
    forall i | 0 <= i < |s.lower| ensures s.lower[i].Over? {
      assert !Enabled(s, Record(i, 0, 0)) && !Enabled(s, Drop(i)) && !Enabled(s, Destroy(i));
    }
    AllOver(s.lower);
  }

  lemma {:induction false} AllOver(lower: seq<Lower>)
    requires forall i :: 0 <= i < |lower| ==> lower[i].Over?
    ensures Sum(HoldsReference, lower) == 0 && Sum(IsLast, lower) == 0
  {
    if lower != [] {
      AllOver(lower[..|lower| - 1]);
    }
  }

  function Weight(l: Lower): int {
    match l
    case Built => 4
    case Sent => 3
    case Recorded(_, _) => 2
    case Last(_, _) => 1
    case Over(_, _) => 0
  }

  function IssuerWeight(issuer: Issuer): nat {
    match issuer
    case Looping => 2
    case Calling => 2
    case Leaving => 2
    case Destroying => 1
    case Through => 0
  }

  /** Steps left at most. */
  function Rank(s: State): int {
    5 * (s.wanted - |s.lower|) + IssuerWeight(s.issuer) + Sum(Weight, s.lower) + if s.buildFailed then 0 else 1
  }

  /** Every step uses some of them up, so every run ends, and ends as above. */
  lemma {:induction false} EveryStepCounts(s: State, step: Step)
    requires Inv(s) && Enabled(s, step)
    ensures Rank(Do(s, step)) < Rank(s) && Rank(s) >= 0
  {
    SumStep(Weight, s, step);
    if s.lower != [] {
      SumNonNegative(Weight, s.lower, 0);
    }
  }

  /** What the original request is completed with: success exactly if every lower read
      succeeded and none failed to be built, with the bytes they transferred; otherwise one
      of the failures, and no bytes. */
  lemma {:induction false} FinalReply(run: Run, k: nat)
    requires ValidFromInit(run) && k < |run.states| && run.states[k].replies != []
    ensures var s := run.states[k];
            var (status, information) := s.replies[0];
            && (status >= 0 <==> !s.buildFailed && forall l :: l in s.lower ==> l.Over? && l.status >= 0)
            && (status >= 0 ==> |s.lower| == s.wanted && information == Sum(Contributes, s.lower))
            && (status < 0 ==>
                  && information == 0
                  && ((s.buildFailed && status == STATUS_INSUFFICIENT_RESOURCES) || exists l :: l in s.lower && l.Over? && l.status == status))
  {
    InvEverywhere(run, k);
    CompletedAtMostOnce(run, k);
  }

  /** One read of one gap, whose lower request fails: the failure is what the original
      request is completed with. */
  lemma {:induction false} DeviceErrorReplied() returns (run: Run)
    ensures ValidFromInit(run) && run.states[0].wanted == 1
    ensures run.steps == [Build, Send, Record(0, STATUS_IO_DEVICE_ERROR, 0), Drop(0), DropIssuer, DestroyIssuer]
    ensures run.Last().replies == [(STATUS_IO_DEVICE_ERROR, 0)]
  {
    run := Run([State(1, Looping, [], Fields(1, STATUS_SUCCESS, 0), false, false, [])], []);
    run := Take(run, Build);
    run := Take(run, Send);
    assert run.Last() == State(1, Leaving, [Sent], Fields(2, STATUS_SUCCESS, 0), false, false, []);
    run := Take(run, Record(0, STATUS_IO_DEVICE_ERROR, 0));
    run := Take(run, Drop(0));
    assert run.Last() == State(1, Leaving, [Over(STATUS_IO_DEVICE_ERROR, 0)], Fields(1, STATUS_IO_DEVICE_ERROR, 0), false, false, []);
    run := Take(run, DropIssuer);
    run := Take(run, DestroyIssuer);
  }
}
