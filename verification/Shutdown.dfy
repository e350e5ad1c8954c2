/** The event that wakes the worker, and what its exit guarantees and does not. */
module Shutdown {
  import opened Durability
  import opened Ordering
  import opened Overlay
  import opened Protocol
  import opened Scenarios
  import opened Sectors
  import opened Views

  /** Some thread has changed what the worker waits for and will set the event next. */
  ghost predicate SignalOwed(s: State) {
    || s.flags.remover == Flagged
    || exists id :: id in s.callers.threads && s.callers.threads[id].phase in {LazyInserted, PlainInserted}
  }

  ghost predicate WakeInv(s: State) {
    && (s.flags.shutdown <==> s.flags.remover in {Flagged, Signalled})
    && (s.core.worker.SawEmpty? && s.core.queue != [] ==> s.flags.event || SignalOwed(s))
    && (s.core.worker == Waiting && (s.core.queue != [] || s.flags.shutdown) ==> s.flags.event || SignalOwed(s))
  }

  lemma {:induction false} OwedAfter(s: State, step: Step)
    requires ThreadsInv(s.callers, s.limits.base) && Enabled(s, step) && SignalOwed(s)
    ensures SignalOwed(Do(s, step)) || Do(s, step).flags.event
  {
    var s' := Do(s, step);
    if s.flags.remover != Flagged && !ByThread(step) {
      ThreadsFrame(s, step);
    } else if s.flags.remover != Flagged {
      var id :| id in s.callers.threads && s.callers.threads[id].phase in {LazyInserted, PlainInserted};
      assert step == Signal(id) || (id in s'.callers.threads && s'.callers.threads[id].phase == s.callers.threads[id].phase);
    }
  }

  lemma {:induction false} WakeInvStep(s: State, step: Step)
    requires ThreadsInv(s.callers, s.limits.base) && QueueInv(s.core, s.limits.base) && WakeInv(s) && Enabled(s, step)
    ensures WakeInv(Do(s, step))
  {
    var s' := Do(s, step);
    if SignalOwed(s) {
      OwedAfter(s, step);
    }
    match step {
      case Insert(id) => assert s'.callers.threads[id].phase in {LazyInserted, PlainInserted};
      case _ =>
    }
  }

  lemma {:induction false} WakeInvAlong(run: Run, k: nat)
    requires ValidFromInit(run) && k < |run.states|
    ensures WakeInv(run.states[k])
  {
    if k > 0 {
      WakeInvAlong(run, k - 1);
      InvEverywhere(run, k - 1);
      assert run.Taken(k - 1);
      WakeInvStep(run.states[k - 1], run.steps[k - 1]);
    }
  }

  /** No lost wakeup: a worker that waits while there is work or a shutdown request is
      woken by the event, or by a thread that has yet to set it. */
  lemma {:induction false} NoLostWakeup(run: Run, k: nat)
    requires ValidFromInit(run) && k < |run.states| && run.states[k].core.worker == Waiting
    requires run.states[k].core.queue != [] || run.states[k].flags.shutdown
    ensures Enabled(run.states[k], Wake)
            || Enabled(run.states[k], SignalShutdown)
            || exists id :: Enabled(run.states[k], Signal(id))
  {
    WakeInvAlong(run, k);
    var s := run.states[k];
    if !s.flags.event && s.flags.remover != Flagged {
      var id :| id in s.callers.threads && s.callers.threads[id].phase in {LazyInserted, PlainInserted};
      assert Enabled(s, Signal(id));
    }
  }

  /** The worker has seen an empty queue when `seen` items had been inserted. */
  ghost predicate SeenInv(s: State) {
    match s.core.worker
    case SawEmpty(seen) => |s.core.removed| == seen
    case Exited(seen) => |s.core.removed| == seen && s.flags.shutdown
    case _ => true
  }

  lemma {:induction false} SeenInvStep(s: State, step: Step)
    requires QueueInv(s.core, s.limits.base) && SeenInv(s) && Enabled(s, step)
    ensures SeenInv(Do(s, step))
  {
  }

  /** `k` is the moment of the worker's last look at the queue, which was empty. */
  ghost predicate LastLook(run: Run, k: nat, seen: nat) {
    && k < |run.steps| && k < |run.states|
    && run.steps[k] == Peek && run.states[k].core.queue == [] && |run.states[k].core.inserted| == seen
  }

  lemma {:induction false} SeenNext(run: Run, n: nat)
    requires ValidFromInit(run) && n < |run.steps| && SeenInv(run.states[n])
    ensures SeenInv(run.states[n + 1]) && run.states[n].core.inserted <= run.states[n + 1].core.inserted
    ensures var before, after := run.states[n].core, run.states[n + 1].core;
            after.worker.SawEmpty? || after.worker.Exited? ==>
              if run.steps[n] == Peek then before.queue == [] && after.worker == SawEmpty(|before.inserted|)
              else (before.worker.SawEmpty? || before.worker.Exited?) && before.worker.seen == after.worker.seen
  {
    InvEverywhere(run, n);
    assert run.Taken(n);
    SeenInvStep(run.states[n], run.steps[n]);
  }

  lemma {:induction false} SeenAlong(run: Run, n: nat) returns (k: nat)
    requires ValidFromInit(run) && n < |run.states|
    ensures SeenInv(run.states[n])
    ensures run.states[n].core.worker.SawEmpty? || run.states[n].core.worker.Exited? ==>
              k < n && LastLook(run, k, run.states[n].core.worker.seen)
              && run.states[k].core.inserted <= run.states[n].core.inserted
  {
    k := 0;
    if n > 0 {
      k := SeenAlong(run, n - 1);
      SeenNext(run, n - 1);
      if run.steps[n - 1] == Peek {
        k := n - 1;
      }
    }
  }

  /** When the worker has exited, shutdown was requested, and every item inserted before
      its last look at the queue has been dispatched, in order, and is on the disk. */
  lemma {:induction false} ExitMeansDrained(run: Run, n: nat) returns (k: nat)
    requires ValidFromInit(run) && n < |run.states| && run.states[n].core.worker.Exited?
    ensures run.states[n].flags.shutdown
    ensures k < n && LastLook(run, k, run.states[n].core.worker.seen)
    ensures run.states[n].core.removed == run.states[k].core.inserted
    ensures run.states[n].core.disk == Replay(run.First().limits.base, Effects(run.states[k].core.inserted))
  {
    k := SeenAlong(run, n);
    InvEverywhere(run, n);
    var c := run.states[n].core;
    assert c.removed == c.inserted[..|c.removed|];
  }

  /** Steps that an item still takes: eight of the worker, and one for each sector to land. */
  function Work(queue: seq<Item>): nat {
    if queue == [] then 0 else Work(queue[..|queue| - 1]) + 8 + |queue[|queue| - 1].Effect().data|
  }

  lemma {:induction false} WorkHead(queue: seq<Item>)
    requires queue != []
    ensures Work(queue) == 8 + |queue[0].Effect().data| + Work(queue[1..])
  {
    var n := |queue| - 1;
    if n == 0 {
      assert queue[..0] == [] && queue[1..] == [];
    } else {
      WorkHead(queue[..n]);
      assert queue[1..][..n - 1] == queue[..n][1..];
    }
  }

  /** What the worker's own place adds to the work in the queue, or has done of it already. */
  function Stage(c: Core): int {
    match c.worker
    case Releasing(_) => 7
    case Top => 6
    case Holding(_) => 5
    case Issued(_) => 4 - |c.landed|
    case Finished(item) => 3 - |item.Effect().data|
    case Replied(item) => 2 - |item.Effect().data|
    case SawEmpty(_) => 1
    case Waiting => 0
    case Exited(_) => 0
  }

  /** Steps of the worker and the lower device until the queue is empty and its look at it is over. */
  function Remaining(c: Core): int { Work(c.queue) + Stage(c) }

  lemma {:induction false} RangeSize(landed: set<int>, offset: int, end: int)
    requires offset <= end && forall sector :: sector in landed ==> offset <= sector < end
    ensures |landed| <= end - offset
    decreases end - offset
  {
    if offset == end {
      assert landed == {};
    } else {
      RangeSize(landed - {end - 1}, offset, end - 1);
      assert |landed| <= |landed - {end - 1}| + 1;
    }
  }

  lemma {:induction false} LandedSize(s: State)
    requires Inv(s) && s.core.worker.Issued?
    ensures |s.core.landed| <= |s.core.worker.item.Effect().data|
  {
    RangeSize(s.core.landed, s.core.worker.item.Effect().offset, s.core.worker.item.Effect().End());
  }

  lemma {:induction false} RemainingNonNegative(s: State)
    requires Inv(s)
    ensures Remaining(s.core) >= 0
  {
    if Working(s.core.worker) {
      WorkHead(s.core.queue);
      if s.core.worker.Issued? {
        LandedSize(s);
      }
    }
  }

  predicate Drains(step: Step) { ByWorker(step) || step.Land? }

  lemma {:induction false} RemoveProgress(s: State)
    requires Inv(s) && s.core.worker.Replied?
    ensures Remaining(Do(s, Remove).core) < Remaining(s.core)
  {
    var item := s.core.queue[0];
    WorkHead(s.core.queue);
    assert Do(s, Remove).core.queue == s.core.queue[1..] && Do(s, Remove).core.worker == Releasing(item);
  }

  lemma {:induction false} IssueProgress(s: State)
    requires Inv(s) && s.core.worker.Holding?
    ensures Remaining(Do(s, Issue).core) < Remaining(s.core)
  {
    MarkerHasNoData(s);
  }

  /** Every step of the worker and of the lower device uses up some of it, except a failed
      attempt to build a lower request and a wake-up. */
  lemma {:induction false} DrainProgress(s: State, step: Step)
    requires Inv(s) && Enabled(s, step) && Drains(step)
    ensures Remaining(Do(s, step).core) < Remaining(s.core) + Retry(step)
  {
    match step {
      case Remove => RemoveProgress(s);
      case Issue => IssueProgress(s);
      case LowerDone => LandedSize(s);
      case _ => QueueFrame(s, step);
    }
  }

  lemma {:induction false} MarkerHasNoData(s: State)
    requires Inv(s) && s.core.worker.Holding?
    ensures var item := s.core.worker.item;
            item.irp.Some? && item.irp.value.Marker() ==> item.Effect().data == []
  {
  }

  lemma {:induction false} OthersDoNotDelay(s: State, step: Step)
    requires Inv(s) && Enabled(s, step) && !Drains(step) && !step.Insert?
    ensures Do(s, step).core.queue == s.core.queue && Do(s, step).core.worker == s.core.worker
    ensures Do(s, step).core.landed == s.core.landed
  {
  }

  function DrainSteps(steps: seq<Step>): nat {
    if steps == [] then 0 else DrainSteps(steps[..|steps| - 1]) + if Drains(steps[|steps| - 1]) then 1 else 0
  }

  function Occurrences(steps: seq<Step>, step: Step): nat {
    if steps == [] then 0 else Occurrences(steps[..|steps| - 1], step) + if steps[|steps| - 1] == step then 1 else 0
  }

  lemma {:induction false} ShutdownStays(s: State, step: Step)
    requires Enabled(s, step) && s.flags.shutdown
    ensures Do(s, step).flags.shutdown
    ensures if step == Wake then s.core.worker == Waiting && Do(s, step).core.worker != Waiting
            else Do(s, step).core.worker == Waiting ==> s.core.worker == Waiting
  {
  }

  /** Once shutdown has been requested the worker wakes up once at most. */
  lemma {:induction false} WakesOnce(run: Run, j: nat, n: nat)
    requires run.Valid() && j <= n < |run.states| && run.states[j].flags.shutdown
    ensures run.states[n].flags.shutdown
    ensures Occurrences(run.steps[j..n], Wake) + (if run.states[n].core.worker == Waiting then 1 else 0)
            <= if run.states[j].core.worker == Waiting then 1 else 0
  {
    if j < n {
      WakesOnce(run, j, n - 1);
      assert run.Taken(n - 1);
      ShutdownStays(run.states[n - 1], run.steps[n - 1]);
      assert run.steps[j..n][..n - 1 - j] == run.steps[j..n - 1];
    }
  }

  /** What failed builds and wake-ups cost: a retry of two steps, and a new round of seven. */
  function Retries(steps: seq<Step>): nat {
    if steps == [] then 0 else Retries(steps[..|steps| - 1]) + Retry(steps[|steps| - 1])
  }

  function Retry(step: Step): nat { if step == FailBuild then 2 else if step == Wake then 7 else 0 }

  lemma {:induction false} DrainBoundNext(run: Run, n: nat)
    requires run.Valid() && n < |run.steps| && Inv(run.states[n]) && !run.steps[n].Insert?
    ensures Inv(run.states[n + 1])
    ensures (if Drains(run.steps[n]) then 1 else 0) + Remaining(run.states[n + 1].core) <=
            Remaining(run.states[n].core) + Retry(run.steps[n])
  {
    assert run.Taken(n);
    InvStep(run.states[n], run.steps[n]);
    DrainBoundStep(run.states[n], run.steps[n]);
  }

  /** Without insertions, worker and lower device make a bounded number of steps, but for
      the retries. */
  lemma {:induction false} DrainBound(run: Run, j: nat, n: nat)
    requires run.Valid() && j <= n < |run.states| && Inv(run.states[j])
    requires forall k :: j <= k < n ==> !run.steps[k].Insert?
    ensures Inv(run.states[n]) && 0 <= Remaining(run.states[n].core)
    ensures DrainSteps(run.steps[j..n]) + Remaining(run.states[n].core) <=
            Remaining(run.states[j].core) + Retries(run.steps[j..n])
  {
    if j < n {
      DrainBound(run, j, n - 1);
      DrainBoundNext(run, n - 1);
      assert run.steps[j..n][..n - 1 - j] == run.steps[j..n - 1];
    }
    RemainingNonNegative(run.states[n]);
  }

  lemma {:induction false} DrainBoundStep(s: State, step: Step)
    requires Inv(s) && Enabled(s, step) && !step.Insert?
    ensures (if Drains(step) then 1 else 0) + Remaining(Do(s, step).core) <=
            Remaining(s.core) + Retry(step)
  {
    if Drains(step) {
      DrainProgress(s, step);
    } else {
      OthersDoNotDelay(s, step);
    }
  }

  /** Steps that somebody is bound to take: the worker, the lower device, a thread about to
      set the event. */
  predicate Bound(step: Step) { Drains(step) || step.Signal? || step == SignalShutdown }

  /** With shutdown requested, only an exited worker leaves nothing to be done. */
  lemma {:induction false} StuckMeansExited(s: State)
    requires Inv(s) && WakeInv(s) && s.flags.shutdown
    requires forall step :: Enabled(s, step) ==> !Bound(step)
    ensures s.core.worker.Exited?
  {
    if s.core.worker == Waiting {
      assert !Enabled(s, Wake) && !Enabled(s, SignalShutdown);
      var id :| id in s.callers.threads && s.callers.threads[id].phase in {LazyInserted, PlainInserted};
      assert Enabled(s, Signal(id));
    } else if !s.core.worker.Exited? {
      var step := WorkerNeverStuck(s);
    }
  }

  lemma {:induction false} InsertedOrNot(s: State, step: Step)
    requires Enabled(s, step)
    ensures |Do(s, step).core.inserted| == |s.core.inserted| + if step.Insert? then 1 else 0
  {
  }

  /** The history stays as long as it is exactly if nothing is inserted. */
  lemma {:induction false} NothingInserted(run: Run, k: nat, n: nat)
    requires run.Valid() && k <= n < |run.states|
    ensures |run.states[k].core.inserted| <= |run.states[n].core.inserted|
    ensures |run.states[k].core.inserted| == |run.states[n].core.inserted| <==> forall w :: k <= w < n ==> !run.steps[w].Insert?
  {
    if k < n {
      NothingInserted(run, k, n - 1);
      assert run.Taken(n - 1);
      InsertedOrNot(run.states[n - 1], run.steps[n - 1]);
    }
  }

  /** Drain at shutdown, over every run on which shutdown has been requested and which cannot
      go on: the worker has gone, everything inserted before its last look is on the disk in
      order, and the queue is empty if and only if nothing was inserted after that look. */
  lemma {:induction false} DrainedInTheEnd(run: Run) returns (k: nat)
    requires ValidFromInit(run) && run.Last().flags.shutdown && forall step :: Enabled(run.Last(), step) ==> !Bound(step)
    ensures run.Last().core.worker.Exited? && k < |run.steps| && LastLook(run, k, run.Last().core.worker.seen)
    ensures run.Last().core.disk == Replay(run.First().limits.base, Effects(run.states[k].core.inserted))
    ensures run.Last().core.queue == [] <==> forall w :: k <= w < |run.steps| ==> !run.steps[w].Insert?
  {
    var n := |run.states| - 1;
    InvEverywhere(run, n);
    WakeInvAlong(run, n);
    StuckMeansExited(run.Last());
    k := ExitMeansDrained(run, n);
    NothingInserted(run, k, n);
  }

  lemma {:induction false} WorkerNeverStuck(s: State) returns (step: Step)
    requires Inv(s) && s.core.worker != Waiting && !s.core.worker.Exited?
    ensures Enabled(s, step) && (ByWorker(step) || step.Land?) && step != FailBuild
    ensures step.Land? ==> step.sector !in s.core.landed
  {
    match s.core.worker {
      case Top => step := Peek;
      case SawEmpty(_) => step := TestShutdown;
      case Holding(_) => step := Issue;
      case Issued(item) =>
        step := LowerDone;
        if !AllLanded(item.Effect(), s.core.landed) {
          var c :| item.Effect().offset <= c < item.Effect().End() && c !in s.core.landed;
          assert WellFormed(s.core.inserted[|s.core.removed|], s.limits.base);
          step := Land(c);
        }
      case Finished(_) => step := Reply;
      case Replied(_) => step := Remove;
      case Releasing(_) => step := Release;
    }
  }

  /** With the worker gone, exactly what had been inserted when it last looked has been
      carried out: insertion `m` is on the disk or lost, depending on nothing else. */
  lemma {:induction false} CarriedOutAtExit(run: Run, n: nat, m: nat) returns (k: nat)
    requires ValidFromInit(run) && n < |run.states| && run.states[n].core.worker.Exited?
    ensures k < n && LastLook(run, k, run.states[n].core.worker.seen)
    ensures CarriedOut(run.states[n].core, m) <==> m < |run.states[k].core.inserted|
  {
    k := ExitMeansDrained(run, n);
  }

  /** What is left of the removal once the worker has looked. */
  function RemovalSteps(remover: Remover): seq<Step> {
    match remover
    case Absent => [ClearForRemoval, FlagShutdown]
    case CacheCleared => [FlagShutdown]
    case _ => []
  }

  lemma {:induction false} Acknowledge(s: State, id: nat) returns (run: Run)
    requires s.core.worker.SawEmpty? && At(s, id, LazyReady)
    ensures run.Valid() && run.First() == s && run.steps == [Insert(id), Signal(id), CompleteLazy(id)]
    ensures run.Last().callers.completed == s.callers.completed + multiset{id}
    ensures run.Last().core == Append(s.core, LazyItem(id, s.callers.threads[id].request))
    ensures run.Last().flags.remover == s.flags.remover && run.Last().flags.shutdown == s.flags.shutdown
  {
    run := Take(Run([s], []), Insert(id));
    InsertedShape(s, id);
    run := Take(run, Signal(id));
    run := Take(run, CompleteLazy(id));
  }

  lemma {:induction false} ShutDown(run: Run) returns (r: Run)
    requires run.Valid() && run.Last().core.worker.SawEmpty?
    requires run.Last().flags.shutdown <==> run.Last().flags.remover in {Flagged, Signalled}
    ensures r.Valid() && r.First() == run.First()
    ensures r.steps == run.steps + RemovalSteps(run.Last().flags.remover) + [TestShutdown]
    ensures r.Last().core == run.Last().core.(worker := Exited(run.Last().core.worker.seen))
    ensures r.Last().callers == run.Last().callers
  {
    r := run;
    if r.Last().flags.remover == Absent {
      r := Take(r, ClearForRemoval);
    }
    if r.Last().flags.remover == CacheCleared {
      r := Take(r, FlagShutdown);
    }
    r := Take(r, TestShutdown);
  }

  /** What exit does not guarantee: from any reachable state in which the worker has just
      seen the queue empty and a lazy write is about to be inserted, there is a run that
      acknowledges the write and never carries it out - although, if nobody is removing the
      device yet, the removal begins only after the acknowledgement. */
  lemma {:induction false} AcknowledgedButStranded(s: State, id: nat) returns (run: Run)
    requires s.core.worker.SawEmpty? && At(s, id, LazyReady) && WakeInv(s)
    ensures run.Valid() && run.First() == s
    ensures run.steps == [Insert(id), Signal(id), CompleteLazy(id)] + RemovalSteps(s.flags.remover) + [TestShutdown]
    ensures run.Last().callers.completed == s.callers.completed + multiset{id}
    ensures run.Last().core.worker.Exited?
    ensures run.Last().core.queue != [] && run.Last().core.queue[|run.Last().core.queue| - 1].id == id
  {
    var acknowledged := Acknowledge(s, id);
    run := ShutDown(acknowledged);
  }

  /** It does happen: on a new device, the worker looks once and one write is lost. */
  lemma {:induction false} LostWrite(limits: Limits, w: Write<Sector>) returns (run: Run, k: nat)
    requires Admits(limits, w)
    ensures ValidFromInit(run) && run.First().limits == limits && k < |run.steps|
    ensures run.steps[k..] == [CompleteLazy(0), ClearForRemoval, FlagShutdown, TestShutdown]
    ensures run.Last().callers.completed == multiset{0}
    ensures run.Last().core.worker.Exited? && !CarriedOut(run.Last().core, 0)
    ensures run.Last().core.inserted == [LazyItem(0, WriteRequest(w))]
  {
    run := WriteReady(limits, w);
    run := Take(run, Peek);
    var acknowledged := Acknowledge(run.Last(), 0);
    k := |run.steps| + 2;
    JoinValid(run, acknowledged);
    run := ShutDown(Join(run, acknowledged));
  }

  /** After the exit nothing is dispatched any more: disk and queue entries stay. */
  lemma {:induction false} NothingAfterExit(run: Run, j: nat, k: nat)
    requires run.Valid() && j <= k < |run.states| && run.states[j].core.worker.Exited?
    ensures run.states[k].core.worker == run.states[j].core.worker
    ensures run.states[k].core.disk == run.states[j].core.disk
    ensures run.states[j].core.queue <= run.states[k].core.queue
  {
    if j < k {
      NothingAfterExit(run, j, k - 1);
      assert run.Taken(k - 1);
    }
  }
}
