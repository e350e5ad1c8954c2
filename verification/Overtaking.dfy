/** When a read returns data that match no view, that is, no moment of disk and queue taken
    together: exactly when the last thing that landed under it was an ordinary write with a
    lazy write queued over it.  Such a read is still in order (module Registers): the
    ordinary write had not been completed when the read began, and comes before the lazy one. */
module Overtaking {
  import opened Durability
  import opened Freshness
  import opened Linearizability
  import opened Ordering
  import opened Overlay
  import opened Protocol
  import opened Registers
  import opened Scenarios
  import opened Sectors
  import opened Views

  /** What the worker is writing in state `u` is data of its own on `sector`: neither the
      disk had it at first nor does any other request up to state `t` bring it. */
  ghost predicate OwnData(run: Run, u: nat, t: nat, sector: nat)
    requires u < |run.states| && t < |run.states|
  {
    var inserted, n, base := run.states[t].core.inserted, |run.states[u].core.removed|, run.states[t].limits.base;
    && n < |inserted| && inserted[n].Effect().Covers(sector) && sector < |base|
    && base[sector] != inserted[n].Effect().At(sector)
    && forall k :: 0 <= k < |inserted| && k != n && inserted[k].Effect().Covers(sector) ==>
                     inserted[k].Effect().At(sector) != inserted[n].Effect().At(sector)
  }

  /** Some lazy insertion `m` is queued over the sector. */
  lemma {:induction false} QueuedOver(s: State, sector: nat) returns (m: nat)
    requires Inv(s) && Newest(Cached(s.core.queue), sector).Some?
    ensures |s.core.removed| <= m < |s.core.inserted|
    ensures s.core.inserted[m].Lazy() && s.core.inserted[m].Effect().Covers(sector)
  {
    NewestSome(Cached(s.core.queue), sector);
    var j :| 0 <= j < |s.core.queue| && Cached(s.core.queue)[j].Covers(sector);
    QueuedItem(s.core, s.limits.base, j);
    m := |s.core.removed| + j;
  }

  /** The shape of an overtaken landing: insertion `n`, an ordinary write that has not
      reached the sector, under the lazy insertion `m`. */
  lemma {:induction false} OvertakenShape(s: State, sector: nat) returns (n: nat, m: nat)
    requires Inv(s) && s.core.worker.Issued? && sector !in s.core.landed && !NotOvertaken(s.core, sector)
    ensures n == |s.core.removed| < m < |s.core.inserted| && s.core.inserted[n] == s.core.worker.item
    ensures !s.core.inserted[n].Lazy() && !Reached(s.core, n, sector)
    ensures s.core.inserted[m].Lazy() && s.core.inserted[m].Effect().Covers(sector)
  {
    n := |s.core.removed|;
    HeadOfHistory(s);
    m := QueuedOver(s, sector);
  }

  /** Before and while it lands, an overtaken write is no reader's answer; afterwards the
      lazy write, or a newer one, is. */
  lemma {:induction false} OvertakenNotInView(run: Run, t: nat, sector: nat, u: nat, w: nat)
    requires ValidFromInit(run) && u < t < |run.states| && w <= t && sector < |run.First().limits.base|
    requires run.steps[u] == Land(sector) && !NotOvertaken(run.states[u].core, sector) && OwnData(run, u, t, sector)
    ensures |View(run.states[w].core)| == |run.First().limits.base|
    ensures View(run.states[w].core)[sector] != run.states[t].core.inserted[|run.states[u].core.removed|].Effect().At(sector)
  {
    InvEverywhere(run, u);
    InvEverywhere(run, w);
    InvEverywhere(run, t);
    assert run.Taken(u);
    var n, m := OvertakenShape(run.states[u], sector);
    InsertedGrows(run, u, t);
    InsertedGrows(run, w, t);
    if w <= u {
      var k := ViewHasSource(run.states[w], sector);
      if k == n {
        ReachedForever(run, w, u, n, sector);
      }
    } else {
      ViewNeverOlder(run, u, w, m, sector);
    }
  }

  lemma {:induction false} LandingLeaves(s: State, sector: nat)
    requires Inv(s) && Enabled(s, Land(sector))
    ensures sector < |Do(s, Land(sector)).core.disk| && Do(s, Land(sector)).core.disk[sector] == s.core.worker.item.Effect().At(sector)
  {
  }

  lemma {:induction false} HeadOfHistory(s: State)
    requires Inv(s) && Working(s.core.worker)
    ensures |s.core.removed| < |s.core.inserted| && s.core.inserted[|s.core.removed|] == s.core.worker.item
  {
    assert s.core.inserted[|s.core.removed|] == s.core.queue[0];
  }

  lemma {:induction false} LandingStays(run: Run, i: nat, u: nat, t: nat, sector: nat)
    requires ValidFromInit(run) && t < |run.states| && sector < |run.First().limits.base|
    requires LastLanding(run, i, t, sector, u)
    ensures run.states[u].core.worker.Issued? && run.states[u].core.worker.item.Effect().Covers(sector)
    ensures |run.states[t].core.disk| == |run.First().limits.base|
    ensures run.states[t].core.disk[sector] == run.states[u].core.worker.item.Effect().At(sector)
  {
    InvEverywhere(run, u);
    InvEverywhere(run, u + 1);
    assert run.Taken(u);
    LandingLeaves(run.states[u], sector);
    DiskStays(run, u + 1, t, sector);
  }

  /** The last landing on the sector is what the read finds there. */
  lemma {:induction false} LandingIsRead(run: Run, i: nat, t: nat, sector: nat, u: nat)
    requires ValidFromInit(run) && i <= t < |run.states| && sector < |run.First().limits.base|
    requires LastLanding(run, i, t, sector, u) && Newest(Cached(run.states[i].core.queue), sector).None?
    ensures |run.states[t].core.disk| == |run.First().limits.base| && |run.states[u].core.removed| < |run.states[t].core.inserted|
    ensures run.states[t].core.inserted[|run.states[u].core.removed|].Effect().Covers(sector)
    ensures ReadSector(run, i, t, sector) == run.states[t].core.inserted[|run.states[u].core.removed|].Effect().At(sector)
  {
    LandingStays(run, i, u, t, sector);
    InvEverywhere(run, u);
    HeadOfHistory(run.states[u]);
    InsertedGrows(run, u, t);
  }

  /** The exact condition.  Where ordinary writes bring data of their own, a sector of a
      read was visible at some moment of the read if and only if it was not overtaken. */
  lemma {:induction false} VisibleExactlyUnlessOvertaken(run: Run, i: nat, t: nat, sector: nat)
    requires ValidFromInit(run) && i <= t < |run.states| && sector < |run.First().limits.base|
    requires forall u: nat :: LastLanding(run, i, t, sector, u) && !NotOvertaken(run.states[u].core, sector) ==> OwnData(run, u, t, sector)
    ensures |run.states[t].core.disk| == |run.First().limits.base|
    ensures VisibleBetween(run, i, t, sector, ReadSector(run, i, t, sector)) <==> !Overtaken(run, i, t, sector)
  {
    InvEverywhere(run, t);
    if !Overtaken(run, i, t, sector) {
      SectorLinearizable(run, i, t, sector);
    } else {
      var u: nat :| LastLanding(run, i, t, sector, u) && !NotOvertaken(run.states[u].core, sector);
      LandingIsRead(run, i, t, sector, u);
      forall w | i <= w <= t ensures sector < |View(run.states[w].core)| && View(run.states[w].core)[sector] != ReadSector(run, i, t, sector) {
        OvertakenNotInView(run, t, sector, u, w);
      }
    }
  }

  /** An ordinary write is about to be sent and a lazy write of other data to the same
      sector is about to be inserted. */
  ghost predicate AboutToOvertake(s: State, id: nat, sector: nat) {
    && Inv(s) && sector < |s.limits.base|
    && s.core.worker.Holding? && !s.core.worker.item.Lazy() && s.core.worker.item.Effect().Covers(sector)
    && Newest(Cached(s.core.queue), sector).None?
    && At(s, id, LazyReady) && s.callers.threads[id].request.Payload().Covers(sector)
    && s.core.worker.item.Effect().At(sector) !in
       {s.core.disk[sector], s.callers.threads[id].request.Payload().At(sector)}
  }

  lemma {:induction false} OvertakingInsert(s: State, id: nat, sector: nat) returns (s1: State)
    requires AboutToOvertake(s, id, sector)
    ensures Enabled(s, Insert(id)) && s1 == Do(s, Insert(id)) && Inv(s1) && s1.limits == s.limits
    ensures s1.core.worker == s.core.worker
    ensures Newest(Cached(s1.core.queue), sector).Some?
    ensures View(s.core)[sector] == s.core.disk[sector]
    ensures View(s1.core)[sector] == s.callers.threads[id].request.Payload().At(sector)
  {
    s1 := Do(s, Insert(id));
    InvStep(s, Insert(id));
    ViewAt(s.core, sector);
    ViewChanges(s, Insert(id), sector);
    CachedAppend(s.core.queue, s1.core.queue[|s.core.queue|], sector);
  }

  lemma {:induction false} OvertakingLand(s1: State, sector: nat) returns (s2: State, s3: State)
    requires Inv(s1) && sector < |s1.limits.base|
    requires s1.core.worker.Holding? && !s1.core.worker.item.Lazy() && s1.core.worker.item.Effect().Covers(sector)
    requires Newest(Cached(s1.core.queue), sector).Some?
    ensures Enabled(s1, Issue) && s2 == Do(s1, Issue) && Inv(s2) && s2.limits == s1.limits
    ensures Enabled(s2, Land(sector)) && s3 == Do(s2, Land(sector)) && Inv(s3) && s3.limits == s1.limits
    ensures View(s2.core)[sector] == View(s3.core)[sector] == View(s1.core)[sector]
    ensures s3.core.disk[sector] == s1.core.worker.item.Effect().At(sector)
  {
    s2 := Do(s1, Issue);
    InvStep(s1, Issue);
    ViewChanges(s1, Issue, sector);
    s3 := Do(s2, Land(sector));
    InvStep(s2, Land(sector));
    ViewChanges(s2, Land(sector), sector);
  }

  lemma {:induction false} ThreeSteps(s: State, a: Step, s1: State, b: Step, s2: State, c: Step, s3: State)
    requires Enabled(s, a) && s1 == Do(s, a) && Enabled(s1, b) && s2 == Do(s1, b) && Enabled(s2, c) && s3 == Do(s2, c)
    ensures Run([s, s1, s2, s3], [a, b, c]).Valid()
  {
    ExtendValid(Run([s], []), a);
    ExtendValid(Run([s, s1], [a]), b);
    ExtendValid(Run([s, s1, s2], [a, b]), c);
  }

  lemma {:induction false} InvisibleInFour(s: State, s1: State, s2: State, s3: State, steps: seq<Step>, sector: nat, v: Sector)
    requires forall t :: t in {s, s1, s2, s3} ==> sector < |t.core.disk| && View(t.core)[sector] != v
    requires Newest(Cached(s.core.queue), sector).None? && s3.core.disk[sector] == v
    ensures !VisibleBetween(Run([s, s1, s2, s3], steps), 0, 3, sector, ReadSector(Run([s, s1, s2, s3], steps), 0, 3, sector))
  {
    var run := Run([s, s1, s2, s3], steps);
    assert forall u :: 0 <= u <= 3 ==> run.states[u] in {s, s1, s2, s3};
  }

  /** The condition cannot be dropped: from every such state there is a run in which a
      read returns data that was visible at no moment. */
  lemma {:induction false} OvertakenReadIsNeverVisible(s: State, id: nat, sector: nat) returns (run: Run)
    requires AboutToOvertake(s, id, sector)
    ensures run.Valid() && run.states[0] == s && run.steps == [Insert(id), Issue, Land(sector)]
    ensures sector < |run.states[3].core.disk| && !VisibleBetween(run, 0, 3, sector, ReadSector(run, 0, 3, sector))
  {
    var s1 := OvertakingInsert(s, id, sector);
    var s2, s3 := OvertakingLand(s1, sector);
    ThreeSteps(s, Insert(id), s1, Issue, s2, Land(sector), s3);
    run := Run([s, s1, s2, s3], [Insert(id), Issue, Land(sector)]);
    InvisibleInFour(s, s1, s2, s3, run.steps, sector, s3.core.disk[sector]);
  }

  /** It does happen: on every device with room for one lazy write, a run from its start
      to a state as above, by the two writes `w` (lazy) and `x` (ordinary) to one sector. */
  lemma {:induction false} OvertakingIsReachable(limits: Limits, w: Write<Sector>, x: Write<Sector>, sector: nat) returns (run: Run)
    requires Admits(limits, w) && x.data != [] && x.End() <= |limits.base|
    requires w.Covers(sector) && x.Covers(sector) && x.At(sector) !in {limits.base[sector], w.At(sector)}
    ensures ValidFromInit(run) && run.First().limits == limits && AboutToOvertake(run.Last(), 0, sector)
  {
    run := OrdinaryHeld(limits, w, x);
    InvEverywhere(run, |run.states| - 1);
    NothingCached(PlainItem(1, WriteRequest(x)), sector);
    assert run.Last().core.worker.item.Effect() == x;
    assert run.Last().callers.threads[0].request.Payload() == w;
  }

  lemma {:induction false} NothingCached(item: Item, sector: int)
    requires item.Cached().data == []
    ensures Newest(Cached([item]), sector).None?
  {
    NewestSome(Cached([item]), sector);
  }

  /** The whole run: a new device, two writes and a read that was never right. */
  lemma {:induction false} ReadThatWasNeverVisible(limits: Limits, w: Write<Sector>, x: Write<Sector>, sector: nat) returns (run: Run, i: nat)
    requires Admits(limits, w) && x.data != [] && x.End() <= |limits.base|
    requires w.Covers(sector) && x.Covers(sector) && x.At(sector) !in {limits.base[sector], w.At(sector)}
    ensures ValidFromInit(run) && run.First().limits == limits && i < |run.states|
    ensures |run.Last().core.disk| == |limits.base|
    ensures !VisibleBetween(run, i, |run.states| - 1, sector, ReadSector(run, i, |run.states| - 1, sector))
  {
    var before := OvertakingIsReachable(limits, w, x, sector);
    i := |before.states| - 1;
    var after := OvertakenReadIsNeverVisible(before.Last(), 0, sector);
    JoinValid(before, after);
    run := Join(before, after);
    InvEverywhere(run, |run.states| - 1);
    assert forall u :: 0 <= u <= 3 ==> run.states[i + u] == after.states[u];
    forall u | i <= u <= i + 3
      ensures !(sector < |run.states[u].core.disk| && View(run.states[u].core)[sector] == ReadSector(run, i, i + 3, sector))
    {
      assert run.states[u] == after.states[u - i];
    }
  }
}
