/** What is on the disk, over whole runs: always a prefix of the insertion order and one
    torn write at most, and never older data again once a request has been dispatched. */
module Durability {
  import opened Ordering
  import opened Overlay
  import opened Protocol
  import opened Sectors
  import opened Views

  lemma {:induction false} InvStep(s: State, step: Step)
    requires Inv(s) && Enabled(s, step)
    ensures Inv(Do(s, step)) && Do(s, step).limits == s.limits
  {
    ThreadsInvStep(s, step);
    IdsInvStep(s, step);
    QueueInvStep(s, step);
    DiskInvStep(s, step);
  }

  lemma {:induction false} InvAlong(run: Run, first: nat, k: nat)
    requires run.Valid() && first <= k < |run.states| && Inv(run.states[first])
    ensures Inv(run.states[k]) && run.states[k].limits == run.states[first].limits
  {
    if first < k {
      InvAlong(run, first, k - 1);
      assert run.Taken(k - 1);
      InvStep(run.states[k - 1], run.steps[k - 1]);
    }
  }

  lemma {:induction false} InvEverywhere(run: Run, k: nat)
    requires ValidFromInit(run) && k < |run.states|
    ensures Inv(run.states[k]) && run.states[k].limits == run.First().limits
  {
    InvInit(run.First());
    InvAlong(run, 0, k);
  }

  lemma {:induction false} InsertedGrows(run: Run, u: nat, t: nat)
    requires run.Valid() && u <= t < |run.states|
    ensures run.states[u].core.inserted <= run.states[t].core.inserted
  {
    if u < t {
      InsertedGrows(run, u, t - 1);
      assert run.Taken(t - 1);
    }
  }

  lemma {:induction false} RemovedGrows(run: Run, u: nat, t: nat)
    requires run.Valid() && u <= t < |run.states|
    ensures run.states[u].core.removed <= run.states[t].core.removed
  {
    if u < t {
      RemovedGrows(run, u, t - 1);
      assert run.Taken(t - 1);
    }
  }

  /** The disk a crash leaves behind after the first `n` insertions and part of the next. */
  ghost predicate CrashImage(base: Disk, inserted: seq<Item>, disk: Disk, n: nat, landed: set<int>) {
    && n <= |inserted|
    && if n == |inserted| then disk == Replay(base, Effects(inserted))
       else disk == Torn(Replay(base, Effects(inserted[..n])), inserted[n].Effect(), landed)
  }

  lemma {:induction false} TornByNothing(disk: Disk, w: Write<Sector>)
    ensures Torn(disk, w, {}) == disk
  {
  }

  function Below(n: nat): (r: set<int>)
    ensures forall c :: c in r <==> 0 <= c < n
  {
    if n == 0 then {} else Below(n - 1) + {n - 1}
  }

  lemma {:induction false} TornByAll(disk: Disk, w: Write<Sector>)
    ensures Torn(disk, w, Below(|disk|)) == Apply(disk, w)
  {
  }

  /** In every state of every run, a crash leaves a prefix of the insertion order on the
      disk, torn in its last write at most. */
  lemma {:induction false} CrashLeavesPrefix(run: Run, k: nat) returns (landed: set<int>)
    requires ValidFromInit(run) && k < |run.states|
    ensures var c := run.states[k].core;
            CrashImage(run.First().limits.base, c.inserted, c.disk, |c.removed|, landed)
  {
    InvEverywhere(run, k);
    var c, base := run.states[k].core, run.First().limits.base;
    assert c.inserted[..|c.removed|] == c.removed;
    landed := match c.worker
      case Issued(_) => c.landed
      case Finished(_) => Below(|c.disk|)
      case Replied(_) => Below(|c.disk|)
      case _ => {};
    if |c.removed| < |c.inserted| {
      assert c.queue[0] == c.inserted[|c.removed|];
      TornByNothing(Replay(base, Effects(c.removed)), c.queue[0].Effect());
      TornByAll(Replay(base, Effects(c.removed)), c.queue[0].Effect());
    } else {
      assert c.removed == c.inserted && c.queue == [];
    }
  }

  /** A lower request that carries no data (a flush, say) is sent, and a marker or any
      other request without data is completed, exactly between the writes inserted before
      it and those inserted after it. */
  lemma {:induction false} FallsBetween(run: Run, k: nat, item: Item)
    requires ValidFromInit(run) && k < |run.states|
    requires run.states[k].core.worker == Issued(item) || run.states[k].core.worker == Finished(item)
    requires item.Effect().data == []
    ensures var c := run.states[k].core;
            && |c.removed| < |c.inserted| && c.inserted[|c.removed|] == item
            && c.removed == c.inserted[..|c.removed|]
            && c.disk == Replay(run.First().limits.base, Effects(c.inserted[..|c.removed|]))
  {
    InvEverywhere(run, k);
    var c := run.states[k].core;
    assert c.inserted[..|c.removed|] == c.removed && c.inserted[|c.removed|] == c.queue[0];
  }

  /** The `n`-th insertion has been carried out in full. */
  predicate CarriedOut(c: Core, n: nat) {
    n < |c.removed| || (n == |c.removed| && (c.worker.Finished? || c.worker.Replied?))
  }

  lemma {:induction false} CarriedOutStep(s: State, step: Step, n: nat)
    requires Inv(s) && Enabled(s, step) && CarriedOut(s.core, n)
    ensures CarriedOut(Do(s, step).core, n)
    ensures s.core.inserted <= Do(s, step).core.inserted
  {
  }

  lemma {:induction false} CarriedOutNext(run: Run, k: nat, n: nat)
    requires run.Valid() && k < |run.steps| && Inv(run.states[k]) && CarriedOut(run.states[k].core, n)
    ensures Inv(run.states[k + 1]) && CarriedOut(run.states[k + 1].core, n)
    ensures run.states[k].core.inserted <= run.states[k + 1].core.inserted
    ensures run.states[k + 1].limits == run.states[k].limits
  {
    assert run.Taken(k);
    InvStep(run.states[k], run.steps[k]);
    CarriedOutStep(run.states[k], run.steps[k], n);
  }

  lemma {:induction false} CarriedOutForever(run: Run, j: nat, k: nat, n: nat)
    requires run.Valid() && j <= k < |run.states| && Inv(run.states[j]) && CarriedOut(run.states[j].core, n)
    ensures Inv(run.states[k]) && CarriedOut(run.states[k].core, n)
    ensures run.states[j].core.inserted <= run.states[k].core.inserted
    ensures run.states[k].limits == run.states[j].limits
  {
    if j < k {
      CarriedOutForever(run, j, k - 1, n);
      CarriedOutNext(run, k - 1, n);
    }
  }

  lemma {:induction false} NewestFrom<T>(ws: seq<Write<T>>, n: nat, i: int) returns (k: nat)
    requires n < |ws| && ws[n].Covers(i)
    ensures n <= k < |ws| && ws[k].Covers(i) && Newest(ws, i) == Some(ws[k].At(i))
  {
    var last := |ws| - 1;
    if ws[last].Covers(i) {
      k := last;
    } else {
      k := NewestFrom(ws[..last], n, i);
    }
  }

  /** Sector `i` of the disk comes from insertion `n` or a newer one. */
  ghost predicate FromOrNewer(c: Core, n: nat, i: int)
    requires 0 <= i < |c.disk|
  {
    exists k :: n <= k < |c.inserted| && c.inserted[k].Effect().Covers(i) && c.disk[i] == c.inserted[k].Effect().At(i)
  }

  lemma {:induction false} DiskFromOrNewer(s: State, n: nat, i: nat)
    requires Inv(s) && i < |s.limits.base| && CarriedOut(s.core, n) && n < |s.core.inserted|
    requires s.core.inserted[n].Effect().Covers(i)
    ensures FromOrNewer(s.core, n, i)
  {
    var c, base := s.core, s.limits.base;
    var settled := Replay(base, Effects(c.removed));
    if c.disk[i] != settled[i] {
      OnlyHeadAhead(c, base, i);
      assert c.inserted[|c.removed|] == c.queue[0] && c.disk[i] == c.queue[0].Effect().At(i);
    } else if n < |c.removed| {
      assert Effects(c.removed)[n] == c.inserted[n].Effect();
      var k := NewestFrom(Effects(c.removed), n, i);
      ReplayAt(base, Effects(c.removed), i);
      assert c.inserted[k] == c.removed[k];
    } else {
      assert c.inserted[n] == c.queue[0];
    }
  }

  /** From the moment the worker has carried out insertion `n` (for an ordinary write:
      before its request is completed), no later step of any run brings back older data. */
  lemma {:induction false} NeverOlder(run: Run, j: nat, k: nat, n: nat, i: nat)
    requires ValidFromInit(run) && j <= k < |run.states|
    requires CarriedOut(run.states[j].core, n) && n < |run.states[j].core.inserted|
    requires i < |run.First().limits.base| && run.states[j].core.inserted[n].Effect().Covers(i)
    ensures |run.states[k].core.disk| == |run.First().limits.base| && FromOrNewer(run.states[k].core, n, i)
  {
    InvEverywhere(run, j);
    CarriedOutForever(run, j, k, n);
    assert run.states[k].core.inserted[n] == run.states[j].core.inserted[n];
    DiskFromOrNewer(run.states[k], n, i);
  }
}
