/** Reads against concurrent writers and the worker.  A read takes the covered sectors
    from the queue in one critical section and the others from the disk, each at its own
    later moment; still every sector it returns is one that readers could see in between. */
module Linearizability {
  import opened Durability
  import opened Ordering
  import opened Overlay
  import opened Protocol
  import opened ReadPath
  import opened Sectors
  import opened Views

  /** What a read that looked at the queue in state `i` returns for `sector` if the lower
      device gets to that sector in state `t`. */
  function ReadSector(run: Run, i: nat, t: nat, sector: nat): Sector
    requires i < |run.states| && t < |run.states|
    requires sector < |run.states[t].core.disk|
  {
    var newest := Newest(Protocol.Cached(run.states[i].core.queue), sector);
    if newest.Some? then newest.value else run.states[t].core.disk[sector]
  }

  /** `v` was visible at some moment between the states `i` and `t`. */
  ghost predicate VisibleBetween(run: Run, i: nat, t: nat, sector: nat, v: Sector)
    requires t < |run.states|
  {
    exists u :: i <= u <= t && sector < |run.states[u].core.disk| && View(run.states[u].core)[sector] == v
  }

  /** No ordinary write lands on `sector` in this state while a lazy one is queued over it. */
  ghost predicate NotOvertaken(c: Core, sector: int) {
    c.worker.Issued? && !c.worker.item.Lazy() && c.worker.item.Effect().Covers(sector)
    ==> Newest(Protocol.Cached(c.queue), sector).None?
  }

  /** `u` is the last step before state `t` in which something lands on `sector`. */
  ghost predicate LastLanding(run: Run, i: nat, t: nat, sector: nat, u: nat)
    requires t <= |run.steps|
  {
    i <= u < t && run.steps[u] == Land(sector) && forall w :: u < w < t ==> run.steps[w] != Land(sector)
  }

  /** A read that looked at the queue in state `i` and gets to the disk in state `t` finds
      there what an ordinary write has put under a queued lazy one meanwhile. */
  ghost predicate Overtaken(run: Run, i: nat, t: nat, sector: nat)
    requires i < |run.states| && t <= |run.steps| && |run.states| == |run.steps| + 1
  {
    && Newest(Protocol.Cached(run.states[i].core.queue), sector).None?
    && exists u: nat :: LastLanding(run, i, t, sector, u) && !NotOvertaken(run.states[u].core, sector)
  }

  lemma {:induction false} FindLastLanding(run: Run, i: nat, t: nat, sector: nat) returns (u: int)
    requires i <= t <= |run.steps|
    ensures u == -1 ==> forall w :: i <= w < t ==> run.steps[w] != Land(sector)
    ensures u != -1 ==> u >= 0 && LastLanding(run, i, t, sector, u)
  {
    if i == t {
      u := -1;
    } else if run.steps[t - 1] == Land(sector) {
      u := t - 1;
    } else {
      u := FindLastLanding(run, i, t - 1, sector);
    }
  }

  /** Only a landing on the sector changes it. */
  lemma {:induction false} DiskStays(run: Run, i: nat, t: nat, sector: nat)
    requires run.Valid() && i <= t < |run.states| && Inv(run.states[i]) && sector < |run.states[i].limits.base|
    requires forall w :: i <= w < t ==> run.steps[w] != Land(sector)
    ensures |run.states[t].core.disk| == |run.states[i].core.disk| == |run.states[i].limits.base|
    ensures run.states[t].core.disk[sector] == run.states[i].core.disk[sector]
  {
    if i < t {
      DiskStays(run, i, t - 1, sector);
      assert run.Taken(t - 1);
    }
  }

  /** Every lazy write queued over `sector` has been visible since `i`. */
  ghost predicate QueueExplained(run: Run, i: nat, t: nat, sector: nat)
    requires t < |run.states|
  {
    forall item :: item in run.states[t].core.queue && item.Cached().Covers(sector) ==>
                     VisibleBetween(run, i, t, sector, item.Cached().At(sector))
  }

  lemma {:induction false} NothingCovers(queue: seq<Item>, sector: int)
    requires Newest(Protocol.Cached(queue), sector).None?
    ensures forall item :: item in queue ==> !item.Cached().Covers(sector)
  {
    NewestSome(Protocol.Cached(queue), sector);
    forall item | item in queue ensures !item.Cached().Covers(sector) {
      var k :| 0 <= k < |queue| && queue[k] == item;
      assert !Protocol.Cached(queue)[k].Covers(sector);
    }
  }

  lemma {:induction false} VisibleLonger(run: Run, i: nat, t: nat, later: nat, sector: nat, v: Sector)
    requires t <= later < |run.states| && VisibleBetween(run, i, t, sector, v)
    ensures VisibleBetween(run, i, later, sector, v)
  {
  }

  lemma {:induction false} VisibleNow(run: Run, i: nat, t: nat, sector: nat)
    requires i <= t < |run.states| && sector < |run.states[t].core.disk|
    ensures VisibleBetween(run, i, t, sector, View(run.states[t].core)[sector])
  {
  }

  /** A lazy write is visible as soon as it is queued. */
  lemma {:induction false} QueuedIsVisible(s: State, step: Step, item: Item, sector: nat)
    requires Inv(s) && Enabled(s, step) && sector < |s.limits.base|
    requires item in Do(s, step).core.queue && item !in s.core.queue && item.Cached().Covers(sector)
    ensures sector < |Do(s, step).core.disk| && View(Do(s, step).core)[sector] == item.Cached().At(sector)
  {
    ViewChanges(s, step, sector);
    if !step.Insert? {
      if step != Remove {
        QueueFrame(s, step);
      }
      assert false;
    }
    assert item == Do(s, step).core.queue[|s.core.queue|];
    ViewOnInsert(s.core, item, sector);
  }

  lemma {:induction false} QueueExplainedAlong(run: Run, i: nat, t: nat, sector: nat)
    requires run.Valid() && i <= t < |run.states| && Inv(run.states[i]) && sector < |run.states[i].limits.base|
    requires Newest(Protocol.Cached(run.states[i].core.queue), sector).None?
    ensures QueueExplained(run, i, t, sector)
  {
    if i == t {
      NothingCovers(run.states[i].core.queue, sector);
    } else {
      QueueExplainedAlong(run, i, t - 1, sector);
      InvAlong(run, i, t - 1);
      assert run.Taken(t - 1);
      forall item | item in run.states[t].core.queue && item.Cached().Covers(sector)
        ensures VisibleBetween(run, i, t, sector, item.Cached().At(sector))
      {
        if item in run.states[t - 1].core.queue {
          VisibleLonger(run, i, t - 1, t, sector, item.Cached().At(sector));
        } else {
          QueuedIsVisible(run.states[t - 1], run.steps[t - 1], item, sector);
          VisibleNow(run, i, t, sector);
        }
      }
    }
  }

  /** What lands without overtaking is visible by the time it has landed: a lazy write
      since it was queued, an ordinary one from now on. */
  lemma {:induction false} LandedIsVisible(run: Run, i: nat, u: nat, sector: nat)
    requires run.Valid() && i <= u < |run.steps| && Inv(run.states[u]) && sector < |run.states[u].limits.base|
    requires run.steps[u] == Land(sector) && NotOvertaken(run.states[u].core, sector)
    requires QueueExplained(run, i, u, sector)
    ensures sector < |run.states[u + 1].core.disk|
    ensures VisibleBetween(run, i, u + 1, sector, run.states[u + 1].core.disk[sector])
  {
    var s := run.states[u];
    assert run.Taken(u);
    HeadFits(s);
    ViewChanges(s, Land(sector), sector);
    if s.core.worker.item.Lazy() {
      assert s.core.queue[0] in s.core.queue;
      VisibleLonger(run, i, u, u + 1, sector, s.core.worker.item.Cached().At(sector));
    } else {
      VisibleNow(run, i, u + 1, sector);
    }
  }

  /** The disk sector a read finds when nothing was queued over it, as the last landing left it. */
  lemma {:induction false} DiskIsVisible(run: Run, i: nat, t: nat, sector: nat)
    requires ValidFromInit(run) && i <= t < |run.states| && sector < |run.First().limits.base|
    requires Newest(Protocol.Cached(run.states[i].core.queue), sector).None? && !Overtaken(run, i, t, sector)
    ensures |run.states[t].core.disk| == |run.First().limits.base|
    ensures VisibleBetween(run, i, t, sector, run.states[t].core.disk[sector])
  {
    InvEverywhere(run, i);
    var u := FindLastLanding(run, i, t, sector);
    if u == -1 {
      DiskStays(run, i, t, sector);
      ViewAt(run.states[i].core, sector);
      assert View(run.states[i].core)[sector] == run.states[t].core.disk[sector];
    } else {
      InvEverywhere(run, u);
      QueueExplainedAlong(run, i, u, sector);
      LandedIsVisible(run, i, u, sector);
      InvEverywhere(run, u + 1);
      DiskStays(run, u + 1, t, sector);
      VisibleLonger(run, i, u + 1, t, sector, run.states[t].core.disk[sector]);
    }
  }

  /** Each sector of a read equals what readers could see at some moment between its look
      at the queue and its look at the disk, whatever submitters, worker, lower device and
      cache switches do meanwhile, unless the last thing that landed there was overtaken. */
  lemma {:induction false} SectorLinearizable(run: Run, i: nat, t: nat, sector: nat)
    requires ValidFromInit(run) && i <= t < |run.states| && sector < |run.First().limits.base|
    requires !Overtaken(run, i, t, sector)
    ensures |run.states[t].core.disk| == |run.First().limits.base|
    ensures VisibleBetween(run, i, t, sector, ReadSector(run, i, t, sector))
  {
    InvEverywhere(run, i);
    InvEverywhere(run, t);
    if Newest(Protocol.Cached(run.states[i].core.queue), sector).Some? {
      ViewAt(run.states[i].core, sector);
      assert View(run.states[i].core)[sector] == ReadSector(run, i, t, sector);
    } else {
      DiskIsVisible(run, i, t, sector);
    }
  }

  /** Every write to `sector` so far has been admitted to the lazy path. */
  ghost predicate AdmittedLazily(c: Core, sector: int) {
    forall item :: item in c.inserted && item.Effect().Covers(sector) ==> item.Lazy()
  }

  lemma {:induction false} LazyNeverOvertaken(run: Run, u: nat, t: nat, sector: nat)
    requires ValidFromInit(run) && u <= t < |run.states| && AdmittedLazily(run.states[t].core, sector)
    ensures NotOvertaken(run.states[u].core, sector)
  {
    InvEverywhere(run, u);
    InsertedGrows(run, u, t);
    var c := run.states[u].core;
    if c.worker.Issued? {
      assert c.inserted[|c.removed|] == c.worker.item;
      assert run.states[t].core.inserted[|c.removed|] == c.worker.item;
    }
  }

  /** A disk whose writes are all deferred: every read of it is linearizable, with no
      condition on the interleaving. */
  lemma {:induction false} LazySectorLinearizable(run: Run, i: nat, t: nat, sector: nat)
    requires ValidFromInit(run) && i <= t < |run.states| && sector < |run.First().limits.base|
    requires AdmittedLazily(run.states[t].core, sector)
    ensures |run.states[t].core.disk| == |run.First().limits.base|
    ensures VisibleBetween(run, i, t, sector, ReadSector(run, i, t, sector))
  {
    forall u: nat | LastLanding(run, i, t, sector, u) ensures NotOvertaken(run.states[u].core, sector) {
      LazyNeverOvertaken(run, u, t, sector);
    }
    SectorLinearizable(run, i, t, sector);
  }

  /** The queue as the read path walks it. */
  function Entries(queue: seq<Item>): (es: seq<Entry>)
    ensures |es| == |queue|
    ensures forall k :: 0 <= k < |queue| ==>
                          es[k] == Entry(queue[k].isWrite, ByteWrite(Write(queue[k].offset, queue[k].data)))
  {
    seq(|queue|, k requires 0 <= k < |queue| => Entry(queue[k].isWrite, ByteWrite(Write(queue[k].offset, queue[k].data))))
  }

  lemma {:induction false} EntriesCached(queue: seq<Item>)
    ensures CachedWrites(Entries(queue)) == ByteWrites(Protocol.Cached(queue))
  {
    assert forall w: Write<Sector> :: w.data == [] ==> Bytes(w.data) == [];
  }

  lemma {:induction false} EntryIsAligned(item: Item)
    ensures ByteWrite(Write(item.offset, item.data)).offset % SECTOR == 0
    ensures |ByteWrite(Write(item.offset, item.data)).data| % SECTOR == 0
  {
  }

  /** In every state of every run the queue satisfies what the read path relies on. */
  lemma {:induction false} EntriesQueued(run: Run, i: nat, k: nat, offset: int, length: int)
    requires ValidFromInit(run) && i < |run.states| && k < |run.states[i].core.queue|
    requires Aligned(offset, length)
    ensures Entries(run.states[i].core.queue)[k].Queued(SECTOR * |run.First().limits.base|)
    ensures Entries(run.states[i].core.queue)[k].SharesSectors(offset, length)
  {
    InvEverywhere(run, i);
    var c := run.states[i].core;
    assert c.queue[k] == c.inserted[|c.removed| + k];
    EntryIsAligned(c.queue[k]);
    AlignedShares(Entries(c.queue)[k], offset, length);
  }

  /** What the lower device returns to a read whose gap reads reach sector `c` in state `when[c]`. */
  function LowerAt(run: Run, when: seq<nat>): (d: Disk)
    requires forall c :: 0 <= c < |when| ==> when[c] < |run.states| && |run.states[when[c]].core.disk| == |when|
    ensures |d| == |when|
    ensures forall c :: 0 <= c < |when| ==> d[c] == run.states[when[c]].core.disk[c]
  {
    seq(|when|, c requires 0 <= c < |when| => run.states[when[c]].core.disk[c])
  }

  /** The bytes of one sector of the expected buffer. */
  lemma {:induction false} ExpectedSector(lower: Disk, queue: seq<Item>, first: nat, count: nat, buffer: seq<byte>, c: nat)
    requires first <= c < first + count <= |lower|
    requires buffer == Expected(Bytes(lower), Entries(queue), SECTOR * first, SECTOR * count)
    ensures var newest := Newest(Protocol.Cached(queue), c);
            buffer[SECTOR * (c - first)..SECTOR * (c - first) + SECTOR] == if newest.Some? then newest.value else lower[c]
  {
    var newest := Newest(Protocol.Cached(queue), c);
    var v := if newest.Some? then newest.value else lower[c];
    EntriesCached(queue);
    ReplayAt(lower, Protocol.Cached(queue), c);
    forall k | 0 <= k < SECTOR ensures buffer[SECTOR * (c - first) + k] == v[k] {
      ReplayBytes(lower, Protocol.Cached(queue), c, k);
    }
  }

  /** The buffer QCacheRead leaves behind when it walks the queue of state `i` and its
      lower reads reach the sectors in the states `when`: each sector was visible, as a
      whole, at one moment in between. */
  lemma {:induction false} ReadLinearizable(run: Run, i: nat, when: seq<nat>, first: nat, count: nat, buffer: seq<byte>, c: nat)
    requires ValidFromInit(run) && i < |run.states| && |when| == |run.First().limits.base|
    requires forall c :: 0 <= c < |when| ==> i <= when[c] < |run.states| && |run.states[when[c]].core.disk| == |when|
    requires first <= c < first + count <= |when|
    requires buffer == Expected(Bytes(LowerAt(run, when)), Entries(run.states[i].core.queue), SECTOR * first, SECTOR * count)
    requires !Overtaken(run, i, when[c], c)
    ensures exists u :: i <= u <= when[c] && c < |run.states[u].core.disk|
                        && buffer[SECTOR * (c - first)..SECTOR * (c - first) + SECTOR] == View(run.states[u].core)[c]
  {
    SectorLinearizable(run, i, when[c], c);
    ExpectedSector(LowerAt(run, when), run.states[i].core.queue, first, count, buffer, c);
  }
}
