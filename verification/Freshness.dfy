/** What a caller may count on once a write has been acknowledged: from then on neither the
    view nor any read shows anything older. */
module Freshness {
  import opened Completion
  import opened Durability
  import opened Linearizability
  import opened Ordering
  import opened Overlay
  import opened Protocol
  import opened ReadPath
  import opened Sectors
  import opened Views

  /** `v` is what insertion `n` or a newer one puts into `sector`. */
  ghost predicate NotOlder(inserted: seq<Item>, n: nat, sector: int, v: Sector) {
    exists k :: n <= k < |inserted| && inserted[k].Effect().Covers(sector) && inserted[k].Effect().At(sector) == v
  }

  lemma {:induction false} NotOlderLater(inserted: seq<Item>, later: seq<Item>, n: nat, sector: int, v: Sector)
    requires inserted <= later && NotOlder(inserted, n, sector, v)
    ensures NotOlder(later, n, sector, v)
  {
    var k :| n <= k < |inserted| && inserted[k].Effect().Covers(sector) && inserted[k].Effect().At(sector) == v;
    assert later[k] == inserted[k];
  }

  /** Insertion `n` has been acknowledged to its caller, or may be: it is lazy, or has been carried out. */
  predicate Settled(c: Core, n: nat) {
    n < |c.inserted| && (c.inserted[n].Lazy() || CarriedOut(c, n))
  }

  lemma {:induction false} QueuedItem(c: Core, base: Disk, j: nat)
    requires QueueInv(c, base) && j < |c.queue|
    ensures |c.removed| + j < |c.inserted| && c.inserted[|c.removed| + j] == c.queue[j]
    ensures if c.queue[j].Lazy() then c.queue[j].Cached() == c.queue[j].Effect() else c.queue[j].Cached().data == []
  {
    assert c.inserted[|c.removed| + j] == c.queue[j];
    CachedIsEffect(c.queue[j], base);
  }

  /** The newest queued lazy write over a sector comes from insertion `n` or a newer one,
      if insertion `n` is settled. */
  lemma {:induction false} NewestNotOlder(s: State, n: nat, sector: nat)
    requires Inv(s) && Settled(s.core, n) && s.core.inserted[n].Effect().Covers(sector)
    ensures var newest := Newest(Protocol.Cached(s.core.queue), sector);
            if newest.Some? then NotOlder(s.core.inserted, n, sector, newest.value) else CarriedOut(s.core, n)
  {
    var c, base := s.core, s.limits.base;
    var ws := Protocol.Cached(c.queue);
    NewestSome(ws, sector);
    if n >= |c.removed| && c.inserted[n].Lazy() {
      var j := n - |c.removed|;
      assert c.inserted[n] == c.queue[j];
      QueuedItem(c, base, j);
      var k := NewestFrom(ws, j, sector);
      QueuedItem(c, base, k);
    } else if Newest(ws, sector).Some? {
      var j :| 0 <= j < |ws| && ws[j].Covers(sector);
      var k := NewestFrom(ws, j, sector);
      QueuedItem(c, base, k);
    }
  }

  /** In every reachable state readers see a settled write or a newer one, whatever
      ordinary writes are on their way. */
  lemma {:induction false} ViewNotOlder(s: State, n: nat, sector: nat)
    requires Inv(s) && sector < |s.limits.base|
    requires Settled(s.core, n) && s.core.inserted[n].Effect().Covers(sector)
    ensures NotOlder(s.core.inserted, n, sector, View(s.core)[sector])
  {
    ViewAt(s.core, sector);
    NewestNotOlder(s, n, sector);
    if Newest(Protocol.Cached(s.core.queue), sector).None? {
      DiskFromOrNewer(s, n, sector);
    }
  }

  lemma {:induction false} SettledForever(run: Run, j: nat, k: nat, n: nat)
    requires ValidFromInit(run) && j <= k < |run.states| && Settled(run.states[j].core, n)
    ensures Settled(run.states[k].core, n) && run.states[k].core.inserted[n] == run.states[j].core.inserted[n]
  {
    InsertedGrows(run, j, k);
    if CarriedOut(run.states[j].core, n) {
      InvEverywhere(run, j);
      CarriedOutForever(run, j, k, n);
    }
  }

  /** From the moment insertion `n` is settled, in every later state of every run. */
  lemma {:induction false} ViewNeverOlder(run: Run, j: nat, k: nat, n: nat, sector: nat)
    requires ValidFromInit(run) && j <= k < |run.states| && sector < |run.First().limits.base|
    requires Settled(run.states[j].core, n) && run.states[j].core.inserted[n].Effect().Covers(sector)
    ensures |View(run.states[k].core)| == |run.First().limits.base|
    ensures NotOlder(run.states[k].core.inserted, n, sector, View(run.states[k].core)[sector])
  {
    InvEverywhere(run, k);
    SettledForever(run, j, k, n);
    ViewNotOlder(run.states[k], n, sector);
  }

  /** The same for a read, which looks at queue and disk at different moments: if it looks
      at the queue after insertion `n` has been settled, it returns that write or a newer
      one, whatever lands or is inserted while it runs. */
  lemma {:induction false} ReadNeverOlder(run: Run, j: nat, i: nat, t: nat, n: nat, sector: nat)
    requires ValidFromInit(run) && j <= i <= t < |run.states| && sector < |run.First().limits.base|
    requires Settled(run.states[j].core, n) && run.states[j].core.inserted[n].Effect().Covers(sector)
    ensures |run.states[t].core.disk| == |run.First().limits.base|
    ensures NotOlder(run.states[t].core.inserted, n, sector, ReadSector(run, i, t, sector))
  {
    InvEverywhere(run, i);
    InvEverywhere(run, t);
    SettledForever(run, j, i, n);
    NewestNotOlder(run.states[i], n, sector);
    InsertedGrows(run, i, t);
    if Newest(Protocol.Cached(run.states[i].core.queue), sector).Some? {
      NotOlderLater(run.states[i].core.inserted, run.states[t].core.inserted, n, sector, ReadSector(run, i, t, sector));
    } else {
      CarriedOutForever(run, i, t, n);
      DiskFromOrNewer(run.states[t], n, sector);
    }
  }

  /** A request that has been completed and has an item is settled. */
  lemma {:induction false} CompletedMeansSettled(run: Run, j: nat, n: nat)
    requires ValidFromInit(run) && j < |run.states| && n < |run.states[j].core.inserted|
    requires run.states[j].callers.completed[run.states[j].core.inserted[n].id] > 0
    ensures Settled(run.states[j].core, n)
  {
    InvEverywhere(run, j);
    CompletionAlong(run, j);
    var c := run.states[j].core;
    if !c.inserted[n].Lazy() && n >= |c.removed| {
      assert c.queue[n - |c.removed|] == c.inserted[n] && c.inserted[n] in c.queue;
      assert c.worker == Replied(c.inserted[n]) && c.inserted[|c.removed|] == c.queue[0] == c.inserted[n];
    }
  }

  /** Read your acknowledged writes: once the request of insertion `n` has been completed,
      the bytes that QCacheRead leaves for any of its sectors, in any read that looks at the
      queue from then on, are those of that write or of one inserted after it. */
  lemma {:induction false} AcknowledgedWritesAreRead(run: Run, j: nat, i: nat, when: seq<nat>, first: nat, count: nat, buffer: seq<byte>, n: nat, c: nat)
    requires ValidFromInit(run) && j <= i < |run.states| && |when| == |run.First().limits.base|
    requires n < |run.states[j].core.inserted| && run.states[j].core.inserted[n].Effect().Covers(c)
    requires run.states[j].callers.completed[run.states[j].core.inserted[n].id] > 0
    requires forall c :: 0 <= c < |when| ==> i <= when[c] < |run.states| && |run.states[when[c]].core.disk| == |when|
    requires first <= c < first + count <= |when|
    requires buffer == Expected(Bytes(LowerAt(run, when)), Entries(run.states[i].core.queue), SECTOR * first, SECTOR * count)
    ensures exists v: Sector :: buffer[SECTOR * (c - first)..SECTOR * (c - first) + SECTOR] == v
                                && NotOlder(run.states[when[c]].core.inserted, n, c, v)
  {
    CompletedMeansSettled(run, j, n);
    ReadNeverOlder(run, j, i, when[c], n, c);
    ExpectedSector(LowerAt(run, when), run.states[i].core.queue, first, count, buffer, c);
    assert buffer[SECTOR * (c - first)..SECTOR * (c - first) + SECTOR] == ReadSector(run, i, when[c], c);
  }
}
