/** Every sector is a linearizable register, on every run: lazy and ordinary writes take
    effect in the order of their insertion, and a read right after the insertion its value
    comes from, whatever submitters, worker, lower device and cache switches do meanwhile. */
module Registers {
  import opened Durability
  import opened Freshness
  import opened Linearizability
  import opened Ordering
  import opened Overlay
  import opened Protocol
  import opened ReadPath
  import opened Sectors
  import opened Views

  // Which insertion a value comes from.

  /** The last write of `ws` that covers cell `i`, or -1. */
  function NewestIndex<T>(ws: seq<Write<T>>, i: int): (k: int)
    ensures -1 <= k < |ws|
    ensures k >= 0 ==> ws[k].Covers(i)
    ensures forall j :: k < j < |ws| ==> !ws[j].Covers(i)
  {
    if ws == [] then -1
    else if ws[|ws| - 1].Covers(i) then |ws| - 1
    else NewestIndex(ws[..|ws| - 1], i)
  }

  lemma {:induction false} NewestByIndex<T>(ws: seq<Write<T>>, i: int)
    ensures Newest(ws, i) == if NewestIndex(ws, i) >= 0 then Some(ws[NewestIndex(ws, i)].At(i)) else None
  {
    if ws != [] && !ws[|ws| - 1].Covers(i) {
      NewestByIndex(ws[..|ws| - 1], i);
    }
  }

  /** Insertion `n` has reached `sector` of the disk, if it writes there. */
  predicate Reached(c: Core, n: nat, sector: int) {
    CarriedOut(c, n) || (n == |c.removed| && c.worker.Issued? && sector in c.landed)
  }

  lemma {:induction false} ReachedStep(s: State, step: Step, n: nat, sector: int)
    requires Inv(s) && Enabled(s, step) && Reached(s.core, n, sector)
    ensures Reached(Do(s, step).core, n, sector)
  {
    if CarriedOut(s.core, n) {
      CarriedOutStep(s, step, n);
    }
  }

  lemma {:induction false} ReachedForever(run: Run, j: nat, k: nat, n: nat, sector: int)
    requires ValidFromInit(run) && j <= k < |run.states| && Reached(run.states[j].core, n, sector)
    ensures Reached(run.states[k].core, n, sector)
  {
    if j < k {
      ReachedForever(run, j, k - 1, n, sector);
      InvEverywhere(run, k - 1);
      assert run.Taken(k - 1);
      ReachedStep(run.states[k - 1], run.steps[k - 1], n, sector);
    }
  }

  /** Where a value comes from: insertion `k`, or the disk before any of them if `k` is -1. */
  ghost predicate ComesFrom(s: State, k: int, sector: nat, v: Sector)
    requires sector < |s.limits.base|
  {
    if k == -1 then v == s.limits.base[sector]
    else 0 <= k < |s.core.inserted| && s.core.inserted[k].Effect().Covers(sector) && v == s.core.inserted[k].Effect().At(sector)
  }

  /** The insertion that is on `sector` of the disk: the head if it has got there, otherwise
      the newest of those before it that write there, or none. */
  function DiskSource(c: Core, sector: int): (k: int)
    ensures -1 <= k <= |c.removed|
  {
    if c.queue != [] && c.queue[0].Effect().Covers(sector) && Reached(c, |c.removed|, sector) then |c.removed|
    else NewestIndex(Effects(c.removed), sector)
  }

  /** The disk without what has landed of the head. */
  lemma {:induction false} SettledAt(s: State, sector: nat)
    requires Inv(s) && sector < |s.limits.base|
    ensures var settled, k := Replay(s.limits.base, Effects(s.core.removed)), NewestIndex(Effects(s.core.removed), sector);
            settled[sector] == if k >= 0 then s.core.removed[k].Effect().At(sector) else s.limits.base[sector]
  {
    ReplayAt(s.limits.base, Effects(s.core.removed), sector);
    NewestByIndex(Effects(s.core.removed), sector);
  }

  lemma {:induction false} DiskComesFrom(s: State, sector: nat)
    requires Inv(s) && sector < |s.limits.base|
    ensures ComesFrom(s, DiskSource(s.core, sector), sector, s.core.disk[sector])
    ensures DiskSource(s.core, sector) >= 0 ==> Reached(s.core, DiskSource(s.core, sector), sector)
  {
    var c := s.core;
    SettledAt(s, sector);
    var k := NewestIndex(Effects(c.removed), sector);
    if k >= 0 {
      assert c.inserted[k] == c.removed[k];
    }
    if c.queue != [] {
      assert c.inserted[|c.removed|] == c.queue[0];
    }
  }

  /** What has reached the sector is not newer than what is on it. */
  lemma {:induction false} ReachedBelow(s: State, n: nat, sector: nat)
    requires Inv(s) && n < |s.core.inserted| && s.core.inserted[n].Effect().Covers(sector) && Reached(s.core, n, sector)
    ensures n <= DiskSource(s.core, sector)
  {
    var c := s.core;
    if n < |c.removed| {
      assert Effects(c.removed)[n] == c.inserted[n].Effect();
    } else {
      assert c.inserted[n] == c.queue[0];
    }
  }

  /** Readers see a lazy write, or something that has reached the disk. */
  lemma {:induction false} ViewHasSource(s: State, sector: nat) returns (k: int)
    requires Inv(s) && sector < |s.limits.base|
    ensures ComesFrom(s, k, sector, View(s.core)[sector])
    ensures k >= 0 ==> s.core.inserted[k].Lazy() || Reached(s.core, k, sector)
  {
    ViewAt(s.core, sector);
    k := NewestIndex(Protocol.Cached(s.core.queue), sector);
    NewestByIndex(Protocol.Cached(s.core.queue), sector);
    if k >= 0 {
      QueuedItem(s.core, s.limits.base, k);
      k := |s.core.removed| + k;
    } else {
      DiskComesFrom(s, sector);
      k := DiskSource(s.core, sector);
    }
  }

  /** The newest lazy insertion queued over the sector, or -1. */
  function QueueSource(c: Core, sector: int): (k: int)
    ensures k == -1 || k >= |c.removed|
  {
    var k := NewestIndex(Protocol.Cached(c.queue), sector);
    if k >= 0 then |c.removed| + k else -1
  }

  lemma {:induction false} QueueComesFrom(s: State, sector: nat)
    requires Inv(s)
    ensures var k := QueueSource(s.core, sector);
            k >= 0 ==> k < |s.core.inserted| && s.core.inserted[k].Lazy() && s.core.inserted[k].Effect().Covers(sector)
                       && Newest(Protocol.Cached(s.core.queue), sector) == Some(s.core.inserted[k].Effect().At(sector))
    ensures QueueSource(s.core, sector) == -1 <==> Newest(Protocol.Cached(s.core.queue), sector).None?
  {
    NewestByIndex(Protocol.Cached(s.core.queue), sector);
    var k := NewestIndex(Protocol.Cached(s.core.queue), sector);
    if k >= 0 {
      QueuedItem(s.core, s.limits.base, k);
    }
  }

  /** A lazy insertion that is still queued is not newer than the newest one queued. */
  lemma {:induction false} QueuedBelow(s: State, n: nat, sector: nat)
    requires Inv(s) && |s.core.removed| <= n < |s.core.inserted|
    requires s.core.inserted[n].Lazy() && s.core.inserted[n].Effect().Covers(sector)
    ensures n <= QueueSource(s.core, sector)
  {
    var j := n - |s.core.removed|;
    assert s.core.inserted[n] == s.core.queue[j];
    QueuedItem(s.core, s.limits.base, j);
    assert Protocol.Cached(s.core.queue)[j].Covers(sector);
  }

  // Reads.

  /** The insertion that a read of `sector` returns which looks at the queue in state `i`
      and at the disk in state `t`. */
  function Source(run: Run, i: nat, t: nat, sector: int): (k: int)
    requires i < |run.states| && t < |run.states|
    ensures k >= -1
  {
    var k := QueueSource(run.states[i].core, sector);
    if k >= 0 then k else DiskSource(run.states[t].core, sector)
  }

  /** The value of a read is that of its source, which has been inserted by then. */
  lemma {:induction false} ReadComesFrom(run: Run, i: nat, t: nat, sector: nat)
    requires ValidFromInit(run) && i <= t < |run.states| && sector < |run.First().limits.base|
    ensures |run.states[t].limits.base| == |run.states[t].core.disk| == |run.First().limits.base|
    ensures Source(run, i, t, sector) < |run.states[t].core.inserted|
    ensures ComesFrom(run.states[t], Source(run, i, t, sector), sector, ReadSector(run, i, t, sector))
  {
    InvEverywhere(run, i);
    InvEverywhere(run, t);
    QueueComesFrom(run.states[i], sector);
    if QueueSource(run.states[i].core, sector) >= 0 {
      InsertedGrows(run, i, t);
    } else {
      DiskComesFrom(run.states[t], sector);
    }
  }

  /** It is not older than anything that was settled when the read looked at the queue. */
  lemma {:induction false} SettledBelow(run: Run, i: nat, t: nat, n: nat, sector: nat)
    requires ValidFromInit(run) && i <= t < |run.states|
    requires Settled(run.states[i].core, n) && run.states[i].core.inserted[n].Effect().Covers(sector)
    ensures n <= Source(run, i, t, sector)
  {
    InvEverywhere(run, i);
    var c := run.states[i].core;
    if c.inserted[n].Lazy() && n >= |c.removed| {
      QueuedBelow(run.states[i], n, sector);
    } else if QueueSource(c, sector) < 0 {
      InvEverywhere(run, t);
      CarriedOutForever(run, i, t, n);
      ReachedBelow(run.states[t], n, sector);
    }
  }

  /** What was on the disk in state `t1` bounds every read that starts later. */
  lemma {:induction false} DiskSourceBelow(run: Run, t1: nat, i2: nat, t2: nat, sector: nat)
    requires ValidFromInit(run) && t1 <= i2 <= t2 < |run.states| && sector < |run.First().limits.base|
    ensures DiskSource(run.states[t1].core, sector) <= Source(run, i2, t2, sector)
  {
    InvEverywhere(run, t1);
    InvEverywhere(run, t2);
    DiskComesFrom(run.states[t1], sector);
    var n := DiskSource(run.states[t1].core, sector);
    if QueueSource(run.states[i2].core, sector) >= 0 {
      RemovedGrows(run, t1, i2);
    } else if n >= 0 {
      InsertedGrows(run, t1, t2);
      ReachedForever(run, t1, t2, n, sector);
      ReachedBelow(run.states[t2], n, sector);
    }
  }

  /** Successive reads never go back, on any run: of two reads one after the other the
      second returns the same insertion or a newer one. */
  lemma {:induction false} ReadsNeverGoBack(run: Run, i1: nat, t1: nat, i2: nat, t2: nat, sector: nat)
    requires ValidFromInit(run) && i1 <= t1 <= i2 <= t2 < |run.states| && sector < |run.First().limits.base|
    ensures Source(run, i1, t1, sector) <= Source(run, i2, t2, sector)
  {
    var n := QueueSource(run.states[i1].core, sector);
    if n >= 0 {
      InvEverywhere(run, i1);
      QueueComesFrom(run.states[i1], sector);
      SettledForever(run, i1, i2, n);
      SettledBelow(run, i2, t2, n, sector);
    } else {
      DiskSourceBelow(run, t1, i2, t2, sector);
    }
  }

  // Reads and writes together.

  /** A write to a sector, the `n`-th insertion, whose request arrives in step `arrives`; or
      a read of it that looks at the queue in state `i` and at the disk in state `t`. */
  datatype Operation =
    | WriteOf(n: nat, arrives: nat)
    | ReadOf(i: nat, t: nat)

  /** The operation belongs to the run. */
  ghost predicate Of(run: Run, op: Operation, sector: int) {
    && |run.states| == |run.steps| + 1
    && match op
       case WriteOf(n, arrives) =>
         && arrives < |run.steps| && run.steps[arrives].Arrive?
         && n < |run.Last().core.inserted| && run.Last().core.inserted[n].id == run.states[arrives].callers.nextId
         && run.Last().core.inserted[n].Effect().Covers(sector)
       case ReadOf(i, t) => i <= t < |run.states|
  }

  function Starts(op: Operation): nat { if op.WriteOf? then op.arrives else op.i }

  /** Has the operation ended by state `k`?  A write ends when its request is completed. */
  ghost predicate EndedBy(run: Run, op: Operation, k: nat)
    requires k < |run.states|
  {
    match op
    case WriteOf(n, _) =>
      n < |run.states[k].core.inserted| && run.states[k].callers.completed[run.states[k].core.inserted[n].id] > 0
    case ReadOf(_, t) => t <= k
  }

  /** The place of an operation in the order: writes by their insertion, a read between its
      source and the next insertion. */
  function Place(run: Run, op: Operation, sector: int): int
    requires op.ReadOf? ==> op.i < |run.states| && op.t < |run.states|
  {
    match op
    case WriteOf(n, _) => 2 * n
    case ReadOf(i, t) => 2 * Source(run, i, t, sector) + 1
  }

  /** A request that arrives in step `k` is inserted, if at all, behind all that has been
      inserted by then. */
  lemma {:induction false} ArrivalsGoBehind(run: Run, k: nat, n: nat)
    requires ValidFromInit(run) && k < |run.steps| && run.steps[k].Arrive?
    requires n < |run.Last().core.inserted| && run.Last().core.inserted[n].id == run.states[k].callers.nextId
    ensures |run.states[k].core.inserted| <= n
  {
    InvEverywhere(run, k);
    InsertedGrows(run, k, |run.states| - 1);
    assert forall m :: 0 <= m < |run.states[k].core.inserted| ==> run.Last().core.inserted[m] == run.states[k].core.inserted[m];
  }

  /** The order respects real time: an operation that has ended before another starts is
      before it, or, if both are reads, not after it. */
  lemma {:induction false} OrderIsRealTime(run: Run, a: Operation, b: Operation, sector: nat)
    requires ValidFromInit(run) && sector < |run.First().limits.base|
    requires Of(run, a, sector) && Of(run, b, sector) && EndedBy(run, a, Starts(b))
    ensures if a.ReadOf? && b.ReadOf? then Place(run, a, sector) <= Place(run, b, sector)
            else Place(run, a, sector) < Place(run, b, sector)
  {
    match (a, b) {
      case (ReadOf(i1, t1), ReadOf(i2, t2)) => ReadsNeverGoBack(run, i1, t1, i2, t2, sector);
      case (ReadOf(i, t), WriteOf(n, arrives)) =>
        ReadComesFrom(run, i, t, sector);
        InsertedGrows(run, t, arrives);
        ArrivalsGoBehind(run, arrives, n);
      case (WriteOf(m, _), WriteOf(n, arrives)) => ArrivalsGoBehind(run, arrives, n);
      case (WriteOf(n, _), ReadOf(i, t)) =>
        InsertedGrows(run, i, |run.states| - 1);
        CompletedMeansSettled(run, i, n);
        SettledBelow(run, i, t, n, sector);
    }
  }

  /** What a write puts into the sector. */
  function Written(run: Run, n: nat, sector: int): Sector
    requires run.states != [] && n < |run.Last().core.inserted| && run.Last().core.inserted[n].Effect().Covers(sector)
  {
    run.Last().core.inserted[n].Effect().At(sector)
  }

  /** In that order every read returns the last write before it, or the initial disk if
      there is none. */
  lemma {:induction false} ReadsTheLastWrite(run: Run, i: nat, t: nat, sector: nat)
    requires ValidFromInit(run) && i <= t < |run.states| && sector < |run.First().limits.base|
    ensures |run.states[t].core.disk| == |run.First().limits.base|
    ensures var k, place, writes := Source(run, i, t, sector), Place(run, ReadOf(i, t), sector), run.Last().core.inserted;
            && (k >= 0 ==> k < |writes| && writes[k].Effect().Covers(sector) && ReadSector(run, i, t, sector) == Written(run, k, sector))
            && (k == -1 ==> ReadSector(run, i, t, sector) == run.First().limits.base[sector])
            && 2 * k < place
            && forall n: nat :: n < |writes| && 2 * n < place ==> n <= k
  {
    ReadComesFrom(run, i, t, sector);
    InvEverywhere(run, t);
    InsertedGrows(run, t, |run.states| - 1);
  }

  /** The same of the bytes that QCacheRead leaves, with every gap read at its own moment:
      each sector of the buffer is the last write before the read in the order of that sector. */
  lemma {:induction false} BufferIsLastWrites(run: Run, i: nat, when: seq<nat>, first: nat, count: nat, buffer: seq<byte>, c: nat)
    requires ValidFromInit(run) && i < |run.states| && |when| == |run.First().limits.base|
    requires forall c :: 0 <= c < |when| ==> i <= when[c] < |run.states| && |run.states[when[c]].core.disk| == |when|
    requires first <= c < first + count <= |when|
    requires buffer == Expected(Bytes(LowerAt(run, when)), Entries(run.states[i].core.queue), SECTOR * first, SECTOR * count)
    ensures var k, sector := Source(run, i, when[c], c), buffer[SECTOR * (c - first)..SECTOR * (c - first) + SECTOR];
            if k == -1 then sector == run.First().limits.base[c]
            else k < |run.Last().core.inserted| && run.Last().core.inserted[k].Effect().Covers(c) && sector == Written(run, k, c)
  {
    ReadsTheLastWrite(run, i, when[c], c);
    ExpectedSector(LowerAt(run, when), run.states[i].core.queue, first, count, buffer, c);
    assert buffer[SECTOR * (c - first)..SECTOR * (c - first) + SECTOR] == ReadSector(run, i, when[c], c);
  }
}
