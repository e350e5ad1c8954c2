/** The count a read is completed with when part of it came from the queue. */
module ReadReply {
  import opened Bitmaps
  import opened Sectors
  import Read = ReadPath
  import opened Scatter

  /** Lower request i was built for gap i, and a successful one transfers all of it. */
  predicate InFull(lower: seq<Lower>, gaps: seq<Read.Gap>) {
    && |lower| <= |gaps|
    && forall i :: 0 <= i < |lower| && lower[i].Done() && lower[i].status >= 0 ==> lower[i].information == SECTOR * gaps[i].bits
  }

  lemma {:induction false} SumOfGaps(lower: seq<Lower>, gaps: seq<Read.Gap>)
    requires InFull(lower, gaps) && |lower| == |gaps|
    requires forall l :: l in lower ==> l.Over? && l.status >= 0
    ensures Sum(Contributes, lower) == SECTOR * Read.GapSectors(gaps)
  {
    if lower != [] {
      var n := |lower| - 1;
      assert lower[n] in lower;
      SumOfGaps(lower[..n], gaps[..n]);
    }
  }

  lemma {:induction false} CountSetZero(bits: seq<bool>)
    ensures CountSet(bits) == 0 <==> true !in bits
  {
    if bits != [] {
      CountSetZero(bits[..|bits| - 1]);
      assert bits == bits[..|bits| - 1] + [bits[|bits| - 1]];
    }
  }

  /** A scattered read that succeeds reports the sectors read from below and not those
      found in the queue: exactly the length of the read minus what the bitmap marks, which
      is the full length just when nothing was found in the queue. */
  lemma {:induction false} MixedReadReportsGapsOnly(run: Run, k: nat, bits: seq<bool>, gaps: seq<Read.Gap>)
    requires ValidFromInit(run) && k < |run.states| && run.states[k].replies != []
    requires run.states[0].wanted == |gaps| && Read.GapsUpTo(bits, gaps, |bits|)
    requires InFull(run.states[k].lower, gaps) && run.states[k].replies[0].0 >= 0
    ensures run.states[k].replies[0].1 == SECTOR * Read.GapSectors(gaps) == SECTOR * |bits| - SECTOR * CountSet(bits)
    ensures run.states[k].replies[0].1 == SECTOR * |bits| <==> true !in bits
  {
    InvEverywhere(run, k);
    FinalReply(run, k);
    SumOfGaps(run.states[k].lower, gaps);
    Read.GapSectorsComplement(bits, gaps);
    CountSetZero(bits);
  }

  /** How a split read ends: one lower request for every gap, and the outcome of the loop. */
  ghost predicate SplitAs(run: Run, k: nat, gaps: seq<Read.Gap>, allBuilt: bool) {
    && ValidFromInit(run) && k < |run.states| && run.states[k].replies != []
    && |run.states[k].lower| == |gaps| && (run.states[k].buildFailed <==> !allBuilt)
    && InFull(run.states[k].lower, gaps)
  }

  /** The read is completed with success and `count` bytes: by the read routine itself, by
      the lower device that got the whole of it, or at the end of a split read. */
  ghost predicate Reports(r: Read.ReadResult, sectors: nat, run: Run, k: nat, count: int) {
    match r
    case Forwarded => false
    case Completed(status, information) => status == Read.Success && count == information
    case PassedDown => count == SECTOR * sectors
    case Scattered(gaps, allBuilt) =>
      SplitAs(run, k, gaps, allBuilt) && run.states[k].replies[0].0 >= 0 && count == run.states[k].replies[0].1
  }

  lemma {:induction false} SplitCount(run: Run, k: nat, covered: seq<bool>, gaps: seq<Read.Gap>, allBuilt: bool, kernel: Read.Kernel)
    requires SplitAs(run, k, gaps, allBuilt) && run.states[k].replies[0].0 >= 0
    requires Read.ScatteredAs(Read.Scattered(gaps, allBuilt), covered, kernel)
    ensures run.states[k].replies[0].1 == SECTOR * |covered| - SECTOR * CountSet(covered)
  {
    InvEverywhere(run, k);
    FinalReply(run, k);
    MixedReadReportsGapsOnly(run, k, covered, gaps);
  }

  /** Over all exits of QCacheRead: what a successful read reports, which is its length if
      and only if all of it or nothing of it came from the queue. */
  lemma {:induction false} ReportedCount(r: Read.ReadResult, any: bool, covered: seq<bool>, kernel: Read.Kernel, run: Run, k: nat, count: int)
    requires Read.LeftAs(r, any, covered, SECTOR * |covered|, kernel) && (true in covered ==> any)
    requires Reports(r, |covered|, run, k, count)
    ensures count == SECTOR * |covered| - if true in covered && false in covered then SECTOR * CountSet(covered) else 0
    ensures count == SECTOR * |covered| <==> true !in covered || false !in covered
  {
    CountSetZero(covered);
    if r.Scattered? {
      SplitCount(run, k, covered, r.gaps, r.allBuilt, kernel);
    }
  }

  lemma {:induction false} SecondSectorOpen()
    ensures Read.GapsUpTo([true, false], [Read.Gap(1, 1)], 2)
  {
    var gaps := [Read.Gap(1, 1)];
    forall k ensures Read.InSomeGap(gaps, k) <==> k == 1 {
      assert gaps[0].index <= k < gaps[0].End() <==> k == 1;
    }
  }

  /** The one lower read has been sent and has transferred its sector. */
  function Transferred(lower: Lower, issuer: Issuer, count: int): State {
    State(1, issuer, [lower], Fields(count, STATUS_SUCCESS, SECTOR), false, false, [])
  }

  lemma {:induction false} OneTransferred() returns (run: Run)
    ensures ValidFromInit(run) && run.states[0].wanted == 1
    ensures run.steps == [Build, Send, Record(0, STATUS_SUCCESS, SECTOR)]
    ensures run.Last() == Transferred(Recorded(STATUS_SUCCESS, SECTOR), Leaving, 2)
  {
    run := Run([State(1, Looping, [], Fields(1, STATUS_SUCCESS, 0), false, false, [])], []);
    run := Take(run, Build);
    assert run.Last() == State(1, Calling, [Built], Fields(2, STATUS_SUCCESS, 0), false, false, []);
    run := Take(run, Send);
    assert run.Last() == State(1, Leaving, [Sent], Fields(2, STATUS_SUCCESS, 0), false, false, []);
    run := Take(run, Record(0, STATUS_SUCCESS, SECTOR));
  }

  /** A read of two sectors of which the first came from the queue is completed with
      success and 512 bytes. */
  lemma {:induction false} HalfReported() returns (run: Run)
    ensures ValidFromInit(run) && run.states[0].wanted == 1
    ensures run.steps == [Build, Send, Record(0, STATUS_SUCCESS, SECTOR), Drop(0), DropIssuer, DestroyIssuer]
    ensures run.Last().replies == [(STATUS_SUCCESS, 512)]
    ensures Read.GapsUpTo([true, false], [Read.Gap(1, 1)], 2) && InFull(run.Last().lower, [Read.Gap(1, 1)])
  {
    run := OneTransferred();
    run := Take(run, Drop(0));
    assert run.Last() == Transferred(Over(STATUS_SUCCESS, SECTOR), Leaving, 1);
    run := Take(run, DropIssuer);
    assert run.Last() == Transferred(Over(STATUS_SUCCESS, SECTOR), Destroying, 0);
    run := Take(run, DestroyIssuer);
    SecondSectorOpen();
  }
}
