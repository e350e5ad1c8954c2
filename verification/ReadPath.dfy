/** QCacheRead: the pending writes are copied over the caller's buffer and the
    sectors they leave open are read from the lower device in separate requests. */
module ReadPath {
  import opened Arithmetic
  import opened Bitmaps
  import opened Overlay
  import opened Sectors

  /** A queue item as the read path sees it. */
  datatype Entry = Entry(isWrite: bool, write: Write<byte>) {
    function Cached(): Write<byte> { if isWrite then write else Write(0, []) }

    /** Does this item hold byte `b` of a read at `offset`? */
    predicate Hits(offset: int, b: int) { Cached().Covers(offset + b) }

    function ByteAt(offset: int, b: int): byte
      requires Hits(offset, b)
    {
      Cached().At(offset + b)
    }

    /** What admission guarantees about a queued write. */
    predicate Queued(size: int) {
      isWrite ==> write.End() <= size && (write.data == [] ==> write.offset == 0)
    }

    /** The condition of the overlay loop. */
    predicate Overlaps(offset: int, length: int) {
      isWrite && write.offset < offset + length && write.End() > offset
    }

    /** Where the part shared with the read starts and ends. */
    function Start(offset: int): int { Max(write.offset, offset) }

    function Stop(offset: int, length: int): int { Min(write.End(), offset + length) }

    /** Does the loop set bit `k` of the read's bitmap for this item? */
    predicate Marks(offset: int, length: int, k: int) {
      && Overlaps(offset, length)
      && (Start(offset) - offset) / SECTOR <= k < (Start(offset) - offset) / SECTOR + (Stop(offset, length) - Start(offset)) / SECTOR
    }

    /** The shared part consists of whole sectors, as it does if the write is aligned. */
    predicate SharesSectors(offset: int, length: int) {
      Overlaps(offset, length) ==> Start(offset) % SECTOR == 0 && Stop(offset, length) % SECTOR == 0
    }
  }

  function CachedWrites(queue: seq<Entry>): (ws: seq<Write<byte>>)
    ensures |ws| == |queue|
    ensures forall i :: 0 <= i < |queue| ==> ws[i] == queue[i].Cached()
  {
    seq(|queue|, i requires 0 <= i < |queue| => queue[i].Cached())
  }

  function SectorOf(b: int): int { b / SECTOR }

  /** The newest queued value of byte `b` of a read at `offset`. */
  ghost function Pending(queue: seq<Entry>, offset: int, b: int): Option<byte> {
    Newest(CachedWrites(queue), offset + b)
  }

  /** Which sectors of a read some queued write covers. */
  ghost function Coverage(queue: seq<Entry>, offset: nat, length: nat): (bits: seq<bool>)
    ensures |bits| == length / SECTOR
  {
    seq(length / SECTOR, k => Pending(queue, offset, SECTOR * k).Some?)
  }

  /** Does some queued write set bit `k` of a read's bitmap, and does any overlap the read? */
  predicate Marked(queue: seq<Entry>, offset: int, length: int, k: int) {
    queue != [] && (queue[|queue| - 1].Marks(offset, length, k) || Marked(queue[..|queue| - 1], offset, length, k))
  }

  predicate Overlapped(queue: seq<Entry>, offset: int, length: int) {
    queue != [] && (queue[|queue| - 1].Overlaps(offset, length) || Overlapped(queue[..|queue| - 1], offset, length))
  }

  /** How many queued writes overlap a read, and how many bytes they share with it. */
  function RequestsFromCache(queue: seq<Entry>, offset: int, length: int): nat {
    if queue == [] then 0
    else
      var last := queue[|queue| - 1];
      RequestsFromCache(queue[..|queue| - 1], offset, length) + if last.Overlaps(offset, length) then 1 else 0
  }

  function BytesFromCache(queue: seq<Entry>, offset: int, length: int): int {
    if queue == [] then 0
    else
      var last := queue[|queue| - 1];
      BytesFromCache(queue[..|queue| - 1], offset, length)
      + if last.Overlaps(offset, length) then Min(last.write.End(), offset + length) - Max(last.write.offset, offset) else 0
  }

  /** The bitmap after the overlay loop. */
  ghost function Bitmap(queue: seq<Entry>, offset: int, length: nat): (bits: seq<bool>)
    ensures |bits| == length / SECTOR
    ensures forall k :: 0 <= k < |bits| ==> bits[k] == Marked(queue, offset, length, k)
  {
    seq(length / SECTOR, k => Marked(queue, offset, length, k))
  }

  /** What the code makes of a buffer: marked sectors keep what was copied over them, the
      others come from below. */
  ghost function Merged(lower: seq<byte>, queue: seq<Entry>, offset: nat, before: seq<byte>): (m: seq<byte>)
    requires offset + |before| <= |lower|
    ensures |m| == |before|
    ensures forall b :: 0 <= b < |m| ==>
                          m[b] == if !Marked(queue, offset, |before|, SectorOf(b)) then lower[offset + b]
                                  else if Pending(queue, offset, b).Some? then Pending(queue, offset, b).value else before[b]
  {
    seq(|before|, b requires 0 <= b < |before| =>
                    if !Marked(queue, offset, |before|, SectorOf(b)) then lower[offset + b]
                    else if Pending(queue, offset, b).Some? then Pending(queue, offset, b).value else before[b])
  }

  /** All queued writes share whole sectors with the read. */
  predicate WholeSectors(queue: seq<Entry>, offset: int, length: int) {
    forall i :: 0 <= i < |queue| ==> queue[i].SharesSectors(offset, length)
  }

  /** What the caller should see: the whole queue replayed over the disk. */
  ghost function Expected(lower: seq<byte>, queue: seq<Entry>, offset: nat, length: nat): seq<byte>
    requires offset + length <= |lower|
  {
    Replay(lower, CachedWrites(queue))[offset..offset + length]
  }

  datatype Status = Success | InvalidParameter | EndOfMedia | InsufficientResources | RemoveLockFailed

  datatype Gap = Gap(index: nat, bits: nat) {
    function End(): nat { index + bits }
  }

  /** How QCacheRead leaves the request. */
  datatype ReadResult =
    | Forwarded                                      // size unknown, not handled here
    | Completed(status: Status, information: nat)
    | PassedDown                                     // the lower device reads the whole range
    | Scattered(gaps: seq<Gap>, allBuilt: bool)      // one lower read for each gap

  /** What the kernel answers during one call. */
  datatype Kernel = Kernel(
    bufferMapped: bool, bitmapAllocated: bool, removeLockTaken: bool, scatterAllocated: bool,
    builds: nat)                                     // how many BuildIrp calls succeed before one fails

  class ReadStatistics {
    var readRequests: int
    var readBytes: int
    var largestReadSize: int
    var readRequestsRerouted: int
    var readBytesRerouted: int
    var readRequestsFromCache: int
    var readBytesFromCache: int
    var readBytesFromOriginal: int
    var splitReads: int
  }

  /** A clear run that cannot be extended on either side. */
  ghost predicate MaximalGap(bits: seq<bool>, g: Gap) {
    && 0 < g.bits && g.End() <= |bits|
    && (forall k :: g.index <= k < g.End() ==> !bits[k])
    && (g.index == 0 || bits[g.index - 1])
    && (g.End() == |bits| || bits[g.End()])
  }

  /** Maximal clear runs, pairwise apart and in order. */
  ghost predicate DisjointGaps(bits: seq<bool>, gaps: seq<Gap>) {
    && (forall i :: 0 <= i < |gaps| ==> MaximalGap(bits, gaps[i]))
    && (forall i, j :: 0 <= i < j < |gaps| ==> gaps[i].End() < gaps[j].index)
  }

  predicate InSomeGap(gaps: seq<Gap>, k: int) {
    exists i :: 0 <= i < |gaps| && gaps[i].index <= k < gaps[i].End()
  }

  /** The gaps are exactly the clear sectors below `limit`. */
  ghost predicate GapsUpTo(bits: seq<bool>, gaps: seq<Gap>, limit: int) {
    && DisjointGaps(bits, gaps)
    && forall k :: 0 <= k < |bits| ==> (InSomeGap(gaps, k) <==> !bits[k] && k < limit)
  }

  function GapSectors(gaps: seq<Gap>): nat {
    if gaps == [] then 0 else GapSectors(gaps[..|gaps| - 1]) + gaps[|gaps| - 1].bits
  }

  /** Where the n-th gap starts, or the end of the bitmap after the last one. */
  function GapStart(bits: seq<bool>, gaps: seq<Gap>, n: nat): nat
    requires n <= |gaps|
  {
    if n < |gaps| then gaps[n].index else |bits|
  }

  /** Where the gap before the n-th one ends. */
  function GapEndBefore(gaps: seq<Gap>, n: nat): nat
    requires n <= |gaps|
  {
    if n == 0 then 0 else gaps[n - 1].End()
  }

  /** Between two gaps everything is covered. */
  lemma {:induction false} CoveredBetweenGaps(bits: seq<bool>, gaps: seq<Gap>, n: nat)
    requires GapsUpTo(bits, gaps, |bits|) && n <= |gaps|
    ensures GapEndBefore(gaps, n) <= GapStart(bits, gaps, n) <= |bits|
    ensures forall k :: GapEndBefore(gaps, n) <= k < GapStart(bits, gaps, n) ==> bits[k]
    ensures n > 0 ==> forall k :: gaps[n - 1].index <= k < gaps[n - 1].End() ==> !bits[k]
  {
    assert n > 0 ==> MaximalGap(bits, gaps[n - 1]);
    assert n < |gaps| ==> MaximalGap(bits, gaps[n]);
    forall k | GapEndBefore(gaps, n) <= k < GapStart(bits, gaps, n) ensures bits[k] {
      assert !InSomeGap(gaps, k);
    }
  }

  lemma {:induction false} CountSetStretch(bits: seq<bool>, a: nat, b: nat, c: nat)
    requires a <= b <= c <= |bits|
    requires forall k :: a <= k < b ==> !bits[k]
    requires forall k :: b <= k < c ==> bits[k]
    ensures CountSet(bits[..c]) == CountSet(bits[..a]) + c - b
  {
    CountSetUpTo(bits[..c], b);
    CountSetUpTo(bits[..b], a);
    assert bits[..c][..b] == bits[..b] && bits[..b][..a] == bits[..a];
  }

  lemma {:induction false} GapSectorsBelow(bits: seq<bool>, gaps: seq<Gap>, n: nat)
    requires GapsUpTo(bits, gaps, |bits|) && n <= |gaps|
    ensures GapStart(bits, gaps, n) <= |bits|
    ensures GapSectors(gaps[..n]) + CountSet(bits[..GapStart(bits, gaps, n)]) == GapStart(bits, gaps, n)
  {
    CoveredBetweenGaps(bits, gaps, n);
    if n == 0 {
      CountSetStretch(bits, 0, 0, GapStart(bits, gaps, 0));
    } else {
      GapSectorsBelow(bits, gaps, n - 1);
      CountSetStretch(bits, gaps[n - 1].index, gaps[n - 1].End(), GapStart(bits, gaps, n));
      assert gaps[..n][..n - 1] == gaps[..n - 1];
    }
  }

  /** The sectors read from below and the sectors found in the queue add up to the read. */
  lemma {:induction false} GapSectorsComplement(bits: seq<bool>, gaps: seq<Gap>)
    requires GapsUpTo(bits, gaps, |bits|)
    ensures GapSectors(gaps) + CountSet(bits) == |bits|
  {
    GapSectorsBelow(bits, gaps, |gaps|);
    assert gaps[..|gaps|] == gaps && bits[..|bits|] == bits;
  }

  /** Bit positions and byte positions of an aligned range agree. */
  lemma {:induction false} AlignedBit(b: nat, first: nat, count: nat)
    ensures first <= SectorOf(b) < first + count <==> SECTOR * first <= b < SECTOR * (first + count)
  {
  }

  method CopyMemory(target: array<byte>, at: nat, source: seq<byte>)
    requires at + |source| <= target.Length
    modifies target
    ensures forall b :: 0 <= b < target.Length ==>
                          target[b] == if at <= b < at + |source| then source[b - at] else old(target[b])
  {
    forall b | at <= b < at + |source| {
      target[b] := source[b - at];
    }
  }

  lemma {:induction false} HitsAreShared(entry: Entry, offset: nat, length: nat, size: int, b: nat)
    requires entry.Queued(size) && b < length
    ensures entry.Hits(offset, b) <==> entry.Overlaps(offset, length) && entry.Start(offset) <= offset + b < entry.Stop(offset, length)
  {
  }

  lemma {:induction false} WholeSectorsMarkHits(entry: Entry, offset: nat, length: nat, size: int, b: nat)
    requires offset % SECTOR == 0 && length % SECTOR == 0 && entry.Queued(size) && b < length
    requires entry.SharesSectors(offset, length)
    ensures entry.Marks(offset, length, SectorOf(b)) <==> entry.Hits(offset, b)
  {
    HitsAreShared(entry, offset, length, size, b);
    if entry.Overlaps(offset, length) {
      var first, count := (entry.Start(offset) - offset) / SECTOR, (entry.Stop(offset, length) - entry.Start(offset)) / SECTOR;
      AlignedBit(b, first, count);
    }
  }

  /** Two neighbouring bytes of one sector, one of them hit and one not, cannot both be marked rightly. */
  lemma {:induction false} Mismatch(entry: Entry, offset: nat, length: nat, size: int) returns (b: nat)
    requires offset % SECTOR == 0 && length % SECTOR == 0 && entry.Queued(size) && !entry.SharesSectors(offset, length)
    ensures b < length && !(entry.Marks(offset, length, SectorOf(b)) <==> entry.Hits(offset, b))
  {
    var start := entry.Start(offset) - offset;
    if start % SECTOR != 0 {
      HitsAreShared(entry, offset, length, size, start);
      HitsAreShared(entry, offset, length, size, start - 1);
      assert SectorOf(start - 1) == SectorOf(start);
      b := if entry.Marks(offset, length, SectorOf(start)) then start - 1 else start;
    } else {
      LastByteUnmarked(entry, offset, length, size);
      b := entry.Stop(offset, length) - offset - 1;
    }
  }

  lemma {:induction false} LastByteUnmarked(entry: Entry, offset: nat, length: nat, size: int)
    requires offset % SECTOR == 0 && length % SECTOR == 0 && entry.Queued(size) && entry.Overlaps(offset, length)
    requires (entry.Start(offset) - offset) % SECTOR == 0 && entry.Stop(offset, length) % SECTOR != 0
    ensures var b := entry.Stop(offset, length) - offset - 1;
            0 <= b < length && entry.Hits(offset, b) && !entry.Marks(offset, length, SectorOf(b))
  {
    var b := entry.Stop(offset, length) - offset - 1;
    HitsAreShared(entry, offset, length, size, b);
    var first, count := (entry.Start(offset) - offset) / SECTOR, (entry.Stop(offset, length) - entry.Start(offset)) / SECTOR;
    AlignedBit(b, first, count);
  }

  /** The bits mark exactly the bytes an item holds of an aligned read if and only if the
      part shared with the read consists of whole sectors.  Writes are not checked for that. */
  lemma {:induction false} MarksExactly(entry: Entry, offset: nat, length: nat, size: int)
    requires offset % SECTOR == 0 && length % SECTOR == 0 && entry.Queued(size)
    ensures (forall b :: 0 <= b < length ==> (entry.Marks(offset, length, SectorOf(b)) <==> entry.Hits(offset, b)))
            <==> entry.SharesSectors(offset, length)
  {
    if entry.SharesSectors(offset, length) {
      forall b | 0 <= b < length ensures entry.Marks(offset, length, SectorOf(b)) <==> entry.Hits(offset, b) {
        WholeSectorsMarkHits(entry, offset, length, size, b);
      }
    } else {
      var b := Mismatch(entry, offset, length, size);
    }
  }

  lemma {:induction false} AlignedShares(entry: Entry, offset: int, length: int)
    requires entry.write.offset % SECTOR == 0 && |entry.write.data| % SECTOR == 0 && Aligned(offset, length)
    ensures entry.SharesSectors(offset, length)
  {
  }

  lemma {:induction false} BitsInside(first: nat, count: nat, length: nat)
    requires IsUlong(length) && first + count <= length
    ensures first / SECTOR + count / SECTOR <= length / SECTOR
    ensures Ulong(first / SECTOR) == first / SECTOR && Ulong(count / SECTOR) == count / SECTOR
  {
  }

  lemma {:induction false} OverlapHits(entry: Entry, offset: nat, length: nat, size: int)
    requires entry.Queued(size) && length > 0
    ensures entry.Overlaps(offset, length) <==> exists b :: 0 <= b < length && entry.Hits(offset, b)
  {
    if entry.Overlaps(offset, length) {
      assert entry.Hits(offset, entry.Start(offset) - offset);
    }
  }

  /** The copy of the shared bytes. */
  method CopyShared(entry: Entry, offset: int, startPos: int, endPos: int, buffer: array<byte>, ghost size: int)
    requires entry.Queued(size) && 0 <= offset && entry.Overlaps(offset, buffer.Length)
    requires startPos == entry.Start(offset) && endPos == entry.Stop(offset, buffer.Length)
    modifies buffer
    ensures forall b :: 0 <= b < buffer.Length ==>
                          buffer[b] == if entry.Hits(offset, b) then entry.ByteAt(offset, b) else old(buffer[b])
  {
    CopyMemory(buffer, startPos - offset, entry.write.data[startPos - entry.write.offset..endPos - entry.write.offset]);
  }

  /** One turn of the overlay loop (under the queue lock). */
  method OverlayItem(entry: Entry, offset: int, length: int, ghost size: int,
                     buffer: array<byte>, bits: array<bool>, statistics: ReadStatistics)
    returns (overlaps: bool)
    requires 0 < length && IsUlong(length) && length % SECTOR == 0
    requires 0 <= offset && offset % SECTOR == 0 && offset + length <= size && IsInt64(size)
    requires entry.Queued(size)
    requires buffer.Length == length && bits.Length == length / SECTOR
    modifies buffer, bits, statistics`readRequestsFromCache, statistics`readBytesFromCache
    ensures overlaps == entry.Overlaps(offset, length)
    ensures forall b :: 0 <= b < length ==>
                          buffer[b] == if entry.Hits(offset, b) then entry.ByteAt(offset, b) else old(buffer[b])
    ensures forall k :: 0 <= k < bits.Length ==> bits[k] == (entry.Marks(offset, length, k) || old(bits[k]))
    ensures statistics.readRequestsFromCache == old(statistics.readRequestsFromCache) + if overlaps then 1 else 0
    ensures statistics.readBytesFromCache == old(statistics.readBytesFromCache) +
            if overlaps then entry.Stop(offset, length) - entry.Start(offset) else 0
  {
    var item := entry.write;
    OverlapHits(entry, offset, length, size);
    overlaps := entry.isWrite
    && item.offset < Int64(offset + length)
    && Int64(item.offset + |item.data|) > offset;
    if overlaps {
      var startPos := Max(item.offset, offset);
      var endPos := Min(Int64(item.offset + |item.data|), Int64(offset + length));
      CopyShared(entry, offset, startPos, endPos, buffer, size);
      BitsInside(startPos - offset, endPos - startPos, length);
      SetBits(bits, Ulong((startPos - offset) / SECTOR), Ulong((endPos - startPos) / SECTOR));
      statistics.readRequestsFromCache := statistics.readRequestsFromCache + 1;
      statistics.readBytesFromCache := statistics.readBytesFromCache + (endPos - startPos);
    }
  }

  /** The bitmap is that of `queue`, and the buffer has the newest bytes its items hold. */
  ghost predicate Overlaid(queue: seq<Entry>, offset: int, buffer: seq<byte>, bits: seq<bool>, before: seq<byte>) {
    && |buffer| == |before| == SECTOR * |bits|
    && (forall k :: 0 <= k < |bits| ==> bits[k] == Marked(queue, offset, |buffer|, k))
    && (forall b :: 0 <= b < |buffer| ==>
                      buffer[b] == if Pending(queue, offset, b).Some? then Pending(queue, offset, b).value else before[b])
  }

  lemma {:induction false} OverlayOneMore(queue: seq<Entry>, n: nat, offset: int, b: int)
    requires n < |queue|
    ensures Pending(queue[..n + 1], offset, b) ==
            if queue[n].Hits(offset, b) then Some(queue[n].ByteAt(offset, b)) else Pending(queue[..n], offset, b)
  {
    assert CachedWrites(queue[..n + 1]) == CachedWrites(queue[..n]) + [queue[n].Cached()];
    NewestAppend(CachedWrites(queue[..n]), queue[n].Cached(), offset + b);
  }

  lemma {:induction false} OverlaidOneMore(queue: seq<Entry>, n: nat, offset: nat, before: seq<byte>,
                        filled: seq<byte>, marked: seq<bool>, buffer: seq<byte>, bits: seq<bool>)
    requires n < |queue| && Overlaid(queue[..n], offset, filled, marked, before)
    requires |buffer| == |filled| && |bits| == |marked|
    requires forall b :: 0 <= b < |buffer| ==>
                           buffer[b] == if queue[n].Hits(offset, b) then queue[n].ByteAt(offset, b) else filled[b]
    requires forall k :: 0 <= k < |bits| ==> bits[k] == (queue[n].Marks(offset, |buffer|, k) || marked[k])
    ensures Overlaid(queue[..n + 1], offset, buffer, bits, before)
    ensures Overlapped(queue[..n + 1], offset, |buffer|) ==
            (queue[n].Overlaps(offset, |buffer|) || Overlapped(queue[..n], offset, |buffer|))
  {
    assert queue[..n + 1][..n] == queue[..n];
    forall b | 0 <= b < |buffer|
      ensures buffer[b] == if Pending(queue[..n + 1], offset, b).Some? then Pending(queue[..n + 1], offset, b).value else before[b]
    {
      OverlayOneMore(queue, n, offset, b);
      assert filled[b] == if Pending(queue[..n], offset, b).Some? then Pending(queue[..n], offset, b).value else before[b];
    }
  }

  /** The overlay loop. */
  method OverlayQueue(queue: seq<Entry>, offset: int, length: int, ghost size: int,
                      buffer: array<byte>, bits: array<bool>, statistics: ReadStatistics)
    returns (anyFromQueue: bool)
    requires 0 < length && IsUlong(length) && length % SECTOR == 0
    requires 0 <= offset && offset % SECTOR == 0 && offset + length <= size && IsInt64(size)
    requires forall i :: 0 <= i < |queue| ==> queue[i].Queued(size)
    requires buffer.Length == length && bits.Length == length / SECTOR
    requires forall k :: 0 <= k < bits.Length ==> !bits[k]
    modifies buffer, bits, statistics`readRequestsFromCache, statistics`readBytesFromCache
    ensures Overlaid(queue, offset, buffer[..], bits[..], old(buffer[..]))
    ensures anyFromQueue == Overlapped(queue, offset, length)
    ensures statistics.readRequestsFromCache == old(statistics.readRequestsFromCache) + RequestsFromCache(queue, offset, length)
    ensures statistics.readBytesFromCache == old(statistics.readBytesFromCache) + BytesFromCache(queue, offset, length)
  {
    anyFromQueue := false;
    for n := 0 to |queue|
      invariant Overlaid(queue[..n], offset, buffer[..], bits[..], old(buffer[..]))
      invariant anyFromQueue == Overlapped(queue[..n], offset, length)
      invariant statistics.readRequestsFromCache == old(statistics.readRequestsFromCache) + RequestsFromCache(queue[..n], offset, length)
      invariant statistics.readBytesFromCache == old(statistics.readBytesFromCache) + BytesFromCache(queue[..n], offset, length)
    {
      assert queue[..n + 1][..n] == queue[..n];
      ghost var filled, marked := buffer[..], bits[..];
      var overlaps := OverlayItem(queue[n], offset, length, size, buffer, bits, statistics);
      OverlaidOneMore(queue, n, offset, old(buffer[..]), filled, marked, buffer[..], bits[..]);
      anyFromQueue := anyFromQueue || overlaps;
    }
    assert queue[..|queue|] == queue;
  }

  lemma {:induction false} MarkedOverlaps(queue: seq<Entry>, offset: int, length: int, k: int)
    ensures Marked(queue, offset, length, k) ==> Overlapped(queue, offset, length)
  {
    if queue != [] {
      MarkedOverlaps(queue[..|queue| - 1], offset, length, k);
    }
  }

  // When what the code makes of the buffer is what the caller should see.

  /** The bits mark exactly the bytes some queued write holds. */
  ghost predicate MarksRight(queue: seq<Entry>, offset: nat, length: nat) {
    forall b :: 0 <= b < length ==> Marked(queue, offset, length, SectorOf(b)) == Pending(queue, offset, b).Some?
  }

  lemma {:induction false} MergedAt(lower: seq<byte>, queue: seq<Entry>, offset: nat, before: seq<byte>, b: nat)
    requires offset + |before| <= |lower| && b < |before|
    ensures Expected(lower, queue, offset, |before|)[b] ==
            if Pending(queue, offset, b).Some? then Pending(queue, offset, b).value else lower[offset + b]
  {
    ReplayAt(lower, CachedWrites(queue), offset + b);
  }

  lemma {:induction false} RightMarksMerge(lower: seq<byte>, queue: seq<Entry>, offset: nat, before: seq<byte>)
    requires offset + |before| <= |lower| && MarksRight(queue, offset, |before|)
    ensures Merged(lower, queue, offset, before) == Expected(lower, queue, offset, |before|)
  {
    forall b | 0 <= b < |before| ensures Merged(lower, queue, offset, before)[b] == Expected(lower, queue, offset, |before|)[b] {
      MergedAt(lower, queue, offset, before, b);
    }
  }

  /** A byte that is marked wrongly shows on some disk and some buffer. */
  lemma {:induction false} WrongMarkShows(queue: seq<Entry>, offset: nat, length: nat, b: nat) returns (lower: seq<byte>, before: seq<byte>)
    requires b < length && Marked(queue, offset, length, SectorOf(b)) != Pending(queue, offset, b).Some?
    ensures |lower| == offset + length && |before| == length
    ensures Merged(lower, queue, offset, before) != Expected(lower, queue, offset, length)
  {
    var other: byte := if Pending(queue, offset, b).Some? && Pending(queue, offset, b).value == 1 then 0 else 1;
    lower, before := seq(offset + length, _ => other), seq(length, _ => 1 - other);
    MergedAt(lower, queue, offset, before, b);
    assert Merged(lower, queue, offset, before)[b] != Expected(lower, queue, offset, length)[b];
  }

  /** The exact condition, for any queue: the buffer a read leaves is the whole queue
      replayed over the disk, on every disk and for every buffer, if and only if the bits
      mark exactly what the queue holds. */
  lemma {:induction false} MergedExactly(queue: seq<Entry>, offset: nat, length: nat)
    ensures (forall lower: seq<byte>, before: seq<byte> :: |lower| >= offset + length && |before| == length ==>
                                                             Merged(lower, queue, offset, before) == Expected(lower, queue, offset, length))
            <==> MarksRight(queue, offset, length)
  {
    if MarksRight(queue, offset, length) {
      forall lower: seq<byte>, before: seq<byte> | |lower| >= offset + length && |before| == length
        ensures Merged(lower, queue, offset, before) == Expected(lower, queue, offset, length)
      {
        RightMarksMerge(lower, queue, offset, before);
      }
    } else {
      var b :| 0 <= b < length && Marked(queue, offset, length, SectorOf(b)) != Pending(queue, offset, b).Some?;
      var lower, before := WrongMarkShows(queue, offset, length, b);
    }
  }

  lemma {:induction false} OneEntry(entry: Entry, offset: int, length: int, b: int)
    ensures Pending([entry], offset, b) == if entry.Hits(offset, b) then Some(entry.ByteAt(offset, b)) else None
    ensures Marked([entry], offset, length, SectorOf(b)) == entry.Marks(offset, length, SectorOf(b))
  {
    assert [entry][..0] == [] && [entry][..1] == [entry];
    OverlayOneMore([entry], 0, offset, b);
  }

  /** A queue of one write, of one sector's length, that starts in the middle of one: the
      read leaves in the first sector what the caller's buffer held before, and fetches the
      second from below although half of it is newer in the queue. */
  lemma {:induction false} UnalignedWriteIsMisread(data: seq<byte>, lower: seq<byte>, before: seq<byte>)
    requires |data| == SECTOR && |lower| >= 1024 && |before| == 1024
    ensures var queue := [Entry(true, Write(256, data))];
            && Merged(lower, queue, 0, before)[0] == before[0] && Expected(lower, queue, 0, 1024)[0] == lower[0]
            && Merged(lower, queue, 0, before)[512] == lower[512] && Expected(lower, queue, 0, 1024)[512] == data[256]
  {
    var entry := Entry(true, Write(256, data));
    OneEntry(entry, 0, 1024, 0);
    OneEntry(entry, 0, 1024, 512);
    MergedAt(lower, [entry], 0, before, 0);
    MergedAt(lower, [entry], 0, before, 512);
    assert !entry.Hits(0, 0) && entry.Hits(0, 512) && entry.ByteAt(0, 512) == data[256];
  }

  /** If every queued write shares whole sectors with the read, the bits are right. */
  lemma {:induction false} WholeSectorsMarkRight(queue: seq<Entry>, offset: nat, length: nat, size: int, b: nat)
    requires offset % SECTOR == 0 && length % SECTOR == 0 && b < length && WholeSectors(queue, offset, length)
    requires forall i :: 0 <= i < |queue| ==> queue[i].Queued(size)
    ensures Marked(queue, offset, length, SectorOf(b)) == Pending(queue, offset, b).Some?
    ensures Pending(queue, offset, b).Some? ==> Overlapped(queue, offset, length)
  {
    if queue != [] {
      var n := |queue| - 1;
      assert queue[..n + 1] == queue;
      WholeSectorsMarkRight(queue[..n], offset, length, size, b);
      WholeSectorsMarkHits(queue[n], offset, length, size, b);
      OverlayOneMore(queue, n, offset, b);
    }
  }

  /** Then the bitmap is the coverage of the read. */
  lemma {:induction false} WholeSectorsCover(queue: seq<Entry>, offset: nat, length: nat, size: int)
    requires offset % SECTOR == 0 && length % SECTOR == 0 && WholeSectors(queue, offset, length)
    requires forall i :: 0 <= i < |queue| ==> queue[i].Queued(size)
    ensures MarksRight(queue, offset, length) && Bitmap(queue, offset, length) == Coverage(queue, offset, length)
  {
    forall b | 0 <= b < length ensures Marked(queue, offset, length, SectorOf(b)) == Pending(queue, offset, b).Some? {
      WholeSectorsMarkRight(queue, offset, length, size, b);
    }
    forall k | 0 <= k < length / SECTOR ensures Bitmap(queue, offset, length)[k] == Coverage(queue, offset, length)[k] {
      assert SectorOf(SECTOR * k) == k;
    }
  }

  /** And a write that overlaps the read marks some of it. */
  lemma {:induction false} WholeSectorsOverlap(queue: seq<Entry>, offset: nat, length: nat, size: int)
    requires offset % SECTOR == 0 && length % SECTOR == 0 && length > 0 && WholeSectors(queue, offset, length)
    requires forall i :: 0 <= i < |queue| ==> queue[i].Queued(size)
    ensures Overlapped(queue, offset, length) <==> true in Bitmap(queue, offset, length)
  {
    if k :| 0 <= k < length / SECTOR && Bitmap(queue, offset, length)[k] {
      MarkedOverlaps(queue, offset, length, k);
    }
    if Overlapped(queue, offset, length) {
      var k := OverlapMarks(queue, offset, length, size);
      assert Bitmap(queue, offset, length)[k];
    }
  }

  lemma {:induction false} OverlapMarks(queue: seq<Entry>, offset: nat, length: nat, size: int) returns (k: nat)
    requires offset % SECTOR == 0 && length % SECTOR == 0 && length > 0 && WholeSectors(queue, offset, length)
    requires forall i :: 0 <= i < |queue| ==> queue[i].Queued(size)
    requires Overlapped(queue, offset, length)
    ensures k < length / SECTOR && Marked(queue, offset, length, k)
  {
    var last := queue[|queue| - 1];
    if last.Overlaps(offset, length) {
      OverlapHits(last, offset, length, size);
      var b :| 0 <= b < length && last.Hits(offset, b);
      WholeSectorsMarkHits(last, offset, length, size, b);
      k := SectorOf(b);
    } else {
      k := OverlapMarks(queue[..|queue| - 1], offset, length, size);
    }
  }

  /** One lower read, for the sectors of one gap. */
  method ReadGap(offset: int, gap: Gap, lower: seq<byte>, buffer: array<byte>)
    requires IsUlong(buffer.Length) && SECTOR * gap.End() <= buffer.Length
    requires 0 <= offset && offset + buffer.Length <= |lower| && IsInt64(|lower|)
    modifies buffer
    ensures forall b :: 0 <= b < buffer.Length ==>
                          buffer[b] == if gap.index <= SectorOf(b) < gap.End() then lower[offset + b] else old(buffer[b])
  {
    BitmapFits(buffer.Length, gap.index, gap.bits);
    var lowerOffset := Int64(offset + SECTOR * gap.index);
    var bufferOffset, bytes := Ulong(SECTOR * gap.index), Ulong(SECTOR * gap.bits);
    CopyMemory(buffer, bufferOffset, lower[lowerOffset..lowerOffset + bytes]);
    forall b | 0 <= b < buffer.Length
      ensures bufferOffset <= b < bufferOffset + bytes <==> gap.index <= SectorOf(b) < gap.End()
    {
      AlignedBit(b, gap.index, gap.bits);
    }
  }

  /** The sectors of the gaps hold what the lower device returned, the others are untouched. */
  ghost predicate Filled(gaps: seq<Gap>, offset: int, lower: seq<byte>, before: seq<byte>, after: seq<byte>) {
    && 0 <= offset && offset + |before| <= |lower|
    && |after| == |before|
    && forall b :: 0 <= b < |after| ==>
                     after[b] == if InSomeGap(gaps, SectorOf(b)) then lower[offset + b] else before[b]
  }

  lemma {:induction false} FillOneMore(gaps: seq<Gap>, gap: Gap, offset: nat, lower: seq<byte>,
                    before: seq<byte>, filled: seq<byte>, after: seq<byte>)
    requires offset + |before| <= |lower| && Filled(gaps, offset, lower, before, filled) && |after| == |filled|
    requires forall b :: 0 <= b < |after| ==>
                           after[b] == if gap.index <= SectorOf(b) < gap.End() then lower[offset + b] else filled[b]
    requires forall k :: InSomeGap(gaps + [gap], k) <==> InSomeGap(gaps, k) || gap.index <= k < gap.End()
    ensures Filled(gaps + [gap], offset, lower, before, after)
  {
  }

  /** Between two turns of the gap loop: everything clear below `limit` is in a gap. */
  ghost predicate GapsSoFar(bits: seq<bool>, gaps: seq<Gap>, limit: int) {
    && 0 <= limit <= |bits|
    && (limit == 0 || limit == |bits| || bits[limit])
    && (gaps == [] ==> limit == 0)
    && (forall i :: 0 <= i < |gaps| ==> gaps[i].End() <= limit)
    && GapsUpTo(bits, gaps, limit)
  }

  lemma {:induction false} ExtendGaps(bits: seq<bool>, gaps: seq<Gap>, limit: nat, gap: Gap)
    requires GapsSoFar(bits, gaps, limit) && NextClearRun(bits, limit, gap.index, gap.bits)
    ensures forall k :: InSomeGap(gaps + [gap], k) <==> InSomeGap(gaps, k) || gap.index <= k < gap.End()
    ensures GapsSoFar(bits, gaps + [gap], gap.End())
    ensures GapSectors(gaps + [gap]) == GapSectors(gaps) + gap.bits
  {
    var more := gaps + [gap];
    assert more[..|gaps|] == gaps;
    forall k ensures InSomeGap(more, k) <==> InSomeGap(gaps, k) || gap.index <= k < gap.End() {
      assert more[|gaps|] == gap;
      if i :| 0 <= i < |gaps| && gaps[i].index <= k < gaps[i].End() {
        assert more[i] == gaps[i];
      }
    }
    assert MaximalGap(bits, gap);
  }

  /** No clear sector is left beyond `limit`. */
  lemma {:induction false} LastGap(bits: seq<bool>, gaps: seq<Gap>, limit: nat)
    requires GapsSoFar(bits, gaps, limit) && forall k :: limit <= k < |bits| ==> bits[k]
    ensures GapsUpTo(bits, gaps, |bits|)
  {
  }

  /** One turn of the gap loop, after its request has been built. */
  method IssueGap(gaps: seq<Gap>, gap: Gap, offset: int, lower: seq<byte>, buffer: array<byte>, statistics: ReadStatistics,
                  ghost covered: seq<bool>, ghost limit: nat, ghost before: seq<byte>)
    requires IsUlong(buffer.Length) && buffer.Length == |before| == SECTOR * |covered|
    requires 0 <= offset && offset + buffer.Length <= |lower| && IsInt64(|lower|)
    requires GapsSoFar(covered, gaps, limit) && NextClearRun(covered, limit, gap.index, gap.bits)
    requires Filled(gaps, offset, lower, before, buffer[..])
    modifies buffer, statistics`readBytesFromOriginal
    ensures GapsSoFar(covered, gaps + [gap], gap.End())
    ensures Filled(gaps + [gap], offset, lower, before, buffer[..])
    ensures GapSectors(gaps + [gap]) == GapSectors(gaps) + gap.bits
    ensures statistics.readBytesFromOriginal == old(statistics.readBytesFromOriginal) + SECTOR * gap.bits
  {
    ghost var filled := buffer[..];
    statistics.readBytesFromOriginal := statistics.readBytesFromOriginal + SECTOR * gap.bits;
    ReadGap(offset, gap, lower, buffer);
    ExtendGaps(covered, gaps, limit, gap);
    FillOneMore(gaps, gap, offset, lower, before, filled, buffer[..]);
  }

  /** The gap loop.  `lower` is what the lower device returns for each byte, whenever
      it gets to it.  Issues one read for every maximal clear run, in order, until
      a request cannot be built. */
  method ReadGaps(offset: int, lower: seq<byte>, buffer: array<byte>, bits: array<bool>,
                  kernel: Kernel, statistics: ReadStatistics)
    returns (gaps: seq<Gap>, allBuilt: bool, ghost limit: nat)
    requires IsUlong(buffer.Length) && buffer.Length == SECTOR * bits.Length
    requires 0 <= offset && offset + buffer.Length <= |lower| && IsInt64(|lower|)
    modifies buffer, statistics`readBytesFromOriginal
    ensures GapsUpTo(bits[..], gaps, limit)
    ensures if allBuilt then limit == bits.Length else limit < bits.Length && |gaps| == kernel.builds
    ensures |gaps| <= kernel.builds
    ensures Filled(gaps, offset, lower, old(buffer[..]), buffer[..])
    ensures statistics.readBytesFromOriginal == old(statistics.readBytesFromOriginal) + SECTOR * GapSectors(gaps)
  {
    ghost var covered, before := bits[..], buffer[..];
    gaps, limit := [], 0;
    var clearBits, clearIndex := FindFirstRunClear(bits);
    while clearBits > 0 && |gaps| != kernel.builds
      invariant GapsSoFar(covered, gaps, limit) && |gaps| <= kernel.builds
      invariant Found(covered, limit, clearIndex, clearBits)
      invariant Filled(gaps, offset, lower, before, buffer[..])
      invariant statistics.readBytesFromOriginal == old(statistics.readBytesFromOriginal) + SECTOR * GapSectors(gaps)
      decreases bits.Length - limit
    {
      var gap := Gap(clearIndex, clearBits);
      IssueGap(gaps, gap, offset, lower, buffer, statistics, covered, limit, before);
      gaps, limit := gaps + [gap], gap.End();
      clearBits, clearIndex := FindNextForwardRunClear(bits, gap.End());
    }
    allBuilt := clearBits == 0;
    if allBuilt {
      LastGap(covered, gaps, limit);
      limit := bits.Length;
    }
  }

  /** Filling exactly the clear sectors of an overlaid buffer from below merges the two. */
  lemma {:induction false} FilledIsMerged(lower: seq<byte>, queue: seq<Entry>, offset: nat, bits: seq<bool>,
                       before: seq<byte>, overlaid: seq<byte>, filled: seq<byte>)
    requires |filled| == |overlaid| && offset + |filled| <= |lower|
    requires Overlaid(queue, offset, overlaid, bits, before)
    requires forall b :: 0 <= b < |filled| ==>
                           filled[b] == if bits[SectorOf(b)] then overlaid[b] else lower[offset + b]
    ensures filled == Merged(lower, queue, offset, before)
  {
    forall b | 0 <= b < |filled| ensures filled[b] == Merged(lower, queue, offset, before)[b] {
      assert bits[SectorOf(b)] == Marked(queue, offset, |overlaid|, SectorOf(b));
    }
  }

  predicate Aligned(offset: int, length: int) { offset % SECTOR == 0 && length % SECTOR == 0 }

  /** The gaps issued: all of them, or those before the first request that cannot be built. */
  ghost predicate ScatteredAs(r: ReadResult, covered: seq<bool>, kernel: Kernel)
    requires r.Scattered?
  {
    && |r.gaps| <= kernel.builds
    && if r.allBuilt then GapsUpTo(covered, r.gaps, |covered|)
       else |r.gaps| == kernel.builds && exists limit :: 0 <= limit < |covered| && GapsUpTo(covered, r.gaps, limit)
  }

  /** How a well-formed read with the bitmap `covered` is left, if `any` queued write overlaps it. */
  ghost predicate LeftAs(r: ReadResult, any: bool, covered: seq<bool>, length: nat, kernel: Kernel) {
    if !any then r.PassedDown?
    else if false !in covered then r == Completed(Success, length)
    else if !kernel.removeLockTaken then r == Completed(RemoveLockFailed, 0)
    else if !kernel.scatterAllocated then r == Completed(InsufficientResources, 0)
    else r.Scattered? && ScatteredAs(r, covered, kernel)
  }

  /** The results after which the caller's whole buffer has been filled. */
  predicate Fills(r: ReadResult, length: nat) {
    r.PassedDown? || r == Completed(Success, length) || (r.Scattered? && r.allBuilt)
  }

  /** What an exit adds to the counters of the bytes that come from below. */
  function Rerouted(r: ReadResult): nat { if r.PassedDown? then 1 else 0 }

  function FromOriginal(r: ReadResult): nat { if r.Scattered? then SECTOR * GapSectors(r.gaps) else 0 }

  function Splits(r: ReadResult): nat { if r.Scattered? && |r.gaps| > 1 then |r.gaps| else 0 }

  /** No sector is covered: the whole request goes down. */
  method PassDown(offset: int, queue: seq<Entry>, lower: seq<byte>, buffer: array<byte>, ghost covered: seq<bool>,
                  ghost before: seq<byte>, statistics: ReadStatistics)
    requires 0 <= offset && offset + buffer.Length <= |lower|
    requires Overlaid(queue, offset, buffer[..], covered, before) && true !in covered
    modifies buffer, statistics`readRequestsRerouted, statistics`readBytesRerouted
    ensures buffer[..] == Merged(lower, queue, offset, before)
    ensures statistics.readRequestsRerouted == old(statistics.readRequestsRerouted) + 1
    ensures statistics.readBytesRerouted == old(statistics.readBytesRerouted) + buffer.Length
  {
    ghost var overlaid := buffer[..];
    statistics.readRequestsRerouted := statistics.readRequestsRerouted + 1;
    statistics.readBytesRerouted := statistics.readBytesRerouted + buffer.Length;
    CopyMemory(buffer, 0, lower[offset..offset + buffer.Length]);
    FilledIsMerged(lower, queue, offset, covered, before, overlaid, buffer[..]);
  }

  /** Some sectors are covered and some are not. */
  method Scatter(offset: int, queue: seq<Entry>, lower: seq<byte>, buffer: array<byte>, bits: array<bool>,
                 ghost before: seq<byte>, kernel: Kernel, statistics: ReadStatistics)
    returns (r: ReadResult)
    requires IsUlong(buffer.Length) && 0 <= offset && offset + buffer.Length <= |lower| && IsInt64(|lower|)
    requires Overlaid(queue, offset, buffer[..], bits[..], before)
    modifies buffer, statistics`readBytesFromOriginal, statistics`splitReads
    ensures r.Scattered? && ScatteredAs(r, bits[..], kernel)
    ensures r.allBuilt ==> buffer[..] == Merged(lower, queue, offset, before)
    ensures statistics.readBytesFromOriginal == old(statistics.readBytesFromOriginal) + FromOriginal(r)
    ensures statistics.splitReads == old(statistics.splitReads) + Splits(r)
  {
    ghost var overlaid, covered := buffer[..], bits[..];
    var gaps, allBuilt, _ := ReadGaps(offset, lower, buffer, bits, kernel, statistics);
    if |gaps| > 1 {
      statistics.splitReads := statistics.splitReads + |gaps|;
    }
    if allBuilt {
      FilledIsMerged(lower, queue, offset, covered, before, overlaid, buffer[..]);
    }
    return Scattered(gaps, allBuilt);
  }

  /** After the queue lock has been dropped. */
  method Finish(offset: int, queue: seq<Entry>, lower: seq<byte>, buffer: array<byte>, bits: array<bool>,
                anyFromQueue: bool, ghost before: seq<byte>, kernel: Kernel, statistics: ReadStatistics)
    returns (r: ReadResult)
    requires 0 < buffer.Length && IsUlong(buffer.Length)
    requires 0 <= offset && offset + buffer.Length <= |lower| && IsInt64(|lower|)
    requires Overlaid(queue, offset, buffer[..], bits[..], before) && (true in bits[..] ==> anyFromQueue)
    modifies buffer, statistics`readRequestsRerouted, statistics`readBytesRerouted,
             statistics`readBytesFromOriginal, statistics`splitReads
    ensures LeftAs(r, anyFromQueue, bits[..], buffer.Length, kernel)
    ensures Fills(r, buffer.Length) ==> buffer[..] == Merged(lower, queue, offset, before)
    ensures statistics.readRequestsRerouted == old(statistics.readRequestsRerouted) + Rerouted(r)
    ensures statistics.readBytesRerouted == old(statistics.readBytesRerouted) + Rerouted(r) * buffer.Length
    ensures statistics.readBytesFromOriginal == old(statistics.readBytesFromOriginal) + FromOriginal(r)
    ensures statistics.splitReads == old(statistics.splitReads) + Splits(r)
  {
    ghost var covered := bits[..];
    if !anyFromQueue {
      PassDown(offset, queue, lower, buffer, covered, before, statistics);
      return PassedDown;
    }
    var clearBits, clearIndex := FindFirstRunClear(bits);
    if clearBits == 0 {
      FilledIsMerged(lower, queue, offset, covered, before, buffer[..], buffer[..]);
      return Completed(Success, buffer.Length);
    }
    assert !covered[clearIndex];
    if !kernel.removeLockTaken {
      return Completed(RemoveLockFailed, 0);
    }
    if !kernel.scatterAllocated {
      return Completed(InsufficientResources, 0);
    }
    r := Scatter(offset, queue, lower, buffer, bits, before, kernel, statistics);
  }

  /** A well-formed read, from the bitmap on. */
  method Serve(offset: int, length: int, queue: seq<Entry>, lower: seq<byte>,
               buffer: array<byte>, kernel: Kernel, statistics: ReadStatistics)
    returns (r: ReadResult)
    requires 0 < length && IsUlong(length) && Aligned(offset, length)
    requires 0 <= offset && offset + length <= |lower| && IsInt64(|lower|)
    requires forall i :: 0 <= i < |queue| ==> queue[i].Queued(|lower|)
    requires buffer.Length == length
    modifies buffer, statistics`readRequestsFromCache, statistics`readBytesFromCache,
             statistics`readRequestsRerouted, statistics`readBytesRerouted,
             statistics`readBytesFromOriginal, statistics`splitReads
    ensures LeftAs(r, Overlapped(queue, offset, length), Bitmap(queue, offset, length), length, kernel)
    ensures Fills(r, length) ==> buffer[..] == Merged(lower, queue, offset, old(buffer[..]))
    ensures statistics.readRequestsFromCache == old(statistics.readRequestsFromCache) + RequestsFromCache(queue, offset, length)
    ensures statistics.readBytesFromCache == old(statistics.readBytesFromCache) + BytesFromCache(queue, offset, length)
    ensures statistics.readRequestsRerouted == old(statistics.readRequestsRerouted) + Rerouted(r)
    ensures statistics.readBytesRerouted == old(statistics.readBytesRerouted) + Rerouted(r) * buffer.Length
    ensures statistics.readBytesFromOriginal == old(statistics.readBytesFromOriginal) + FromOriginal(r)
    ensures statistics.splitReads == old(statistics.splitReads) + Splits(r)
  {
    ghost var before := buffer[..];
    var bits := new bool[length / SECTOR](_ => false);
    var anyFromQueue := OverlayQueue(queue, offset, length, |lower|, buffer, bits, statistics);
    assert bits[..] == Bitmap(queue, offset, length);
    if k :| 0 <= k < bits.Length && bits[k] {
      MarkedOverlaps(queue, offset, length, k);
    }
    r := Finish(offset, queue, lower, buffer, bits, anyFromQueue, before, kernel, statistics);
  }

  /** The reads that come as far as the queue. */
  predicate Served(offset: int, length: int, size: int, kernel: Kernel) {
    size > 0 && length > 0 && Aligned(offset, length) && Inside(offset, length, size) && kernel.bufferMapped && kernel.bitmapAllocated
  }

  /** The whole dispatch routine: every exit, and what the buffer holds at it. */
  method Read(offset: int, length: int, size: int, queue: seq<Entry>, lower: seq<byte>,
              buffer: array<byte>, kernel: Kernel, statistics: ReadStatistics)
    returns (r: ReadResult)
    requires IsInt64(offset) && IsUlong(length) && 0 <= size && IsInt64(size)
    requires 0 <= offset || !Aligned(offset, length) || !Accepts(offset, length, size)
    requires forall i :: 0 <= i < |queue| ==> queue[i].Queued(size)
    requires |lower| == size && buffer.Length == length
    modifies buffer, statistics
    ensures if size == 0 then r == Forwarded
            else if length == 0 then r == Completed(Success, 0)
            else if !Aligned(offset, length) then r == Completed(InvalidParameter, 0)
            else if !Inside(offset, length, size) then r == Completed(EndOfMedia, 0)
            else if !kernel.bufferMapped || !kernel.bitmapAllocated then r == Completed(InsufficientResources, 0)
            else LeftAs(r, Overlapped(queue, offset, length), Bitmap(queue, offset, length), length, kernel)
    ensures size > 0 && length > 0 && Fills(r, length) ==>
              Inside(offset, length, size) && buffer[..] == Merged(lower, queue, offset, old(buffer[..]))
    ensures size == 0 || !Aligned(offset, length) || !Inside(offset, length, size) ==> buffer[..] == old(buffer[..])
    ensures !kernel.bufferMapped || !kernel.bitmapAllocated ==> buffer[..] == old(buffer[..])
    ensures statistics.largestReadSize == if size > 0 && length > 0 then Max(length, old(statistics.largestReadSize)) else old(statistics.largestReadSize)
    ensures statistics.readRequests == old(statistics.readRequests) + if size == 0 then 0 else 1
    ensures statistics.readBytes == old(statistics.readBytes) + if size == 0 then 0 else length
    ensures var served := Served(offset, length, size, kernel);
            && statistics.readRequestsFromCache == old(statistics.readRequestsFromCache) +
                                                   (if served then RequestsFromCache(queue, offset, length) else 0)
            && statistics.readBytesFromCache == old(statistics.readBytesFromCache) +
                                                if served then BytesFromCache(queue, offset, length) else 0
    ensures statistics.readRequestsRerouted == old(statistics.readRequestsRerouted) + Rerouted(r)
    ensures statistics.readBytesRerouted == old(statistics.readBytesRerouted) + Rerouted(r) * buffer.Length
    ensures statistics.readBytesFromOriginal == old(statistics.readBytesFromOriginal) + FromOriginal(r)
    ensures statistics.splitReads == old(statistics.splitReads) + Splits(r)
  {
    if size == 0 {
      return Forwarded;
    }
    statistics.readRequests := statistics.readRequests + 1;
    statistics.readBytes := statistics.readBytes + length;
    if length == 0 {
      return Completed(Success, 0);
    }
    if length > statistics.largestReadSize {
      statistics.largestReadSize := length;
    }
    if offset % SECTOR != 0 || length % SECTOR != 0 {
      return Completed(InvalidParameter, 0);
    }
    AcceptsExactly(offset, length, size);
    var highestByte := Int64(offset + length);
    if offset >= size || highestByte <= 0 || highestByte > size {
      return Completed(EndOfMedia, 0);
    }
    if !kernel.bufferMapped || !kernel.bitmapAllocated {
      return Completed(InsufficientResources, 0);
    }
    r := Serve(offset, length, queue, lower, buffer, kernel, statistics);
  }

  /** What that means where every queued write shares whole sectors with the read, as all
      aligned writes do: the exits are those of the coverage, and the buffer is the whole
      queue replayed over the disk. */
  lemma {:induction false} AlignedRead(r: ReadResult, offset: nat, length: nat, queue: seq<Entry>, lower: seq<byte>, before: seq<byte>, kernel: Kernel)
    requires length > 0 && Aligned(offset, length) && offset + length <= |lower| && |before| == length
    requires forall i :: 0 <= i < |queue| ==> queue[i].Queued(|lower|)
    requires WholeSectors(queue, offset, length)
    requires LeftAs(r, Overlapped(queue, offset, length), Bitmap(queue, offset, length), length, kernel)
    ensures LeftAs(r, true in Coverage(queue, offset, length), Coverage(queue, offset, length), length, kernel)
    ensures Merged(lower, queue, offset, before) == Expected(lower, queue, offset, length)
  {
    WholeSectorsCover(queue, offset, length, |lower|);
    WholeSectorsOverlap(queue, offset, length, |lower|);
    RightMarksMerge(lower, queue, offset, before);
  }
}
