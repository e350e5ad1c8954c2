/** The 64-bit and 32-bit arithmetic of the read and write dispatch routines. */
module Arithmetic {
  const TWO_63: int := 0x8000_0000_0000_0000
  const TWO_64: int := 0x1_0000_0000_0000_0000
  const TWO_32: int := 0x1_0000_0000

  function Max(a: int, b: int): int { if a > b then a else b }

  function Min(a: int, b: int): int { if a < b then a else b }

  predicate IsInt64(x: int) { -TWO_63 <= x < TWO_63 }

  predicate IsUlong(x: int) { 0 <= x < TWO_32 }

  /** A value cast to LONGLONG: two's complement wrap-around. */
  function Int64(x: int): (r: int)
    ensures IsInt64(r) && (r - x) % TWO_64 == 0
    ensures IsInt64(x) ==> r == x
  {
    (x + TWO_63) % TWO_64 - TWO_63
  }

  /** A value cast to ULONG. */
  function Ulong(x: int): (r: int)
    ensures IsUlong(r) && (r - x) % TWO_32 == 0
    ensures IsUlong(x) ==> r == x
  {
    x % TWO_32
  }

  /** The range test of QCacheRead and QCacheWrite, on a wrapping sum. */
  predicate Accepts(offset: int, length: int, size: int) {
    var highest := Int64(offset + length);
    !(offset >= size || highest <= 0 || highest > size)
  }

  /** What the test is for. */
  predicate Inside(offset: int, length: int, size: int) {
    0 <= offset < size && offset + length <= size
  }

  /** For every offset and length, the test accepts exactly the ranges that end
      inside the disk and past byte 0: an overflowing sum never slips through. */
  lemma {:induction false} AcceptsExactly(offset: int, length: int, size: int)
    requires IsInt64(offset) && 0 < length && IsUlong(length) && 0 <= size && IsInt64(size)
    ensures Accepts(offset, length, size) <==> -length < offset && offset + length <= size
  {
    if offset + length >= TWO_63 {
      assert Int64(offset + length) == offset + length - TWO_64;
    }
  }

  /** The test means "inside the disk" unless the range straddles byte 0. */
  lemma {:induction false} AcceptsMeansInside(offset: int, length: int, size: int)
    requires IsInt64(offset) && 0 < length && IsUlong(length) && 0 <= size && IsInt64(size)
    ensures (Accepts(offset, length, size) <==> Inside(offset, length, size))
            <==> (offset >= 0 || offset + length <= 0 || offset + length > size)
  {
    AcceptsExactly(offset, length, size);
  }

  /** A range that straddles byte 0 is accepted although it starts before the disk. */
  lemma {:induction false} AcceptsNegativeOffset()
    ensures Accepts(-512, 1024, 4096) && !Inside(-512, 1024, 4096)
  {
    assert Int64(512) == 512;
  }

  /** The bitmap allocation of QCacheRead holds every 32-bit word RtlInitializeBitMap
      may touch, and byte positions rebuilt from bit positions fit a ULONG. */
  lemma {:induction false} BitmapFits(length: int, index: int, bits: int)
    requires IsUlong(length)
    requires 0 <= index && 0 <= bits && index + bits <= length / 512
    ensures 4 * ((length / 512 + 31) / 32) <= length / 512 + 4 - 1
    ensures Ulong(512 * index) == 512 * index && Ulong(512 * bits) == 512 * bits
    ensures 512 * index + 512 * bits <= length
  {
  }
}
