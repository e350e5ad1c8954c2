/** Disks in bytes and in sectors.  The lower device is atomic per sector, so the
    queue protocol works on sectors; the read path copies bytes. */
module Sectors {
  import opened Overlay

  const SECTOR: nat := 512

  newtype byte = b: int | 0 <= b < 256

  type Sector = s: seq<byte> | |s| == SECTOR witness seq(SECTOR, i => 0)

  /** The bytes of a run of sectors. */
  function Bytes(d: seq<Sector>): (b: seq<byte>)
    ensures |b| == SECTOR * |d|
    ensures forall c, k :: 0 <= c < |d| && 0 <= k < SECTOR ==>
                             0 <= SECTOR * c + k < |b| && b[SECTOR * c + k] == d[c][k]
  {
    seq(SECTOR * |d|, i requires 0 <= i < SECTOR * |d| => d[i / SECTOR][i % SECTOR])
  }

  function ByteWrite(w: Write<Sector>): Write<byte> {
    Write(SECTOR * w.offset, Bytes(w.data))
  }

  function ByteWrites(ws: seq<Write<Sector>>): (r: seq<Write<byte>>)
    ensures |r| == |ws|
    ensures forall i :: 0 <= i < |ws| ==> r[i] == ByteWrite(ws[i])
  {
    seq(|ws|, i requires 0 <= i < |ws| => ByteWrite(ws[i]))
  }

  lemma {:induction false} ByteWriteCovers(w: Write<Sector>, c: nat, k: nat)
    requires k < SECTOR
    ensures ByteWrite(w).Covers(SECTOR * c + k) <==> w.Covers(c)
    ensures w.Covers(c) ==> ByteWrite(w).At(SECTOR * c + k) == w.At(c)[k]
  {
    var byteWrite := ByteWrite(w);
    assert byteWrite.offset == SECTOR * w.offset && byteWrite.End() == SECTOR * w.End();
    if w.Covers(c) {
      var at := c - w.offset;
      assert Bytes(w.data)[SECTOR * at + k] == w.data[at][k];
      assert SECTOR * c + k - byteWrite.offset == SECTOR * at + k;
    }
  }

  /** Replaying a queue of sector writes byte by byte or sector by sector is the same. */
  lemma {:induction false} ReplayBytes(d: seq<Sector>, ws: seq<Write<Sector>>, c: nat, k: nat)
    requires c < |d| && k < SECTOR
    ensures Replay(Bytes(d), ByteWrites(ws))[SECTOR * c + k] == Replay(d, ws)[c][k]
  {
    if ws != [] {
      var n := |ws| - 1;
      ReplayBytes(d, ws[..n], c, k);
      assert ByteWrites(ws)[..n] == ByteWrites(ws[..n]);
      ByteWriteCovers(ws[n], c, k);
    }
  }
}
