/** Writes to a disk of cells, what replaying a queue of them does, and which
    write of a queue decides the value of a cell.  A cell is a byte in the read
    path and a sector in the queue protocol. */
module Overlay {

  datatype Option<+T> = None | Some(value: T)

  datatype Write<T> = Write(offset: nat, data: seq<T>) {
    function End(): nat { offset + |data| }

    predicate Covers(i: int) { offset <= i < End() }

    function At(i: int): T
      requires Covers(i)
    {
      data[i - offset]
    }
  }

  /** The disk after one complete write. */
  function Apply<T>(disk: seq<T>, w: Write<T>): (d: seq<T>)
    ensures |d| == |disk|
    ensures forall i :: 0 <= i < |disk| ==> d[i] == if w.Covers(i) then w.At(i) else disk[i]
  {
    seq(|disk|, i requires 0 <= i < |disk| => if w.Covers(i) then w.At(i) else disk[i])
  }

  /** The disk after a write of which only the cells in `landed` have arrived. */
  function Torn<T>(disk: seq<T>, w: Write<T>, landed: set<int>): (d: seq<T>)
    ensures |d| == |disk|
    ensures forall i :: 0 <= i < |disk| ==> d[i] == if w.Covers(i) && i in landed then w.At(i) else disk[i]
  {
    seq(|disk|, i requires 0 <= i < |disk| => if w.Covers(i) && i in landed then w.At(i) else disk[i])
  }

  /** The disk after all of `ws`, oldest first. */
  function Replay<T>(disk: seq<T>, ws: seq<Write<T>>): (d: seq<T>)
    ensures |d| == |disk|
  {
    if ws == [] then disk else Apply(Replay(disk, ws[..|ws| - 1]), ws[|ws| - 1])
  }

  /** What the newest write of `ws` that covers cell `i` puts there. */
  function Newest<T>(ws: seq<Write<T>>, i: int): Option<T> {
    if ws == [] then None
    else if ws[|ws| - 1].Covers(i) then Some(ws[|ws| - 1].At(i))
    else Newest(ws[..|ws| - 1], i)
  }

  lemma {:induction false} ReplayAt<T>(disk: seq<T>, ws: seq<Write<T>>, i: nat)
    requires i < |disk|
    ensures Replay(disk, ws)[i] == if Newest(ws, i).Some? then Newest(ws, i).value else disk[i]
  {
    if ws != [] {
      ReplayAt(disk, ws[..|ws| - 1], i);
    }
  }

  lemma {:induction false} NewestSome<T>(ws: seq<Write<T>>, i: int)
    ensures Newest(ws, i).Some? <==> exists k :: 0 <= k < |ws| && ws[k].Covers(i)
  {
    if ws != [] {
      NewestSome(ws[..|ws| - 1], i);
      if k :| 0 <= k < |ws| && ws[k].Covers(i) {
        assert k == |ws| - 1 || ws[..|ws| - 1][k].Covers(i);
      }
    }
  }

  lemma {:induction false} NewestAppend<T>(ws: seq<Write<T>>, w: Write<T>, i: int)
    ensures Newest(ws + [w], i) == if w.Covers(i) then Some(w.At(i)) else Newest(ws, i)
  {
    assert (ws + [w])[..|ws|] == ws;
  }

  lemma {:induction false} NewestConcat<T>(a: seq<Write<T>>, b: seq<Write<T>>, i: int)
    ensures Newest(a + b, i) == if Newest(b, i).Some? then Newest(b, i) else Newest(a, i)
  {
    if b == [] {
      assert a + b == a;
    } else {
      NewestConcat(a, b[..|b| - 1], i);
      assert (a + b)[..|a + b| - 1] == a + b[..|b| - 1];
    }
  }

  /** The oldest write matters only where nothing newer covers. */
  lemma {:induction false} NewestFront<T>(ws: seq<Write<T>>, i: int)
    requires ws != []
    ensures Newest(ws, i) ==
            if Newest(ws[1..], i).Some? then Newest(ws[1..], i)
            else if ws[0].Covers(i) then Some(ws[0].At(i)) else None
  {
    assert ws == ws[..1] + ws[1..];
    NewestConcat(ws[..1], ws[1..], i);
    assert ws[..1][..0] == [];
  }

  lemma {:induction false} ReplayAppend<T>(disk: seq<T>, ws: seq<Write<T>>, w: Write<T>)
    ensures Replay(disk, ws + [w]) == Apply(Replay(disk, ws), w)
  {
    assert (ws + [w])[..|ws|] == ws;
  }

  lemma {:induction false} ReplayConcat<T>(disk: seq<T>, a: seq<Write<T>>, b: seq<Write<T>>)
    ensures Replay(disk, a + b) == Replay(Replay(disk, a), b)
  {
    if b == [] {
      assert a + b == a;
    } else {
      ReplayConcat(disk, a, b[..|b| - 1]);
      assert (a + b)[..|a + b| - 1] == a + b[..|b| - 1];
    }
  }
}
