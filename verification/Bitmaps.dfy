/** The bitmap routines the read path uses, over one bool per sector. */
module Bitmaps {

  /** The longest run of clear bits that starts at the first clear bit from `from` on. */
  ghost predicate NextClearRun(bits: seq<bool>, from: int, index: int, count: int) {
    && 0 <= from <= index < index + count <= |bits|
    && (forall k :: from <= k < index ==> bits[k])
    && (forall k :: index <= k < index + count ==> !bits[k])
    && (index + count == |bits| || bits[index + count])
  }

  /** What a search from `from` on reports: the next clear run, or that there is none. */
  ghost predicate Found(bits: seq<bool>, from: int, index: int, count: int) {
    if count > 0 then NextClearRun(bits, from, index, count) else 0 <= from <= |bits| && forall k :: from <= k < |bits| ==> bits[k]
  }

  function CountSet(bits: seq<bool>): (n: nat)
    ensures n <= |bits|
  {
    if bits == [] then 0 else CountSet(bits[..|bits| - 1]) + if bits[|bits| - 1] then 1 else 0
  }

  lemma {:induction false} CountSetUpTo(bits: seq<bool>, k: nat)
    requires k <= |bits|
    ensures (forall i :: k <= i < |bits| ==> bits[i]) ==> CountSet(bits) == CountSet(bits[..k]) + |bits| - k
    ensures (forall i :: k <= i < |bits| ==> !bits[i]) ==> CountSet(bits) == CountSet(bits[..k])
  {
    if k == |bits| {
      assert bits[..k] == bits;
    } else {
      var shorter := bits[..|bits| - 1];
      CountSetUpTo(shorter, k);
      assert shorter[..k] == bits[..k];
    }
  }

  method SetBits(bits: array<bool>, start: nat, count: nat)
    requires start + count <= bits.Length
    modifies bits
    ensures forall k :: 0 <= k < bits.Length ==>
                          bits[k] == (start <= k < start + count || old(bits[k]))
  {
    for k := start to start + count
      invariant forall j :: 0 <= j < bits.Length ==> bits[j] == (start <= j < k || old(bits[j]))
    {
      bits[k] := true;
    }
  }

  method FindNextForwardRunClear(bits: array<bool>, from: nat) returns (count: nat, index: nat)
    requires from <= bits.Length
    ensures Found(bits[..], from, index, count)
  {
    index, count := from, 0;
    while index < bits.Length && bits[index]
      invariant from <= index <= bits.Length
      invariant forall k :: from <= k < index ==> bits[k]
    {
      index := index + 1;
    }
    while index + count < bits.Length && !bits[index + count]
      invariant index + count <= bits.Length
      invariant count == 0 ==> index == bits.Length || !bits[index]
      invariant forall k :: index <= k < index + count ==> !bits[k]
    {
      count := count + 1;
    }
  }

  method FindFirstRunClear(bits: array<bool>) returns (count: nat, index: nat)
    ensures Found(bits[..], 0, index, count)
  {
    count, index := FindNextForwardRunClear(bits, 0);
  }
}
