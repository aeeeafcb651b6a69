/**
 * The engine's copy-on-write `Vector<int>` as exercised by its unit tests.
 * A vector is a value (`seq<Int32>`); sharing and copy-on-write are not
 * observable in this model, so a copy never sees later writes to the
 * original and the other way round.
 */
module VectorModel {
  import opened Optional
  import SeqUtil

  newtype Int32 = x: int | -0x8000_0000 <= x < 0x8000_0000
  newtype Byte = x: int | 0 <= x < 0x100

  type Vector = seq<Int32>

  function Key(x: Int32): int { x as int }

  /** push_back and its alias append. */
  function PushBack(v: Vector, x: Int32): (r: Vector)
    ensures |r| == |v| + 1 && r[|v|] == x && r[..|v|] == v
  {
    v + [x]
  }

  function AppendArray(v: Vector, w: Vector): (r: Vector)
    ensures |r| == |v| + |w|
    ensures forall k :: 0 <= k < |v| ==> r[k] == v[k]
    ensures forall k :: 0 <= k < |w| ==> r[|v| + k] == w[k]
  {
    v + w
  }

  /** insert(pos, x): valid for 0 <= pos <= size; any other position leaves the vector unchanged. */
  function Insert(v: Vector, pos: int, x: Int32): (r: Vector)
    ensures 0 <= pos <= |v| ==>
              && |r| == |v| + 1 && r[pos] == x
              && (forall k :: 0 <= k < pos ==> r[k] == v[k])
              && (forall k :: pos < k < |r| ==> r[k] == v[k - 1])
    ensures !(0 <= pos <= |v|) ==> r == v
  {
    if 0 <= pos <= |v| then SeqUtil.InsertAt(v, pos, x) else v
  }

  /** ordered_insert: placed before the first strictly greater element. */
  function OrderedInsert(v: Vector, x: Int32): (r: Vector)
    ensures multiset(r) == multiset(v) + multiset{x}
    ensures SeqUtil.SortedBy(v, Key) ==> SeqUtil.SortedBy(r, Key)
    ensures var i := SeqUtil.InsertPosition(v, x, Key);
      r[i] == x && r[..i] == v[..i] && r[i + 1..] == v[i..]
  {
    SeqUtil.OrderedInsertBy(v, x, Key)
  }

  /** remove(i): ordered removal; an index out of range leaves the vector unchanged. */
  function Remove(v: Vector, i: int): (r: Vector)
    ensures 0 <= i < |v| ==>
              && |r| == |v| - 1
              && (forall k :: 0 <= k < i ==> r[k] == v[k])
              && (forall k :: i <= k < |r| ==> r[k] == v[k + 1])
    ensures !(0 <= i < |v|) ==> r == v
  {
    if 0 <= i < |v| then SeqUtil.RemoveAt(v, i) else v
  }

  /** find(x, from): first index at or after `from` holding `x`, or -1. */
  function Find(v: Vector, x: Int32, from: nat := 0): (r: int)
    ensures r == -1 <==> forall k :: from <= k < |v| ==> v[k] != x
    ensures r != -1 ==> from <= r < |v| && v[r] == x && forall k :: from <= k < r ==> v[k] != x
  {
    SeqUtil.FindFrom(v, x, from)
  }

  function Has(v: Vector, x: Int32): (b: bool)
    ensures b <==> x in v
  {
    Find(v, x) != -1
  }

  /** erase(x): removes the first occurrence of `x`, if any. */
  function Erase(v: Vector, x: Int32): (r: Vector)
    ensures multiset(r) == multiset(v) - multiset{x}
    ensures x !in v ==> r == v
  {
    var i := Find(v, x);
    if i == -1 then
      assert forall k :: 0 <= k < |v| ==> v[k] != x;
      assert multiset(v)[x] == 0;
      v
    else
      SeqUtil.RemoveAt(v, i)
  }

  function Get(v: Vector, i: int): (x: Int32)
    requires 0 <= i < |v|
  {
    v[i]
  }

  /** set(i, x): an index out of range is reported and ignored. */
  function Set(v: Vector, i: int, x: Int32): (r: Vector)
    ensures |r| == |v|
    ensures 0 <= i < |v| ==> r[i] == x
    ensures forall k :: 0 <= k < |v| && k != i ==> r[k] == v[k]
  {
    if 0 <= i < |v| then v[i := x] else v
  }

  function Fill(v: Vector, x: Int32): (r: Vector)
    ensures |r| == |v| && forall k :: 0 <= k < |r| ==> r[k] == x
  {
    seq(|v|, _ => x)
  }

  /**
   * resize(n): keeps the first min(n, size) elements. The contents of a grown
   * part are not pinned down by the engine for `int`, so they are an argument.
   */
  function Resize(v: Vector, n: nat, filler: Int32): (r: Vector)
    ensures |r| == n
    ensures forall k :: 0 <= k < n && k < |v| ==> r[k] == v[k]
  {
    if n <= |v| then v[..n] else v + seq(n - |v|, _ => filler)
  }

  function Clear(v: Vector): (r: Vector)
    ensures |r| == 0
  {
    []
  }

  /** Each element as four little-endian bytes of its two's-complement form. */
  function IntToBytes(x: Int32): (b: seq<Byte>)
    ensures |b| == 4
  {
    var u := if x < 0 then x as int + 0x1_0000_0000 else x as int;
    var q1 := u / 0x100;
    var q2 := q1 / 0x100;
    var q3 := q2 / 0x100;
    [(u % 0x100) as Byte, (q1 % 0x100) as Byte, (q2 % 0x100) as Byte, q3 as Byte]
  }

  function BytesToInt(b0: Byte, b1: Byte, b2: Byte, b3: Byte): Int32
  {
    var u := b0 as int + 0x100 * b1 as int + 0x1_0000 * b2 as int + 0x100_0000 * b3 as int;
    if u >= 0x8000_0000 then (u - 0x1_0000_0000) as Int32 else u as Int32
  }

  /** to_byte_array. */
  function ToByteArray(v: Vector): (r: seq<Byte>)
    ensures |r| == 4 * |v|
    ensures forall k :: 0 <= k < |v| ==> r[4 * k..4 * k + 4] == IntToBytes(v[k])
  {
    if |v| == 0 then []
    else
      var rest := ToByteArray(v[1..]);
      var r := IntToBytes(v[0]) + rest;
      assert forall k :: 1 <= k < |v| ==> r[4 * k..4 * k + 4] == rest[4 * (k - 1)..4 * (k - 1) + 4];
      r
  }

  function FromByteArray(b: seq<Byte>): (v: Vector)
    requires |b| % 4 == 0
    ensures |v| == |b| / 4
  {
    if |b| == 0 then [] else [BytesToInt(b[0], b[1], b[2], b[3])] + FromByteArray(b[4..])
  }

  /** Decoding the four bytes of an element gives the element back. */
  lemma {:induction false} IntBytesRoundTrip(x: Int32)
    ensures var b := IntToBytes(x); BytesToInt(b[0], b[1], b[2], b[3]) == x
  {
    var u := if x < 0 then x as int + 0x1_0000_0000 else x as int;
    var q1 := u / 0x100;
    var q2 := q1 / 0x100;
    var q3 := q2 / 0x100;
    assert u == u % 0x100 + 0x100 * q1;
    assert q1 == q1 % 0x100 + 0x100 * q2;
    assert q2 == q2 % 0x100 + 0x100 * q3;
    assert u == u % 0x100 + 0x100 * (q1 % 0x100) + 0x1_0000 * (q2 % 0x100) + 0x100_0000 * q3;
    var b := IntToBytes(x);
    assert b[0] as int == u % 0x100 && b[1] as int == q1 % 0x100 && b[2] as int == q2 % 0x100 && b[3] as int == q3;
  }

  /** to_byte_array loses nothing: reading the bytes back yields the vector. */
  lemma {:induction false} ByteArrayRoundTrip(v: Vector)
    ensures FromByteArray(ToByteArray(v)) == v
  {
    if |v| > 0 {
      var b := ToByteArray(v);
      assert b[..4] == IntToBytes(v[0]);
      assert b[4..] == ToByteArray(v[1..]);
      IntBytesRoundTrip(v[0]);
      ByteArrayRoundTrip(v[1..]);
    }
  }

  /** The byte values listed by the engine's to_byte_array test. */
  lemma {:induction false} ByteArrayExamples()
    ensures ToByteArray([0, -1, 2008, 999999999])
      == [0, 0, 0, 0, 255, 255, 255, 255, 216, 7, 0, 0, 255, 201, 154, 59]
  {
  }

  /** A negative bound counts from the end: -1 names the last element. */
  function NormalizeIndex(size: nat, i: int): int
  {
    if i < 0 then size + i else i
  }

  /**
   * subarray(from, to): the inclusive range [from, to] after negative bounds
   * are counted from the end. Bounds that do not name an element, or a range
   * running backwards, give no vector.
   */
  function Subarray(v: Vector, from: int, to: int): (r: Option<Vector>)
    ensures var f := NormalizeIndex(|v|, from); var t := NormalizeIndex(|v|, to);
      r.Some? <==> 0 <= f <= t < |v|
    ensures r.Some? ==> var f := NormalizeIndex(|v|, from);
      |r.value| == NormalizeIndex(|v|, to) - f + 1
      && forall k :: 0 <= k < |r.value| ==> r.value[k] == v[f + k]
  {
    var f := NormalizeIndex(|v|, from);
    var t := NormalizeIndex(|v|, to);
    if 0 <= f <= t < |v| then Some(v[f..t + 1]) else None
  }

  /** Two adjacent subarrays join into the subarray spanning both. */
  lemma {:induction false} SubarrayConcat(v: Vector, a: nat, b: nat, c: nat)
    requires a <= b < c < |v|
    ensures Subarray(v, a, b).Some? && Subarray(v, b + 1, c).Some?
    ensures Subarray(v, a, b).value + Subarray(v, b + 1, c).value == Subarray(v, a, c).value
  {
    assert v[a..b + 1] + v[b + 1..c + 1] == v[a..c + 1];
  }

  /** The cases of the engine's subarray test on [0, 1, 2, 3, 4]. */
  lemma {:induction false} SubarrayExamples()
    ensures Subarray([0, 1, 2, 3, 4], 1, 2) == Some([1, 2])
    ensures Subarray([0, 1, 2, 3, 4], 1, -1) == Some([1, 2, 3, 4])
    ensures Subarray([0, 1, 2, 3, 4], -2, -1) == Some([3, 4])
    ensures Subarray([0, 1, 2, 3, 4], -3, 3) == Some([2, 3])
  {
    var v: Vector := [0, 1, 2, 3, 4];
    assert v[1..3] == [1, 2];
    assert v[1..5] == [1, 2, 3, 4];
    assert v[3..5] == [3, 4];
    assert v[2..4] == [2, 3];
  }

  function Sort(v: Vector): (r: Vector)
    ensures SeqUtil.SortedBy(r, Key) && multiset(r) == multiset(v)
  {
    SeqUtil.SortBy(v, Key)
  }

  /**
   * bsearch(x, before) on a sorted vector: with `before`, the first index whose
   * element is not less than `x`; otherwise the first index whose element is
   * greater than `x`.
   */
  method Bsearch(v: Vector, x: Int32, before: bool) returns (lo: nat)
    requires SeqUtil.SortedBy(v, Key)
    ensures lo <= |v|
    ensures before ==> (forall k :: 0 <= k < lo ==> v[k] < x) && (forall k :: lo <= k < |v| ==> x <= v[k])
    ensures !before ==> (forall k :: 0 <= k < lo ==> v[k] <= x) && (forall k :: lo <= k < |v| ==> x < v[k])
  {
    lo := 0;
    var hi := |v|;
    while lo < hi
      invariant 0 <= lo <= hi <= |v|
      invariant before ==> (forall k :: 0 <= k < lo ==> v[k] < x) && (forall k :: hi <= k < |v| ==> x <= v[k])
      invariant !before ==> (forall k :: 0 <= k < lo ==> v[k] <= x) && (forall k :: hi <= k < |v| ==> x < v[k])
      decreases hi - lo
    {
      var mid := (lo + hi) / 2;
      if (if before then v[mid] < x else !(x < v[mid])) {
        lo := mid + 1;
      } else {
        hi := mid;
      }
    }
  }

  /** Inserting at a valid position and then removing that position gives the vector back. */
  lemma {:induction false} InsertRemoveRoundTrip(v: Vector, pos: int, x: Int32)
    requires 0 <= pos <= |v|
    ensures Remove(Insert(v, pos, x), pos) == v
  {
  }

  /** A value set at a valid index is the value read back there. */
  lemma {:induction false} SetGetRoundTrip(v: Vector, i: int, x: Int32)
    requires 0 <= i < |v|
    ensures Get(Set(v, i, x), i) == x
  {
  }

  /** Erasing removes the first occurrence found by find, and nothing else. */
  lemma {:induction false} EraseRemovesFound(v: Vector, x: Int32)
    requires Has(v, x)
    ensures Erase(v, x) == Remove(v, Find(v, x))
    ensures |Erase(v, x)| == |v| - 1
  {
  }
}
