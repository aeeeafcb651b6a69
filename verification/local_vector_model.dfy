/**
 * The engine's `LocalVector<int>`: a growable array that owns its storage and
 * tracks a capacity separately from its size. The capacity only grows while
 * elements are added, survives shrinking and removal, and drops to zero only
 * on reset.
 */
module LocalVectorModel {
  import SeqUtil
  import opened VectorModel

  datatype LocalVector = LocalVector(data: seq<Int32>, capacity: nat)
  {
    /** The storage always holds every element. */
    predicate Valid() { |data| <= capacity }

    function Size(): nat { |data| }
  }

  /** A default-constructed vector: nothing stored, nothing allocated. */
  function Empty(): (v: LocalVector)
    ensures v.Valid() && v.Size() == 0 && v.capacity == 0
  {
    LocalVector([], 0)
  }

  /**
   * push_back: appends, doubling the storage when it is full. The growth
   * factor is this model's choice; only capacity >= size is relied upon.
   */
  function PushBack(v: LocalVector, x: Int32): (r: LocalVector)
    requires v.Valid()
    ensures r.Valid()
    ensures r.data == v.data + [x]
    ensures r.capacity >= v.capacity
  {
    var cap := if |v.data| == v.capacity then (if v.capacity == 0 then 1 else 2 * v.capacity) else v.capacity;
    LocalVector(v.data + [x], cap)
  }

  /** remove(i): ordered removal; an index out of range is ignored. */
  function Remove(v: LocalVector, i: int): (r: LocalVector)
    requires v.Valid()
    ensures r.Valid() && r.capacity == v.capacity
    ensures 0 <= i < |v.data| ==> r.data == SeqUtil.RemoveAt(v.data, i)
    ensures !(0 <= i < |v.data|) ==> r == v
  {
    if 0 <= i < |v.data| then v.(data := SeqUtil.RemoveAt(v.data, i)) else v
  }

  /** Overwriting slot `i` with the last element and dropping the last slot loses exactly one copy of `s[i]`. */
  lemma {:induction false} MoveLastIntoSlot(s: seq<Int32>, i: nat)
    requires i < |s|
    ensures multiset(s[i := s[|s| - 1]][..|s| - 1]) == multiset(s) - multiset{s[i]}
  {
    var last := |s| - 1;
    var r := s[i := s[last]][..last];
    if i == last {
      assert r == s[..last];
      assert s == s[..last] + [s[last]];
    } else {
      assert s == s[..i] + [s[i]] + s[i + 1..last] + [s[last]];
      assert r == s[..i] + [s[last]] + s[i + 1..last];
    }
  }

  /**
   * remove_unordered(i): the last element takes the place of the removed one,
   * so the order is lost but every other element stays.
   */
  function RemoveUnordered(v: LocalVector, i: int): (r: LocalVector)
    requires v.Valid()
    ensures r.Valid() && r.capacity == v.capacity
    ensures 0 <= i < |v.data| ==>
              && |r.data| == |v.data| - 1
              && multiset(r.data) == multiset(v.data) - multiset{v.data[i]}
              && (forall k :: 0 <= k < |r.data| && k != i ==> r.data[k] == v.data[k])
              && (i < |r.data| ==> r.data[i] == v.data[|v.data| - 1])
    ensures !(0 <= i < |v.data|) ==> r == v
  {
    if 0 <= i < |v.data| then
      MoveLastIntoSlot(v.data, i);
      v.(data := v.data[i := v.data[|v.data| - 1]][..|v.data| - 1])
    else v
  }

  function Find(v: LocalVector, x: Int32): (r: int)
    ensures r == -1 <==> x !in v.data
    ensures r != -1 ==> 0 <= r < |v.data| && v.data[r] == x && x !in v.data[..r]
  {
    SeqUtil.FindFrom(v.data, x, 0)
  }

  /** erase(x): ordered removal of the first occurrence of `x`, if any. */
  function Erase(v: LocalVector, x: Int32): (r: LocalVector)
    requires v.Valid()
    ensures r.Valid() && r.capacity == v.capacity
    ensures multiset(r.data) == multiset(v.data) - multiset{x}
    ensures x in v.data ==> |r.data| == |v.data| - 1
    ensures x !in v.data ==> r == v
  {
    var i := Find(v, x);
    if i == -1 then
      assert multiset(v.data)[x] == 0;
      v
    else Remove(v, i)
  }

  /**
   * resize(n): storage grows to hold `n` elements when it is too small and is
   * kept otherwise. New elements take `filler`.
   */
  function Resize(v: LocalVector, n: nat, filler: Int32): (r: LocalVector)
    requires v.Valid()
    ensures r.Valid() && r.Size() == n
    ensures r.capacity == if n > v.capacity then n else v.capacity
    ensures forall k :: 0 <= k < n && k < |v.data| ==> r.data[k] == v.data[k]
  {
    var cap := if n > v.capacity then n else v.capacity;
    if n <= |v.data| then LocalVector(v.data[..n], cap)
    else LocalVector(v.data + seq(n - |v.data|, _ => filler), cap)
  }

  /** reserve(n): makes room for `n` elements without changing the contents. */
  function Reserve(v: LocalVector, n: nat): (r: LocalVector)
    requires v.Valid()
    ensures r.Valid() && r.data == v.data
    ensures r.capacity >= n && r.capacity >= v.capacity
  {
    if n > v.capacity then v.(capacity := n) else v
  }

  /** clear: no elements, storage kept. */
  function Clear(v: LocalVector): (r: LocalVector)
    requires v.Valid()
    ensures r.Valid() && r.Size() == 0 && r.capacity == v.capacity
  {
    v.(data := [])
  }

  /** reset: no elements and no storage. */
  function Reset(v: LocalVector): (r: LocalVector)
    ensures r.Valid() && r.Size() == 0 && r.capacity == 0
  {
    Empty()
  }

  /** The capacity sequence of the engine's size/resize/reserve test. */
  lemma {:induction false} CapacityScenario(filler: Int32)
    ensures var a := Resize(Empty(), 10, filler); a.Size() == 10 && a.capacity >= 10
    ensures var b := Resize(Resize(Empty(), 10, filler), 5, filler); b.Size() == 5 && b.capacity >= 10
    ensures var c := Remove(Remove(Remove(Resize(Resize(Empty(), 10, filler), 5, filler), 0), 0), 0);
              c.Size() == 2 && c.capacity >= 10
    ensures var d := Reserve(Reset(Empty()), 3); d.Size() == 0 && d.capacity >= 3
    ensures var e := PushBack(PushBack(PushBack(PushBack(Reserve(Empty(), 3), 0), 0), 0), 0);
              e.Size() == 4 && e.capacity >= 4
  {
  }
}
