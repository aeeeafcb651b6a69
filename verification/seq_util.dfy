/**
 * Sequence helpers shared by the container models and the physics models:
 * ordering by an integer key, the "insert before the first strictly greater
 * element" rule of ordered insertion, insertion sort built from it, and
 * linear search.
 */
module SeqUtil {

  /** `s` is non-decreasing under `key`. */
  predicate SortedBy<T>(s: seq<T>, key: T -> int)
  {
    forall i, j :: 0 <= i < j < |s| ==> key(s[i]) <= key(s[j])
  }

  /** `s` holds no element twice. */
  predicate Distinct<T(==)>(s: seq<T>)
  {
    forall i, j :: 0 <= i < j < |s| ==> s[i] != s[j]
  }

  function InsertAt<T>(s: seq<T>, i: nat, x: T): (r: seq<T>)
    requires i <= |s|
    ensures |r| == |s| + 1
    ensures r[i] == x
    ensures forall k :: 0 <= k < i ==> r[k] == s[k]
    ensures forall k :: i < k < |r| ==> r[k] == s[k - 1]
    ensures multiset(r) == multiset(s) + multiset{x}
  {
    assert s == s[..i] + s[i..];
    s[..i] + [x] + s[i..]
  }

  function RemoveAt<T>(s: seq<T>, i: nat): (r: seq<T>)
    requires i < |s|
    ensures |r| == |s| - 1
    ensures forall k :: 0 <= k < i ==> r[k] == s[k]
    ensures forall k :: i <= k < |r| ==> r[k] == s[k + 1]
    ensures multiset(r) == multiset(s) - multiset{s[i]}
  {
    assert s == s[..i] + [s[i]] + s[i + 1..];
    s[..i] + s[i + 1..]
  }

  /**
   * Where ordered insertion places `x`: in front of the first element whose
   * key is strictly greater, so equal keys keep their arrival order.
   */
  function InsertPosition<T>(s: seq<T>, x: T, key: T -> int): (i: nat)
    ensures i <= |s|
    ensures forall k :: 0 <= k < i ==> key(s[k]) <= key(x)
    ensures i < |s| ==> key(x) < key(s[i])
  {
    if |s| == 0 then 0
    else if key(x) < key(s[0]) then 0
    else 1 + InsertPosition(s[1..], x, key)
  }

  /** Ordered insertion: adds exactly `x` and keeps a sorted sequence sorted. */
  function OrderedInsertBy<T>(s: seq<T>, x: T, key: T -> int): (r: seq<T>)
    ensures multiset(r) == multiset(s) + multiset{x}
    ensures |r| == |s| + 1
    ensures SortedBy(s, key) ==> SortedBy(r, key)
    ensures var i := InsertPosition(s, x, key); r[i] == x && r[..i] == s[..i] && r[i + 1..] == s[i..]
  {
    var i := InsertPosition(s, x, key);
    var r := InsertAt(s, i, x);
    assert SortedBy(s, key) ==> SortedBy(r, key) by {
      if SortedBy(s, key) {
        forall a, b | 0 <= a < b < |r| ensures key(r[a]) <= key(r[b]) {
          if b < i {
          } else if b == i {
          } else if a < i {
            assert key(s[a]) <= key(x) < key(s[i]) <= key(s[b - 1]);
          } else if a == i {
            assert key(x) < key(s[i]) <= key(s[b - 1]);
          } else {
          }
        }
      }
    }
    r
  }

  /** Insertion sort by `key`: a sorted permutation. */
  function SortBy<T>(s: seq<T>, key: T -> int): (r: seq<T>)
    ensures SortedBy(r, key)
    ensures multiset(r) == multiset(s)
    ensures |r| == |s|
  {
    if |s| == 0 then []
    else
      assert s == s[..|s| - 1] + [s[|s| - 1]];
      OrderedInsertBy(SortBy(s[..|s| - 1], key), s[|s| - 1], key)
  }

  /** First index at or after `from` that holds `x`, or -1. */
  function FindFrom<T(==)>(s: seq<T>, x: T, from: nat): (r: int)
    ensures -1 <= r < |s|
    ensures r == -1 <==> forall k :: from <= k < |s| ==> s[k] != x
    ensures r >= 0 ==> from <= r && s[r] == x && forall k :: from <= k < r ==> s[k] != x
    decreases |s| - from
  {
    if from >= |s| then -1
    else if s[from] == x then from
    else FindFrom(s, x, from + 1)
  }
}
