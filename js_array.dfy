/**
 * The two array methods the trip listing relies on, over any element type:
 * `filter`, and `sort` with a comparator. `sort` is stable (ECMAScript
 * 2019 and later), so it is specified as an insertion sort: each element in
 * turn goes behind every element of the sorted prefix that the comparator
 * does not place after it.
 */
module JsArray {

  // ---------------------------------------------------------------------
  // filter
  // ---------------------------------------------------------------------

  /** `s.filter(p)`: the elements of `s` that pass `p`, in their order. */
  function Keep<T>(s: seq<T>, p: T -> bool): (r: seq<T>)
    ensures |r| <= |s|
    ensures forall x :: x in r ==> x in s && p(x)
  {
    if s == [] then [] else (if p(s[0]) then [s[0]] else []) + Keep(s[1..], p)
  }

  /** How many copies of `x` a filtered sequence holds: all of them when `x` passes, none otherwise. */
  lemma {:induction false} KeepCount<T>(s: seq<T>, p: T -> bool, x: T)
    ensures multiset(Keep(s, p))[x] == if p(x) then multiset(s)[x] else 0
  {
    if s != [] {
      KeepCount(s[1..], p, x);
      assert s == [s[0]] + s[1..];
    }
  }

  /** Filtering with two predicates that agree everywhere gives the same result. */
  lemma {:induction false} KeepSame<T>(s: seq<T>, p: T -> bool, q: T -> bool)
    requires forall x :: p(x) == q(x)
    ensures Keep(s, p) == Keep(s, q)
  {
    if s != [] {
      KeepSame(s[1..], p, q);
    }
  }

  /** A filter that passes everything keeps everything. */
  lemma {:induction false} KeepAll<T>(s: seq<T>, p: T -> bool)
    requires forall x :: p(x)
    ensures Keep(s, p) == s
  {
    if s != [] {
      KeepAll(s[1..], p);
      assert s == [s[0]] + s[1..];
    }
  }

  /** Filtering by `p` and then by `q` is filtering once by their conjunction. */
  lemma {:induction false} KeepKeep<T>(s: seq<T>, p: T -> bool, q: T -> bool, both: T -> bool)
    requires forall x :: both(x) == (p(x) && q(x))
    ensures Keep(Keep(s, p), q) == Keep(s, both)
  {
    if s != [] {
      KeepKeep(s[1..], p, q, both);
      assert both(s[0]) == (p(s[0]) && q(s[0]));
      if p(s[0]) {
        assert Keep(s, p) == [s[0]] + Keep(s[1..], p);
        assert ([s[0]] + Keep(s[1..], p))[1..] == Keep(s[1..], p);
      } else {
        assert Keep(s, p) == Keep(s[1..], p);
      }
    }
  }

  // ---------------------------------------------------------------------
  // sort: the specification
  // ---------------------------------------------------------------------

  /** Insert `x` into `s`, behind every element that `cmp` does not place after it (a positive `cmp(y, x)` places `y` after `x`). */
  function Insert<T>(cmp: (T, T) -> int, s: seq<T>, x: T): (r: seq<T>)
    ensures |r| == |s| + 1
  {
    if s == [] then [x]
    else if cmp(s[|s| - 1], x) > 0 then Insert(cmp, s[..|s| - 1], x) + [s[|s| - 1]]
    else s + [x]
  }

  /** `s.sort(cmp)` as a stable sort. */
  function InsertionSort<T>(cmp: (T, T) -> int, s: seq<T>): (r: seq<T>)
    ensures |r| == |s|
  {
    if s == [] then [] else Insert(cmp, InsertionSort(cmp, s[..|s| - 1]), s[|s| - 1])
  }

  /** No element is placed after a later one. */
  predicate Sorted<T>(cmp: (T, T) -> int, s: seq<T>) {
    forall i, j :: 0 <= i < j < |s| ==> cmp(s[i], s[j]) <= 0
  }

  /**
   * On the elements `ok` admits, `cmp` is a consistent order: it never
   * places two elements after each other, and "not after" is transitive.
   */
  ghost predicate ConsistentOn<T(!new)>(cmp: (T, T) -> int, ok: T -> bool) {
    && (forall a, b :: ok(a) && ok(b) && cmp(a, b) > 0 ==> cmp(b, a) <= 0)
    && (forall a, b, c {:trigger cmp(a, b), cmp(b, c)} ::
          ok(a) && ok(b) && ok(c) && cmp(a, b) <= 0 && cmp(b, c) <= 0 ==> cmp(a, c) <= 0)
  }

  predicate AllOk<T>(ok: T -> bool, s: seq<T>) {
    forall k :: 0 <= k < |s| ==> ok(s[k])
  }

  /** The elements of `s` whose key is `v`, in their order. */
  function WithKey<T, K(==)>(key: T -> K, s: seq<T>, v: K): seq<T> {
    if s == [] then [] else (if key(s[0]) == v then [s[0]] else []) + WithKey(key, s[1..], v)
  }

  /** `cmp` only separates elements whose keys differ. */
  ghost predicate TiesOnEqualKeys<T(!new), K>(cmp: (T, T) -> int, key: T -> K) {
    forall a, b :: cmp(a, b) > 0 ==> key(a) != key(b)
  }

  // ---------------------------------------------------------------------
  // sort: what the specification promises
  // ---------------------------------------------------------------------

  /** A non-empty sequence is its front followed by its last element. */
  lemma LastSplit<T>(s: seq<T>)
    requires s != []
    ensures s == s[..|s| - 1] + [s[|s| - 1]]
    ensures multiset(s) == multiset(s[..|s| - 1]) + multiset{s[|s| - 1]}
  {
    assert s == s[..|s| - 1] + [s[|s| - 1]];
  }

  lemma {:induction false} InsertCount<T>(cmp: (T, T) -> int, s: seq<T>, x: T)
    ensures multiset(Insert(cmp, s, x)) == multiset(s) + multiset{x}
  {
    if s != [] && cmp(s[|s| - 1], x) > 0 {
      InsertCount(cmp, s[..|s| - 1], x);
      LastSplit(s);
    }
  }

  /** The sort returns the elements it was given, each as often as given. */
  lemma {:induction false} InsertionSortPermutes<T>(cmp: (T, T) -> int, s: seq<T>)
    ensures multiset(InsertionSort(cmp, s)) == multiset(s)
  {
    if s != [] {
      InsertionSortPermutes(cmp, s[..|s| - 1]);
      InsertCount(cmp, InsertionSort(cmp, s[..|s| - 1]), s[|s| - 1]);
      LastSplit(s);
    }
  }

  lemma AllOkOfMultiset<T>(ok: T -> bool, s: seq<T>, r: seq<T>)
    requires AllOk(ok, s) && multiset(r) == multiset(s)
    ensures AllOk(ok, r)
  {
    forall k | 0 <= k < |r| ensures ok(r[k]) {
      assert r[k] in multiset(s);
      var m :| 0 <= m < |s| && s[m] == r[k];
    }
  }

  /** A sorted sequence stays sorted when an element no earlier one goes after is appended. */
  lemma AppendSorted<T>(cmp: (T, T) -> int, q: seq<T>, last: T)
    requires Sorted(cmp, q)
    requires forall k :: 0 <= k < |q| ==> cmp(q[k], last) <= 0
    ensures Sorted(cmp, q + [last])
  {
    var r := q + [last];
    forall i, j | 0 <= i < j < |r| ensures cmp(r[i], r[j]) <= 0 {
      assert r[i] == q[i];
      if j < |q| {
        assert r[j] == q[j];
      }
    }
  }

  /**
   * The step of `InsertSorted` where `x` goes before the last element: the
   * inserted prefix stays sorted and nothing in it goes after that element.
   */
  lemma InsertBeforeLast<T>(cmp: (T, T) -> int, s: seq<T>, x: T)
    requires s != [] && cmp(s[|s| - 1], x) > 0
    requires Sorted(cmp, s) && cmp(x, s[|s| - 1]) <= 0
    requires Sorted(cmp, Insert(cmp, s[..|s| - 1], x))
    ensures Sorted(cmp, Insert(cmp, s, x))
  {
    var p, last := s[..|s| - 1], s[|s| - 1];
    InsertCount(cmp, p, x);
    var q := Insert(cmp, p, x);
    // every element of `q` is one of `p` or `x`, and none of them goes after `last`
    var beforeLast: T -> bool := y => cmp(y, last) <= 0;
    assert AllOk(beforeLast, p + [x]) by {
      forall k | 0 <= k < |p| ensures (p + [x])[k] == s[k] { }
    }
    AllOkOfMultiset(beforeLast, p + [x], q);
    AppendSorted(cmp, q, last);
  }

  lemma {:induction false} InsertSorted<T(!new)>(cmp: (T, T) -> int, ok: T -> bool, s: seq<T>, x: T)
    requires ConsistentOn(cmp, ok) && AllOk(ok, s) && ok(x) && Sorted(cmp, s)
    ensures Sorted(cmp, Insert(cmp, s, x))
  {
    if s == [] {
    } else if cmp(s[|s| - 1], x) > 0 {
      var p := s[..|s| - 1];
      assert AllOk(ok, p) && Sorted(cmp, p) by {
        forall k | 0 <= k < |p| ensures p[k] == s[k] { }
      }
      InsertSorted(cmp, ok, p, x);
      InsertBeforeLast(cmp, s, x);
    } else {
      forall k | 0 <= k < |s| ensures cmp(s[k], x) <= 0 {
        assert cmp(s[k], s[|s| - 1]) <= 0;
      }
      AppendSorted(cmp, s, x);
    }
  }

  /** On elements it orders consistently, the sort's result is sorted. */
  lemma {:induction false} InsertionSortSorted<T(!new)>(cmp: (T, T) -> int, ok: T -> bool, s: seq<T>)
    requires ConsistentOn(cmp, ok) && AllOk(ok, s)
    ensures Sorted(cmp, InsertionSort(cmp, s))
  {
    if s != [] {
      var p := s[..|s| - 1];
      assert AllOk(ok, p) by {
        forall k | 0 <= k < |p| ensures ok(p[k]) { assert p[k] == s[k]; }
      }
      InsertionSortSorted(cmp, ok, p);
      InsertionSortPermutes(cmp, p);
      AllOkOfMultiset(ok, p, InsertionSort(cmp, p));
      InsertSorted(cmp, ok, InsertionSort(cmp, p), s[|s| - 1]);
    }
  }

  lemma {:induction false} WithKeyAppend<T, K>(key: T -> K, a: seq<T>, b: seq<T>, v: K)
    ensures WithKey(key, a + b, v) == WithKey(key, a, v) + WithKey(key, b, v)
  {
    if a == [] {
      assert a + b == b;
    } else {
      var head := if key(a[0]) == v then [a[0]] else [];
      assert (a + b)[0] == a[0] && (a + b)[1..] == a[1..] + b;
      WithKeyAppend(key, a[1..], b, v);
      AppendAssociative(head, WithKey(key, a[1..], v), WithKey(key, b, v));
    }
  }

  lemma AppendAssociative<T>(x: seq<T>, y: seq<T>, z: seq<T>)
    ensures x + (y + z) == (x + y) + z
  {
  }

  lemma {:induction false} InsertStable<T(!new), K>(cmp: (T, T) -> int, key: T -> K, s: seq<T>, x: T, v: K)
    requires TiesOnEqualKeys(cmp, key)
    ensures WithKey(key, Insert(cmp, s, x), v) == WithKey(key, s, v) + WithKey(key, [x], v)
  {
    if s == [] {
    } else if cmp(s[|s| - 1], x) > 0 {
      var p, last := s[..|s| - 1], s[|s| - 1];
      InsertStable(cmp, key, p, x, v);
      WithKeyAppend(key, Insert(cmp, p, x), [last], v);
      WithKeyAppend(key, p, [last], v);
      LastSplit(s);
      // `last` moved past `x`, so their keys differ and at most one of them has key `v`
      assert key(last) != key(x);
    } else {
      WithKeyAppend(key, s, [x], v);
    }
  }

  /** The sort is stable: for every key value, the elements with that key come out in the order they went in. */
  lemma {:induction false} InsertionSortStable<T(!new), K>(cmp: (T, T) -> int, key: T -> K, s: seq<T>, v: K)
    requires TiesOnEqualKeys(cmp, key)
    ensures WithKey(key, InsertionSort(cmp, s), v) == WithKey(key, s, v)
  {
    if s != [] {
      var p := s[..|s| - 1];
      InsertionSortStable(cmp, key, p, v);
      InsertStable(cmp, key, InsertionSort(cmp, p), s[|s| - 1], v);
      WithKeyAppend(key, p, [s[|s| - 1]], v);
      LastSplit(s);
    }
  }

  // ---------------------------------------------------------------------
  // sort: in place
  // ---------------------------------------------------------------------

  /**
   * Where `Insert` puts `x`: behind the last element that `cmp` does not
   * place after it, with every element from there on placed after it.
   */
  lemma {:induction false} InsertScan<T>(cmp: (T, T) -> int, s: seq<T>, x: T, i: nat)
    requires i <= |s|
    requires forall k :: i <= k < |s| ==> cmp(s[k], x) > 0
    requires i == 0 || cmp(s[i - 1], x) <= 0
    ensures Insert(cmp, s, x) == s[..i] + [x] + s[i..]
    decreases |s|
  {
    if i == |s| {
      assert s[..i] == s && s[i..] == [];
    } else {
      var p, last := s[..|s| - 1], s[|s| - 1];
      assert forall k :: i <= k < |p| ==> p[k] == s[k];
      assert i == 0 || p[i - 1] == s[i - 1];
      InsertScan(cmp, p, x, i);
      assert p[..i] == s[..i];
      assert p[i..] + [last] == s[i..];
      AppendAssociative(s[..i] + [x], p[i..], [last]);
    }
  }

  /** One pass of the sort: `a[j]` moves back past the sorted elements that `cmp` places after it. */
  method InsertAt<T>(a: array<T>, j: int, cmp: (T, T) -> int)
    requires 0 <= j < a.Length
    modifies a
    ensures a[..j + 1] == Insert(cmp, old(a[..j]), old(a[j]))
    ensures a[j + 1..] == old(a[j + 1..])
  {
    var x := a[j];
    ghost var sorted := a[..j];
    var i := j;
    while i > 0 && cmp(a[i - 1], x) > 0
      invariant 0 <= i <= j
      invariant forall k :: 0 <= k < i ==> a[k] == sorted[k]
      invariant forall k :: i < k <= j ==> a[k] == sorted[k - 1]
      invariant forall k :: j < k < a.Length ==> a[k] == old(a[k])
      invariant forall k :: i <= k < j ==> cmp(sorted[k], x) > 0
    {
      a[i] := a[i - 1];
      i := i - 1;
    }
    a[i] := x;
    ShiftedIsInsert(cmp, sorted, x, i, a[..j + 1]);
    assert a[j + 1..] == old(a[j + 1..]) by {
      forall k | j + 1 <= k < a.Length ensures a[k] == old(a[k]) { }
    }
  }

  /** What the shifting loop of `InsertAt` leaves behind is `Insert`'s result. */
  lemma ShiftedIsInsert<T>(cmp: (T, T) -> int, sorted: seq<T>, x: T, i: nat, after: seq<T>)
    requires i <= |sorted| && |after| == |sorted| + 1
    requires forall k :: 0 <= k < i ==> after[k] == sorted[k]
    requires after[i] == x
    requires forall k :: i < k <= |sorted| ==> after[k] == sorted[k - 1]
    requires forall k :: i <= k < |sorted| ==> cmp(sorted[k], x) > 0
    requires i == 0 || cmp(sorted[i - 1], x) <= 0
    ensures after == Insert(cmp, sorted, x)
  {
    var r := sorted[..i] + [x] + sorted[i..];
    forall k | 0 <= k < |after| ensures after[k] == r[k] {
      if k > i { assert r[k] == sorted[k - 1]; }
    }
    InsertScan(cmp, sorted, x, i);
  }

  /** `a.sort(cmp)`: the array ends up holding the stable sort of what it held. */
  method SortInPlace<T>(a: array<T>, cmp: (T, T) -> int)
    modifies a
    ensures a[..] == InsertionSort(cmp, old(a[..]))
  {
    ghost var input := a[..];
    var j := 0;
    while j < a.Length
      invariant 0 <= j <= a.Length
      invariant a[..j] == InsertionSort(cmp, input[..j])
      invariant a[j..] == input[j..]
    {
      InsertAt(a, j, cmp);
      assert input[..j + 1][..j] == input[..j];
      assert input[j..][0] == input[j] && input[j..][1..] == input[j + 1..];
      j := j + 1;
    }
    assert input[..a.Length] == input;
  }
}
