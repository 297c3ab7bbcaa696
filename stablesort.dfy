/**
 * The stable sort that `Array.prototype.sort` performs with a numeric comparator
 * `(a, b) => key(a) - key(b)`: smallest key first, elements with equal keys kept in
 * their original relative order. A descending sort on a field is the ascending sort
 * on the negated field.
 *
 * `InsertionSort` is the specification; `SortInPlace` rearranges an array in place and
 * is proved to produce exactly that sequence.
 */
module StableSort {
  import opened Seqs

  /** `s` is in ascending order of `key`. */
  predicate SortedBy<T>(s: seq<T>, key: T -> int)
  {
    forall i, j :: 0 <= i < j < |s| ==> key(s[i]) <= key(s[j])
  }

  /** Inserts `x` into `s` after every element whose key is at most `key(x)`. */
  function Insert<T>(s: seq<T>, x: T, key: T -> int): (r: seq<T>)
    ensures |r| == |s| + 1
    decreases |s|
  {
    if s == [] || key(s[|s| - 1]) <= key(x) then s + [x]
    else Insert(s[..|s| - 1], x, key) + [s[|s| - 1]]
  }

  /** Sorts `s` by inserting its elements one at a time, from the left. */
  function InsertionSort<T>(s: seq<T>, key: T -> int): (r: seq<T>)
    ensures |r| == |s|
    decreases |s|
  {
    if s == [] then []
    else Insert(InsertionSort(s[..|s| - 1], key), s[|s| - 1], key)
  }

  /** The predicate "has key `k`", used to state stability. */
  function HasKey<T>(key: T -> int, k: int): T -> bool
  {
    (y: T) => key(y) == k
  }

  /** Inserting adds `x` and keeps every other element. */
  lemma {:induction false} InsertPermutes<T>(s: seq<T>, x: T, key: T -> int)
    ensures multiset(Insert(s, x, key)) == multiset(s) + multiset{x}
    decreases |s|
  {
    if s != [] && key(s[|s| - 1]) > key(x) {
      InsertPermutes(s[..|s| - 1], x, key);
      assert s == s[..|s| - 1] + [s[|s| - 1]];
    }
  }

  /** The result of `InsertionSort` is a permutation of its input. */
  lemma {:induction false} InsertionSortPermutes<T>(s: seq<T>, key: T -> int)
    ensures multiset(InsertionSort(s, key)) == multiset(s)
    decreases |s|
  {
    if s != [] {
      InsertionSortPermutes(s[..|s| - 1], key);
      InsertPermutes(InsertionSort(s[..|s| - 1], key), s[|s| - 1], key);
      assert s == s[..|s| - 1] + [s[|s| - 1]];
    }
  }

  lemma {:induction false} InsertSorted<T>(s: seq<T>, x: T, key: T -> int)
    requires SortedBy(s, key)
    ensures SortedBy(Insert(s, x, key), key)
    decreases |s|
  {
    if s != [] && key(s[|s| - 1]) > key(x) {
      var init, last := s[..|s| - 1], s[|s| - 1];
      InsertSorted(init, x, key);
      var r := Insert(init, x, key);
      InsertPermutes(init, x, key);
      forall i | 0 <= i < |r| ensures key(r[i]) <= key(last) {
        assert r[i] in multiset(r);
        if r[i] != x {
          assert r[i] in multiset(init);
          var k :| 0 <= k < |init| && init[k] == r[i];
          assert s[k] == r[i];
        }
      }
    }
  }

  /** The result of `InsertionSort` is in ascending key order. */
  lemma {:induction false} InsertionSortSorted<T>(s: seq<T>, key: T -> int)
    ensures SortedBy(InsertionSort(s, key), key)
    decreases |s|
  {
    if s != [] {
      InsertionSortSorted(s[..|s| - 1], key);
      InsertSorted(InsertionSort(s[..|s| - 1], key), s[|s| - 1], key);
    }
  }

  /** Inserting `x` keeps it behind every element of equal key. */
  lemma {:induction false} InsertStable<T>(s: seq<T>, x: T, key: T -> int, k: int)
    ensures Filter(Insert(s, x, key), HasKey(key, k)) == Filter(s + [x], HasKey(key, k))
    decreases |s|
  {
    var p := HasKey(key, k);
    if s != [] && key(s[|s| - 1]) > key(x) {
      var init, last := s[..|s| - 1], s[|s| - 1];
      InsertStable(init, x, key, k);
      FilterAppend(Insert(init, x, key), [last], p);
      FilterAppend(init, [x], p);
      FilterAppend(init, [last], p);
      FilterAppend(s, [x], p);
      assert s == init + [last];
      assert [x][1..] == [] && [last][1..] == [];
      // at most one of `x`, `last` has key `k`, so their order does not matter
      assert Filter([x], p) == [] || Filter([last], p) == [];
    }
  }

  /** Elements with equal keys keep their original relative order. */
  lemma {:induction false} InsertionSortStable<T>(s: seq<T>, key: T -> int, k: int)
    ensures Filter(InsertionSort(s, key), HasKey(key, k)) == Filter(s, HasKey(key, k))
    decreases |s|
  {
    if s != [] {
      var init, last := s[..|s| - 1], s[|s| - 1];
      InsertionSortStable(init, key, k);
      InsertStable(InsertionSort(init, key), last, key, k);
      FilterAppend(InsertionSort(init, key), [last], HasKey(key, k));
      FilterAppend(init, [last], HasKey(key, k));
      assert s == init + [last];
    }
  }

  /** Sorting a sequence that is already in order changes nothing. */
  lemma {:induction false} InsertionSortOfSorted<T>(s: seq<T>, key: T -> int)
    requires SortedBy(s, key)
    ensures InsertionSort(s, key) == s
    decreases |s|
  {
    if s != [] {
      var init, last := s[..|s| - 1], s[|s| - 1];
      assert SortedBy(init, key) by {
        forall i, j | 0 <= i < j < |init| ensures key(init[i]) <= key(init[j]) {
          assert init[i] == s[i] && init[j] == s[j];
        }
      }
      InsertionSortOfSorted(init, key);
      assert InsertionSort(s, key) == Insert(init, last, key);
      if init != [] {
        assert key(init[|init| - 1]) <= key(last) by {
          assert init[|init| - 1] == s[|s| - 2];
        }
      }
      assert s == init + [last];
    }
  }

  /** One shifting step of the in-place insertion: `done[j - 1]` moves past `x`. */
  lemma InsertShift<T>(done: seq<T>, x: T, key: T -> int, j: int)
    requires 0 < j <= |done| && key(done[j - 1]) > key(x)
    ensures Insert(done[..j], x, key) + done[j..] == Insert(done[..j - 1], x, key) + done[j - 1..]
  {
    assert done[..j][..j - 1] == done[..j - 1];
    assert done[j - 1..] == [done[j - 1]] + done[j..];
  }

  /** The insertion stops in front of the first element, going leftwards, whose key is at most `key(x)`. */
  lemma InsertStop<T>(done: seq<T>, x: T, key: T -> int, j: int)
    requires 0 <= j <= |done| && (j == 0 || key(done[j - 1]) <= key(x))
    ensures Insert(done[..j], x, key) == done[..j] + [x]
  {
  }

  /** Moves `a[i]` leftwards past every element of `a[..i]` whose key exceeds its own. */
  method InsertInPlace<T>(a: array<T>, i: nat, key: T -> int)
    requires i < a.Length
    modifies a
    ensures a[..i + 1] == Insert(old(a[..i]), old(a[i]), key)
    ensures forall k :: i < k < a.Length ==> a[k] == old(a[k])
  {
    var x := a[i];
    ghost var done := a[..i];
    ghost var target := Insert(done, x, key);
    assert done[..i] == done && done[i..] == [];
    var j := i;
    while j > 0 && key(a[j - 1]) > key(x)
      invariant 0 <= j <= i
      invariant forall k :: 0 <= k < j ==> a[k] == done[k]
      invariant forall k :: j < k <= i ==> a[k] == done[k - 1]
      invariant forall k :: i < k < a.Length ==> a[k] == old(a[k])
      invariant target == Insert(done[..j], x, key) + done[j..]
    {
      InsertShift(done, x, key, j);
      a[j] := a[j - 1];
      j := j - 1;
    }
    InsertStop(done, x, key, j);
    a[j] := x;
    ghost var inserted := done[..j] + [x] + done[j..];
    forall k | 0 <= k <= i ensures a[k] == inserted[k] {
      if j < k {
        assert inserted[k] == done[k - 1];
      }
    }
    assert a[..i + 1] == inserted;
  }

  /** Sorting one more element of `s` inserts it into the sorted prefix. */
  lemma InsertionSortStep<T>(s: seq<T>, i: nat, key: T -> int)
    requires i < |s|
    ensures InsertionSort(s[..i + 1], key) == Insert(InsertionSort(s[..i], key), s[i], key)
  {
    assert s[..i + 1][..i] == s[..i];
  }

  /** Rearranges `a` into the stable ascending order of `key`. */
  method SortInPlace<T>(a: array<T>, key: T -> int)
    modifies a
    ensures a[..] == InsertionSort(old(a[..]), key)
  {
    ghost var original := a[..];
    var i := 0;
    while i < a.Length
      invariant 0 <= i <= a.Length
      invariant a[..i] == InsertionSort(original[..i], key)
      invariant forall k :: i <= k < a.Length ==> a[k] == original[k]
    {
      InsertInPlace(a, i, key);
      InsertionSortStep(original, i, key);
      i := i + 1;
    }
    assert original[..a.Length] == original;
  }
}
