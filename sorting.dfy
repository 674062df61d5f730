/** The in-place sort the pages apply through `Array.prototype.sort` with a
    comparator that subtracts two integer keys. The language requires that
    sort to be stable: elements with equal keys keep their order. */
module Sorting {
  import opened Common

  ghost predicate SortedBy<T>(s: seq<T>, key: T -> int) {
    forall p, q :: 0 <= p < q < |s| ==> key(s[p]) <= key(s[q])
  }

  /** `x` placed into `s` after the last element whose key is not greater
      than its own. */
  function Insert<T>(s: seq<T>, x: T, key: T -> int): (r: seq<T>)
    ensures |r| == |s| + 1
  {
    if s == [] then [x]
    else if key(s[|s| - 1]) <= key(x) then s + [x]
    else Insert(s[..|s| - 1], x, key) + [s[|s| - 1]]
  }

  lemma {:induction false} InsertPermutes<T>(s: seq<T>, x: T, key: T -> int)
    ensures multiset(Insert(s, x, key)) == multiset(s) + multiset{x}
    decreases |s|
  {
    if s != [] && key(s[|s| - 1]) > key(x) {
      assert s == s[..|s| - 1] + [s[|s| - 1]];
      InsertPermutes(s[..|s| - 1], x, key);
    }
  }

  /** The stable sort by ascending key: each element in turn is inserted
      into the sorted list of the elements before it. */
  function StableSort<T>(s: seq<T>, key: T -> int): (r: seq<T>)
    ensures |r| == |s|
  {
    if s == [] then []
    else Insert(StableSort(s[..|s| - 1], key), s[|s| - 1], key)
  }

  lemma {:induction false} StableSortPermutes<T>(s: seq<T>, key: T -> int)
    ensures multiset(StableSort(s, key)) == multiset(s)
    decreases |s|
  {
    if s != [] {
      assert s == s[..|s| - 1] + [s[|s| - 1]];
      StableSortPermutes(s[..|s| - 1], key);
      InsertPermutes(StableSort(s[..|s| - 1], key), s[|s| - 1], key);
    }
  }

  /** The elements of `s` whose key is `k`, in their order in `s`. */
  function KeyClass<T>(s: seq<T>, key: T -> int, k: int): (r: seq<T>)
    ensures forall x :: x in r ==> x in s && key(x) == k
  {
    Filter(s, (x: T) => key(x) == k)
  }

  lemma KeyClassSnoc<T>(s: seq<T>, x: T, key: T -> int, k: int)
    ensures KeyClass(s + [x], key, k) == KeyClass(s, key, k) + (if key(x) == k then [x] else [])
  {
    FilterConcat(s, [x], (y: T) => key(y) == k);
    assert [x][1..] == [];
  }

  /** Where `Insert` puts `x`: at the first position `j` after which every
      key is greater than `x`'s, with nothing greater than it just before. */
  lemma {:induction false} InsertAt<T>(s: seq<T>, x: T, key: T -> int, j: int)
    requires 0 <= j <= |s|
    requires j == 0 || key(s[j - 1]) <= key(x)
    requires forall q :: j <= q < |s| ==> key(s[q]) > key(x)
    ensures Insert(s, x, key) == s[..j] + [x] + s[j..]
    decreases |s|
  {
    if s == [] {
    } else if j == |s| {
      assert s[..j] == s && s[j..] == [];
    } else {
      var init := s[..|s| - 1];
      InsertAt(init, x, key, j);
      assert init[..j] == s[..j];
      assert init[j..] + [s[|s| - 1]] == s[j..];
    }
  }

  lemma {:induction false} InsertSorted<T>(s: seq<T>, x: T, key: T -> int)
    requires SortedBy(s, key)
    ensures SortedBy(Insert(s, x, key), key)
    decreases |s|
  {
    if s != [] && key(s[|s| - 1]) > key(x) {
      var init := s[..|s| - 1];
      var last := s[|s| - 1];
      InsertSorted(init, x, key);
      var r := Insert(init, x, key);
      InsertPermutes(init, x, key);
      forall y | y in r ensures key(y) <= key(last) {
        assert y in multiset(r);
        if y != x {
          assert y in init;
        }
      }
      forall p, q | 0 <= p < q < |r| + 1 ensures key((r + [last])[p]) <= key((r + [last])[q]) {
        if q == |r| {
          assert (r + [last])[p] == r[p] && r[p] in r;
        }
      }
    }
  }

  lemma {:induction false} StableSortSorted<T>(s: seq<T>, key: T -> int)
    ensures SortedBy(StableSort(s, key), key)
    decreases |s|
  {
    if s != [] {
      StableSortSorted(s[..|s| - 1], key);
      InsertSorted(StableSort(s[..|s| - 1], key), s[|s| - 1], key);
    }
  }

  /** Inserting keeps the order within every key class and puts `x` last
      in its own. */
  lemma {:induction false} InsertKeyClass<T>(s: seq<T>, x: T, key: T -> int, k: int)
    ensures KeyClass(Insert(s, x, key), key, k) == KeyClass(s, key, k) + (if key(x) == k then [x] else [])
    decreases |s|
  {
    if s == [] {
      KeyClassSnoc(s, x, key, k);
      assert [] + [x] == [x];
    } else if key(s[|s| - 1]) <= key(x) {
      KeyClassSnoc(s, x, key, k);
    } else {
      var init := s[..|s| - 1];
      var last := s[|s| - 1];
      assert s == init + [last];
      InsertKeyClass(init, x, key, k);
      KeyClassSnoc(Insert(init, x, key), last, key, k);
      KeyClassSnoc(init, last, key, k);
    }
  }

  /** Stability: the sort keeps the order of the elements within every key
      class. */
  lemma {:induction false} StableSortStable<T>(s: seq<T>, key: T -> int, k: int)
    ensures KeyClass(StableSort(s, key), key, k) == KeyClass(s, key, k)
    decreases |s|
  {
    if s != [] {
      var init := s[..|s| - 1];
      var last := s[|s| - 1];
      assert s == init + [last];
      StableSortStable(init, key, k);
      InsertKeyClass(StableSort(init, key), last, key, k);
      KeyClassSnoc(init, last, key, k);
    }
  }

  /** Moves `a[i]` down past every greater element before it, stopping at
      the first one that is not greater. */
  method Sink<T>(a: array<T>, i: int, key: T -> int)
    requires 0 <= i < a.Length
    modifies a
    ensures a[..i + 1] == Insert(old(a[..i]), old(a[i]), key)
    ensures a[i + 1..] == old(a[i + 1..])
  {
    ghost var prefix, x := a[..i], a[i];
    var j := i;
    while j > 0 && key(a[j - 1]) > key(a[j])
      invariant 0 <= j <= i
      invariant forall q :: 0 <= q < j ==> a[q] == prefix[q]
      invariant a[j] == x
      invariant forall q :: j < q <= i ==> a[q] == prefix[q - 1]
      invariant forall q :: i < q < a.Length ==> a[q] == old(a[q])
      invariant forall q :: j <= q < i ==> key(prefix[q]) > key(x)
    {
      a[j - 1], a[j] := a[j], a[j - 1];
      j := j - 1;
    }
    InsertAt(prefix, x, key, j);
    ghost var inserted := prefix[..j] + [x] + prefix[j..];
    forall q | 0 <= q <= i ensures a[q] == inserted[q] {
      if q < j {
        assert inserted[q] == prefix[q];
      } else if q > j {
        assert inserted[q] == prefix[q - 1];
      }
    }
    assert a[..i + 1] == inserted;
  }

  /** Sorts `a` in place by ascending key (an insertion sort by adjacent
      swaps): the result is the stable sort of the original, so it is
      sorted, a permutation, and keeps the order within each key class. */
  method InsertionSortBy<T>(a: array<T>, key: T -> int)
    modifies a
    ensures a[..] == StableSort(old(a[..]), key)
    ensures SortedBy(a[..], key)
    ensures multiset(a[..]) == multiset(old(a[..]))
    ensures forall k :: KeyClass(a[..], key, k) == KeyClass(old(a[..]), key, k)
  {
    ghost var original := a[..];
    var i := 0;
    while i < a.Length
      invariant 0 <= i <= a.Length
      invariant a[..i] == StableSort(original[..i], key)
      invariant a[i..] == original[i..]
    {
      ghost var before := a[..];
      Sink(a, i, key);
      assert before[..i] == StableSort(original[..i], key) && before[i] == original[i];
      assert original[..i + 1][..i] == original[..i];
      assert a[i + 1..] == before[i + 1..];
      i := i + 1;
    }
    assert a[..] == a[..a.Length] && original == original[..a.Length];
    StableSortSorted(original, key);
    StableSortPermutes(original, key);
    forall k ensures KeyClass(a[..], key, k) == KeyClass(original, key, k) {
      StableSortStable(original, key, k);
    }
  }
}
