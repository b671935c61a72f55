/** The stable sort behind `OrderBy`, and sequences without repetition. */
module Ordering {

  function Smaller(a: int, b: int): int { if a < b then a else b }
  function Larger(a: int, b: int): int { if a < b then b else a }

  ghost predicate SortedBy<T>(s: seq<T>, key: T -> int) {
    forall i, j :: 0 <= i < j < |s| ==> key(s[i]) <= key(s[j])
  }

  /** Puts `x` behind every element whose key is not larger. */
  function Insert<T>(s: seq<T>, x: T, key: T -> int): (r: seq<T>)
    ensures |r| == |s| + 1
    ensures multiset(r) == multiset(s) + multiset{x}
  {
    if s == [] then [x]
    else if key(s[|s| - 1]) <= key(x) then s + [x]
    else
      assert s == s[..|s| - 1] + [s[|s| - 1]];
      Insert(s[..|s| - 1], x, key) + [s[|s| - 1]]
  }

  /** `s.OrderBy(key)` */
  function StableSort<T>(s: seq<T>, key: T -> int): (r: seq<T>)
    ensures |r| == |s|
    ensures multiset(r) == multiset(s)
    ensures SortedBy(r, key)
  {
    if s == [] then []
    else
      assert s == s[..|s| - 1] + [s[|s| - 1]];
      InsertSorted(StableSort(s[..|s| - 1], key), s[|s| - 1], key);
      Insert(StableSort(s[..|s| - 1], key), s[|s| - 1], key)
  }

  lemma {:induction false} InsertSorted<T>(s: seq<T>, x: T, key: T -> int)
    requires SortedBy(s, key)
    ensures SortedBy(Insert(s, x, key), key)
  {
    if s == [] {
    } else if key(s[|s| - 1]) <= key(x) {
      AppendSorted(s, x, key);
    } else {
      var init, last := s[..|s| - 1], s[|s| - 1];
      InsertSorted(init, x, key);
      forall y | y in Insert(init, x, key) ensures key(y) <= key(last) {
        assert y in multiset(init) + multiset{x};
      }
      AppendSorted(Insert(init, x, key), last, key);
    }
  }

  lemma AppendSorted<T>(s: seq<T>, x: T, key: T -> int)
    requires SortedBy(s, key)
    requires forall y :: y in s ==> key(y) <= key(x)
    ensures SortedBy(s + [x], key)
  {
    var t := s + [x];
    forall i, j | 0 <= i < j < |t| ensures key(t[i]) <= key(t[j]) {
      assert t[i] == s[i] && t[i] in s;
      assert j < |s| ==> t[j] == s[j];
    }
  }

  /** The elements with key `k`, in their order of appearance. */
  function Equals<T>(s: seq<T>, key: T -> int, k: int): seq<T> {
    if s == [] then []
    else Equals(s[..|s| - 1], key, k) + if key(s[|s| - 1]) == k then [s[|s| - 1]] else []
  }

  lemma EqualsAppend<T>(s: seq<T>, x: T, key: T -> int, k: int)
    ensures Equals(s + [x], key, k) == Equals(s, key, k) + if key(x) == k then [x] else []
  {
    assert (s + [x])[..|s|] == s;
  }

  lemma {:induction false} InsertKeepsOrder<T>(s: seq<T>, x: T, key: T -> int, k: int)
    ensures Equals(Insert(s, x, key), key, k) == Equals(s, key, k) + if key(x) == k then [x] else []
  {
    if s == [] || key(s[|s| - 1]) <= key(x) {
      EqualsAppend(s, x, key, k);
      assert s + [x] == Insert(s, x, key);
    } else {
      InsertKeepsOrder(s[..|s| - 1], x, key, k);
      EqualsAppend(Insert(s[..|s| - 1], x, key), s[|s| - 1], key, k);
    }
  }

  /** Elements with equal keys keep their order. */
  lemma {:induction false} StableSortKeepsOrder<T>(s: seq<T>, key: T -> int, k: int)
    ensures Equals(StableSort(s, key), key, k) == Equals(s, key, k)
  {
    if s != [] {
      var init := s[..|s| - 1];
      StableSortKeepsOrder(init, key, k);
      InsertKeepsOrder(StableSort(init, key), s[|s| - 1], key, k);
    }
  }

  ghost predicate Ascends(s: seq<int>) {
    forall i, j :: 0 <= i < j < |s| ==> s[i] < s[j]
  }

  lemma AscendsAppend(s: seq<int>, x: int)
    requires Ascends(s) && forall y :: y in s ==> y < x
    ensures Ascends(s + [x])
  {
    forall i | 0 <= i < |s| ensures s[i] < x {
      assert s[i] in s;
    }
  }

  /** By key, and equal keys by the numbers themselves. */
  ghost predicate SortedWithin(s: seq<int>, key: int -> int) {
    forall i, j :: 0 <= i < j < |s| ==> key(s[i]) < key(s[j]) || (key(s[i]) == key(s[j]) && s[i] < s[j])
  }

  /** The last element stays last when something with a smaller key is inserted before it. */
  lemma LastStaysLast(init: seq<int>, last: int, x: int, key: int -> int)
    requires SortedWithin(init + [last], key) && key(x) < key(last)
    requires SortedWithin(Insert(init, x, key), key)
    ensures SortedWithin(Insert(init, x, key) + [last], key)
  {
    var r, s := Insert(init, x, key), init + [last];
    forall i | 0 <= i < |r| ensures key(r[i]) < key(last) || (key(r[i]) == key(last) && r[i] < last) {
      assert r[i] in multiset(r) && r[i] in multiset(init) + multiset{x};
      if r[i] in init {
        var j :| 0 <= j < |init| && init[j] == r[i];
        assert s[j] == r[i] && s[|init|] == last;
      }
    }
  }

  lemma {:induction false} InsertWithin(s: seq<int>, x: int, key: int -> int)
    requires SortedWithin(s, key) && forall y :: y in s ==> y < x
    ensures SortedWithin(Insert(s, x, key), key)
  {
    if s != [] && key(s[|s| - 1]) > key(x) {
      var init, last := s[..|s| - 1], s[|s| - 1];
      assert forall y :: y in init ==> y in s;
      InsertWithin(init, x, key);
      assert s == init + [last];
      LastStaysLast(init, last, x, key);
    } else {
      InsertLargest(s, x, key);
    }
  }

  lemma InsertLargest(s: seq<int>, x: int, key: int -> int)
    requires SortedWithin(s, key) && forall y :: y in s ==> y < x
    requires s == [] || key(s[|s| - 1]) <= key(x)
    ensures SortedWithin(s + [x], key)
  {
    forall i | 0 <= i < |s| ensures key(s[i]) <= key(x) && s[i] < x {
      assert s[i] in s;
    }
  }

  /** A list in ascending order is sorted by key, and within one key it stays ascending. */
  lemma {:induction false} StableSortWithin(s: seq<int>, key: int -> int)
    requires Ascends(s)
    ensures SortedWithin(StableSort(s, key), key)
  {
    if s != [] {
      var init, last := s[..|s| - 1], s[|s| - 1];
      StableSortWithin(init, key);
      forall y | y in StableSort(init, key) ensures y < last {
        assert y in multiset(StableSort(init, key));
        assert y in init;
      }
      InsertWithin(StableSort(init, key), last, key);
    }
  }

  /** Lists without repetition that have the same elements are permutations. */
  lemma SameElements<T>(a: seq<T>, b: seq<T>)
    requires Distinct(a) && Distinct(b) && forall x :: x in a <==> x in b
    ensures multiset(a) == multiset(b)
  {
    forall x ensures multiset(a)[x] == multiset(b)[x] {
      OnceInMultiset(a, x);
      OnceInMultiset(b, x);
      assert x in a <==> x in multiset(a);
      assert x in b <==> x in multiset(b);
    }
  }

  /** Some element of a nonempty set. */
  lemma Element<T>(s: set<T>) returns (x: T)
    requires s != {}
    ensures x in s
  {
    x :| x in s;
  }

  ghost predicate Distinct<T>(s: seq<T>) {
    forall i, j :: 0 <= i < j < |s| ==> s[i] != s[j]
  }

  ghost function Elements<T>(s: seq<T>): set<T> {
    set x | x in s
  }

  lemma {:induction false} ElementsCount<T>(s: seq<T>)
    requires Distinct(s)
    ensures |Elements(s)| == |s|
  {
    if s != [] {
      var init, last := s[..|s| - 1], s[|s| - 1];
      ElementsCount(init);
      assert last !in init;
      assert Elements(s) == Elements(init) + {last};
    }
  }

  lemma WithoutOne<T>(s: seq<T>, i: nat)
    requires i < |s|
    ensures multiset(s) == multiset(s[..i] + s[i + 1..]) + multiset{s[i]}
  {
    assert s == s[..i] + [s[i]] + s[i + 1..];
  }

  /** Equal multisets stay equal without one common element. */
  lemma WithoutLast<T>(a: seq<T>, b: seq<T>) returns (i: nat)
    requires a != [] && multiset(a) == multiset(b)
    ensures i < |b| && b[i] == a[|a| - 1]
    ensures multiset(a[..|a| - 1]) == multiset(b[..i] + b[i + 1..])
  {
    var x := a[|a| - 1];
    WithoutOne(a, |a| - 1);
    assert a[..|a| - 1] + a[|a|..] == a[..|a| - 1];
    assert x in multiset(b);
    i :| 0 <= i < |b| && b[i] == x;
    WithoutOne(b, i);
    assert multiset(b) - multiset{x} == multiset(b[..i] + b[i + 1..]);
  }

  lemma TwiceInMultiset<T>(s: seq<T>, i: int, j: int)
    requires 0 <= i < j < |s| && s[i] == s[j]
    ensures multiset(s)[s[i]] >= 2
  {
    assert s == s[..j] + [s[j]] + s[j + 1..];
    assert s[i] in s[..j];
  }

  lemma {:induction false} OnceInMultiset<T>(s: seq<T>, x: T)
    requires Distinct(s)
    ensures multiset(s)[x] <= 1
  {
    if s != [] {
      OnceInMultiset(s[..|s| - 1], x);
      assert s == s[..|s| - 1] + [s[|s| - 1]];
      if s[|s| - 1] == x {
        assert x !in s[..|s| - 1];
      }
    }
  }

  lemma DistinctPermutation<T>(s: seq<T>, r: seq<T>)
    requires multiset(s) == multiset(r) && Distinct(s)
    ensures Distinct(r)
  {
    forall i, j | 0 <= i < j < |r| ensures r[i] != r[j] {
      if r[i] == r[j] {
        TwiceInMultiset(r, i, j);
        OnceInMultiset(s, r[i]);
      }
    }
  }

  lemma SortedDistinct(keys: seq<int>, sorted: seq<int>)
    requires multiset(sorted) == multiset(keys)
    requires SortedBy(sorted, (k: int) => k)
    requires Distinct(keys)
    ensures forall i, j :: 0 <= i < j < |sorted| ==> sorted[i] < sorted[j]
    ensures forall k :: k in sorted <==> k in keys
  {
    forall k ensures k in sorted <==> k in keys {
      assert k in sorted <==> k in multiset(sorted);
      assert k in keys <==> k in multiset(keys);
    }
    DistinctPermutation(keys, sorted);
  }

  /** The numbers of a set in ascending order. */
  method Ascending(numbers: set<int>) returns (sorted: seq<int>)
    ensures forall i, j :: 0 <= i < j < |sorted| ==> sorted[i] < sorted[j]
    ensures forall k :: k in sorted <==> k in numbers
  {
    var keys: seq<int> := [];
    var todo := numbers;
    while todo != {}
      invariant todo <= numbers
      invariant forall k :: k in keys <==> k in numbers && k !in todo
      invariant Distinct(keys)
    {
      ghost var some := Element(todo);
      var k :| k in todo;
      todo := todo - {k};
      keys := keys + [k];
    }
    sorted := StableSort(keys, k => k);
    SortedDistinct(keys, sorted);
  }
}
