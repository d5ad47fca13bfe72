/**
  Sequence helpers shared by the rules engine: Python's stable `sort`/`sorted`
  as an insertion sort on an integer key, element-wise mapping, and the
  "no card twice" predicate.
 */
module Sequences {

  /** The identity key, used to sort a list of plain integers. */
  function Id(x: int): int { x }

  /** No later element has a smaller key than an earlier one. */
  predicate Sorted<T>(s: seq<T>, key: T -> int) {
    forall i, j :: 0 <= i < j < |s| ==> key(s[i]) <= key(s[j])
  }

  /** An element no larger than any of a sorted list can go in front of it. */
  lemma SortedCons<T>(x: T, s: seq<T>, key: T -> int)
    requires Sorted(s, key)
    requires forall i :: 0 <= i < |s| ==> key(x) <= key(s[i])
    ensures Sorted([x] + s, key)
  {
    var r := [x] + s;
    forall i, j | 0 <= i < j < |r| ensures key(r[i]) <= key(r[j]) {
      assert r[j] == s[j - 1];
      if i > 0 {
        assert r[i] == s[i - 1];
      }
    }
  }

  /** Places x after every element whose key is not larger: the stable insertion step. */
  function Insert<T>(s: seq<T>, x: T, key: T -> int): (r: seq<T>)
    ensures |r| == |s| + 1
    ensures Sorted(s, key) ==> Sorted(r, key)
    decreases |s|, 0
  {
    if |s| == 0 then [x]
    else if key(s[|s| - 1]) <= key(x) then s + [x]
    else
      var init, last := s[..|s| - 1], s[|s| - 1];
      assert s == init + [last];
      var r' := Insert(init, x, key);
      assert Sorted(s, key) ==> forall i :: 0 <= i < |r'| ==> key(r'[i]) <= key(last) by {
        if Sorted(s, key) {
          InsertPermutes(init, x, key);
          forall i | 0 <= i < |r'| ensures key(r'[i]) <= key(last) {
            assert r'[i] in multiset(r');
            if r'[i] != x {
              assert r'[i] in multiset(init);
              var j :| 0 <= j < |init| && init[j] == r'[i];
              assert key(s[j]) <= key(s[|s| - 1]);
            }
          }
        }
      }
      r' + [last]
  }

  /** Python's stable sort by `key`: the result is ordered and a permutation of the input. */
  function SortBy<T>(s: seq<T>, key: T -> int): (r: seq<T>)
    ensures |r| == |s|
    ensures Sorted(r, key)
  {
    if |s| == 0 then []
    else Insert(SortBy(s[..|s| - 1], key), s[|s| - 1], key)
  }

  /** The insertion step adds x and keeps every other element. */
  lemma {:induction false} InsertPermutes<T>(s: seq<T>, x: T, key: T -> int)
    ensures multiset(Insert(s, x, key)) == multiset(s) + multiset{x}
    decreases |s|, 1
  {
    if |s| > 0 && key(s[|s| - 1]) > key(x) {
      var init, last := s[..|s| - 1], s[|s| - 1];
      assert s == init + [last];
      InsertPermutes(init, x, key);
    }
  }

  /** The sort is a permutation of its input. */
  lemma {:induction false} SortByPermutes<T>(s: seq<T>, key: T -> int)
    ensures multiset(SortBy(s, key)) == multiset(s)
  {
    if |s| > 0 {
      var init := s[..|s| - 1];
      assert s == init + [s[|s| - 1]];
      SortByPermutes(init, key);
      InsertPermutes(SortBy(init, key), s[|s| - 1], key);
    }
  }

  /** Sorting a list with one more element at the end inserts that element into the sorted list. */
  lemma SortByAppend<T>(s: seq<T>, x: T, key: T -> int)
    ensures SortBy(s + [x], key) == Insert(SortBy(s, key), x, key)
  {
    assert (s + [x])[..|s|] == s;
  }

  /** Sorting a list that is already sorted leaves it as it is (stability). */
  lemma {:induction false} SortBySortedIsIdentity<T>(s: seq<T>, key: T -> int)
    requires Sorted(s, key)
    ensures SortBy(s, key) == s
  {
    if |s| > 0 {
      var init := s[..|s| - 1];
      SortedInit(s, key);
      SortBySortedIsIdentity(init, key);
      assert s == init + [s[|s| - 1]];
      if |init| > 0 {
        assert key(init[|init| - 1]) <= key(s[|s| - 1]);
      }
    }
  }

  /** Dropping the last element of a sorted list keeps it sorted. */
  lemma SortedInit<T>(s: seq<T>, key: T -> int)
    requires |s| > 0 && Sorted(s, key)
    ensures Sorted(s[..|s| - 1], key)
  {
    var init := s[..|s| - 1];
    forall i, j | 0 <= i < j < |init| ensures key(init[i]) <= key(init[j]) {
      assert init[i] == s[i] && init[j] == s[j];
    }
  }

  /** Dropping the head of a sorted list keeps it sorted. */
  lemma SortedTail<T>(s: seq<T>, key: T -> int)
    requires |s| > 0 && Sorted(s, key)
    ensures Sorted(s[1..], key)
  {
    var tail := s[1..];
    forall i, j | 0 <= i < j < |tail| ensures key(tail[i]) <= key(tail[j]) {
      assert tail[i] == s[i + 1] && tail[j] == s[j + 1];
    }
  }

  /** Two sorted permutations of each other are equal when the key tells elements apart. */
  lemma {:induction false} SortedUnique<T>(a: seq<T>, b: seq<T>, key: T -> int)
    requires Sorted(a, key) && Sorted(b, key)
    requires multiset(a) == multiset(b)
    requires forall x, y :: x in a && y in a && key(x) == key(y) ==> x == y
    ensures a == b
  {
    if |a| == 0 {
      assert |multiset(b)| == 0;
    } else {
      SortedSameHead(a, b, key);
      SameHeadSameTail(a, b);
      var a', b' := a[1..], b[1..];
      SortedTail(a, key);
      SortedTail(b, key);
      forall u, v | u in a' && v in a' && key(u) == key(v) ensures u == v {
        assert u in a && v in a by { assert a == [a[0]] + a'; }
      }
      SortedUnique(a', b', key);
      assert a == [a[0]] + a' && b == [b[0]] + b';
    }
  }

  /** Sorted permutations of each other, with a key that tells elements apart, start with the same element. */
  lemma SortedSameHead<T>(a: seq<T>, b: seq<T>, key: T -> int)
    requires Sorted(a, key) && Sorted(b, key)
    requires multiset(a) == multiset(b) && |a| > 0
    requires forall x, y :: x in a && y in a && key(x) == key(y) ==> x == y
    ensures |b| > 0 && a[0] == b[0]
  {
    var x := a[0];
    assert x in multiset(b);
    var j :| 0 <= j < |b| && b[j] == x;
    var y := b[0];
    assert y in multiset(a);
    var k :| 0 <= k < |a| && a[k] == y;
    assert key(y) <= key(x) && key(x) <= key(y);
  }

  /** Permutations of each other with the same first element are permutations after it. */
  lemma SameHeadSameTail<T>(a: seq<T>, b: seq<T>)
    requires |a| > 0 && |b| > 0 && a[0] == b[0] && multiset(a) == multiset(b)
    ensures multiset(a[1..]) == multiset(b[1..])
  {
    assert a == [a[0]] + a[1..];
    assert b == [b[0]] + b[1..];
    assert multiset(a[1..]) == multiset(a) - multiset{a[0]};
    assert multiset(b[1..]) == multiset(b) - multiset{b[0]};
  }

  /** The permutation of `s` that the sort picks does not depend on the input order. */
  lemma SortByPermutation<T>(a: seq<T>, b: seq<T>, key: T -> int)
    requires multiset(a) == multiset(b)
    requires forall x, y :: x in a && y in a && key(x) == key(y) ==> x == y
    ensures SortBy(a, key) == SortBy(b, key)
  {
    var sa, sb := SortBy(a, key), SortBy(b, key);
    SortByPermutes(a, key);
    SortByPermutes(b, key);
    forall x, y | x in sa && y in sa && key(x) == key(y) ensures x == y {
      assert x in multiset(a) && y in multiset(a);
    }
    SortedUnique(sa, sb, key);
  }

  /** `[f(x) for x in s]`. */
  function Map<A, B>(s: seq<A>, f: A -> B): (r: seq<B>)
    ensures |r| == |s|
    ensures forall i :: 0 <= i < |s| ==> r[i] == f(s[i])
  {
    seq(|s|, i requires 0 <= i < |s| => f(s[i]))
  }

  lemma MapConcat<A, B>(s: seq<A>, t: seq<A>, f: A -> B)
    ensures Map(s + t, f) == Map(s, f) + Map(t, f)
  {
  }

  /** Mapping two permutations of each other gives two permutations of each other. */
  lemma {:induction false} MapPermutation<A, B>(a: seq<A>, b: seq<A>, f: A -> B)
    requires multiset(a) == multiset(b)
    ensures multiset(Map(a, f)) == multiset(Map(b, f))
  {
    if |a| == 0 {
      assert |multiset(b)| == 0;
      assert Map(a, f) == [] == Map(b, f);
    } else {
      var n := |a| - 1;
      var x := a[n];
      assert x in multiset(b);
      var j :| 0 <= j < |b| && b[j] == x;
      var a', b1, b2 := a[..n], b[..j], b[j + 1..];
      assert a == a' + [x];
      assert b == b1 + [x] + b2;
      assert multiset(a') == multiset(a) - multiset{x};
      assert multiset(b1 + b2) == multiset(b) - multiset{x};
      MapPermutation(a', b1 + b2, f);
      MapAround(a', [], x, f);
      MapAround(b1, b2, x, f);
      assert a' + [x] + [] == a && a' + [] == a';
      assert multiset(Map(a, f)) == multiset(Map(a', f)) + multiset{f(x)};
      assert multiset(Map(b, f)) == multiset(Map(b1 + b2, f)) + multiset{f(x)};
    }
  }

  /** Mapping a list with x between s and t adds f(x) to the mapped s and t. */
  lemma MapAround<A, B>(s: seq<A>, t: seq<A>, x: A, f: A -> B)
    ensures multiset(Map(s + [x] + t, f)) == multiset(Map(s + t, f)) + multiset{f(x)}
  {
    MapConcat(s + [x], t, f);
    MapConcat(s, [x], f);
    MapConcat(s, t, f);
    assert Map([x], f) == [f(x)];
  }

  /** No element occurs twice. */
  ghost predicate NoDup<T(!new)>(s: seq<T>) {
    forall x :: multiset(s)[x] <= 1
  }

  /** Elements at distinct positions differ exactly when no element occurs twice. */
  lemma {:induction false} NoDupIffDistinct<T(!new)>(s: seq<T>)
    ensures NoDup(s) <==> forall i, j :: 0 <= i < j < |s| ==> s[i] != s[j]
  {
    if |s| > 0 {
      var n := |s| - 1;
      assert s == s[..n] + [s[n]];
      NoDupIffDistinct(s[..n]);
      if NoDup(s) {
        forall i, j | 0 <= i < j < |s| ensures s[i] != s[j] {
          assert s == s[..i] + [s[i]] + s[i + 1..j] + [s[j]] + s[j + 1..];
          assert multiset(s)[s[i]] >= multiset{s[i], s[j]}[s[i]];
        }
      }
      if forall i, j :: 0 <= i < j < |s| ==> s[i] != s[j] {
        assert forall i :: 0 <= i < n ==> s[..n][i] != s[n];
        assert s[n] !in s[..n];
        forall x ensures multiset(s)[x] <= 1 {
          assert multiset(s)[x] == multiset(s[..n])[x] + multiset{s[n]}[x];
        }
      }
    }
  }

  /** `list(range(n))`. */
  function Iota(n: nat): (r: seq<int>)
    ensures |r| == n
    ensures forall i :: 0 <= i < n ==> r[i] == i
  {
    seq(n, i => i)
  }
}
