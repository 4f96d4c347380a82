/** Sorting by a key, as Kotlin's `sortedWith` (a stable merge sort) and
    SQL's `ORDER BY` do it. Every comparator used by the application is a
    lexicographic comparison of at most two integers, so a comparator is
    given here as a `key` into `Rank`, compared lexicographically, smallest
    first. The sort is insertion sort; StableSortIsInsertionSort shows that
    any stable sort by the same key gives the same sequence, so it stands
    for `sortedWith` exactly. */
module Sorting {

  /** A sort key: compared on `major`, then on `minor`. */
  datatype Rank = Rank(major: int, minor: int)

  /** `a` may come before `b`. */
  predicate RankLe(a: Rank, b: Rank) {
    a.major < b.major || (a.major == b.major && a.minor <= b.minor)
  }

  /** Every element may precede every later one. */
  ghost predicate SortedBy<T>(s: seq<T>, key: T -> Rank) {
    forall i, j :: 0 <= i < j < |s| ==> RankLe(key(s[i]), key(s[j]))
  }

  /** The elements of `s` whose key is `k`, in their order in `s`. */
  function Ties<T>(s: seq<T>, k: Rank, key: T -> Rank): (r: seq<T>)
    ensures |r| <= |s|
  {
    if s == [] then []
    else (if key(s[0]) == k then [s[0]] else []) + Ties(s[1..], k, key)
  }

  /** Puts `x` in front of the first element it may precede. */
  function Insert<T>(x: T, s: seq<T>, key: T -> Rank): (r: seq<T>)
    ensures multiset(r) == multiset(s) + multiset{x}
  {
    if s == [] || RankLe(key(x), key(s[0])) then
      assert s == [] ==> multiset(s) == multiset{};
      [x] + s
    else
      assert s == [s[0]] + s[1..];
      [s[0]] + Insert(x, s[1..], key)
  }

  /** Inserting into a sorted sequence keeps it sorted. */
  lemma {:induction false} InsertSorted<T>(x: T, s: seq<T>, key: T -> Rank)
    requires SortedBy(s, key)
    ensures SortedBy(Insert(x, s, key), key)
  {
    if s != [] && !RankLe(key(x), key(s[0])) {
      var tail := Insert(x, s[1..], key);
      InsertSorted(x, s[1..], key);
      forall y | y in tail ensures RankLe(key(s[0]), key(y)) {
        assert y in multiset(tail);
        if y != x {
          assert y in s[1..];
          var j :| 1 <= j < |s| && s[j] == y;
        }
      }
      var r := [s[0]] + tail;
      forall i, j | 0 <= i < j < |r| ensures RankLe(key(r[i]), key(r[j])) {
        if i == 0 { assert r[j] == tail[j - 1] && r[j] in tail; }
        else { assert r[i] == tail[i - 1] && r[j] == tail[j - 1]; }
      }
    }
  }

  /** A stable sort: the result is a permutation of `s`, sorted by `key`. */
  function InsertionSort<T>(s: seq<T>, key: T -> Rank): (r: seq<T>)
    ensures multiset(r) == multiset(s) && |r| == |s|
    ensures SortedBy(r, key)
  {
    if s == [] then []
    else
      assert s == [s[0]] + s[1..];
      InsertSorted(s[0], InsertionSort(s[1..], key), key);
      Insert(s[0], InsertionSort(s[1..], key), key)
  }

  /** Inserting `x` puts it ahead of everything with the same key. */
  lemma {:induction false} InsertTies<T>(x: T, s: seq<T>, k: Rank, key: T -> Rank)
    ensures Ties(Insert(x, s, key), k, key) == (if key(x) == k then [x] else []) + Ties(s, k, key)
  {
    if s == [] || RankLe(key(x), key(s[0])) {
      assert ([x] + s)[1..] == s;
    } else {
      InsertTies(x, s[1..], k, key);
      var tail := Insert(x, s[1..], key);
      assert ([s[0]] + tail)[1..] == tail;
    }
  }

  /** Stability: the elements with any given key keep their input order. */
  lemma {:induction false} InsertionSortStable<T>(s: seq<T>, k: Rank, key: T -> Rank)
    ensures Ties(InsertionSort(s, key), k, key) == Ties(s, k, key)
  {
    if s != [] {
      InsertionSortStable(s[1..], k, key);
      InsertTies(s[0], InsertionSort(s[1..], key), k, key);
    }
  }

  /** Sortedness, being a permutation of each other and agreeing on the
      order within every key fix a sequence completely. */
  lemma {:induction false} StableSortIsUnique<T>(r1: seq<T>, r2: seq<T>, key: T -> Rank)
    requires multiset(r1) == multiset(r2)
    requires SortedBy(r1, key) && SortedBy(r2, key)
    requires forall k :: Ties(r1, k, key) == Ties(r2, k, key)
    ensures r1 == r2
  {
    if r1 != [] {
      assert r2 != [] by { assert |r2| == |multiset(r2)| == |multiset(r1)| == |r1|; }
      var h1, h2 := r1[0], r2[0];
      HeadsTie(r1, r2, key);
      var k1 := key(h1);
      assert h1 == h2 by {
        assert Ties(r1, k1, key) == Ties(r2, k1, key);
        assert Ties(r1, k1, key)[0] == h1;
        assert Ties(r2, k1, key)[0] == h2;
      }
      forall k ensures Ties(r1[1..], k, key) == Ties(r2[1..], k, key) {
        DropTie(r1, k, key);
        DropTie(r2, k, key);
        assert Ties(r1, k, key) == Ties(r2, k, key);
      }
      TailOf(r1, key);
      TailOf(r2, key);
      StableSortIsUnique(r1[1..], r2[1..], key);
    }
  }

  /** The tail of a sorted sequence is sorted and holds all but the head. */
  lemma TailOf<T>(s: seq<T>, key: T -> Rank)
    requires s != []
    ensures multiset(s[1..]) == multiset(s) - multiset{s[0]}
    ensures SortedBy(s, key) ==> SortedBy(s[1..], key)
  {
    assert s == [s[0]] + s[1..];
  }

  /** Two sorted permutations of each other start with the same key. */
  lemma HeadsTie<T>(r1: seq<T>, r2: seq<T>, key: T -> Rank)
    requires multiset(r1) == multiset(r2) && r1 != [] && r2 != []
    requires SortedBy(r1, key) && SortedBy(r2, key)
    ensures key(r1[0]) == key(r2[0])
  {
    assert r2[0] in multiset(r1) by { assert r2[0] in multiset(r2); }
    assert r1[0] in multiset(r2) by { assert r1[0] in multiset(r1); }
    var i :| 0 <= i < |r1| && r1[i] == r2[0];
    var j :| 0 <= j < |r2| && r2[j] == r1[0];
    assert i == 0 || RankLe(key(r1[0]), key(r1[i]));
    assert j == 0 || RankLe(key(r2[0]), key(r2[j]));
  }

  /** Taking the first element off a non-empty sequence takes it off its own
      key's ties only. */
  lemma DropTie<T>(s: seq<T>, k: Rank, key: T -> Rank)
    requires s != []
    ensures key(s[0]) == k ==> Ties(s, k, key) != [] && Ties(s, k, key)[0] == s[0]
                               && Ties(s, k, key)[1..] == Ties(s[1..], k, key)
    ensures key(s[0]) != k ==> Ties(s, k, key) == Ties(s[1..], k, key)
  {
    if key(s[0]) == k {
      assert Ties(s, k, key) == [s[0]] + Ties(s[1..], k, key);
    }
  }

  /** Hence any sorted permutation of `s` that keeps the input order within
      every key is exactly InsertionSort(s). */
  lemma StableSortIsInsertionSort<T>(s: seq<T>, r: seq<T>, key: T -> Rank)
    requires multiset(r) == multiset(s) && SortedBy(r, key)
    requires forall k :: Ties(r, k, key) == Ties(s, k, key)
    ensures r == InsertionSort(s, key)
  {
    forall k ensures Ties(r, k, key) == Ties(InsertionSort(s, key), k, key) {
      InsertionSortStable(s, k, key);
    }
    StableSortIsUnique(r, InsertionSort(s, key), key);
  }
}
