/** Python's `sorted(xs, key=...)` and `list.sort(key=...)`: a stable sort
    by a key. The keys the analytics sort by are a number (a timestamp, an
    average stop sequence) or a pair `(flag, number)`, so a key is modelled
    as an integer major part and a real minor part compared lexicographically. */
module Sorting {
  import opened Common

  datatype Rank = Rank(major: int, minor: real)

  predicate RankLe(a: Rank, b: Rank)
  {
    a.major < b.major || (a.major == b.major && a.minor <= b.minor)
  }

  predicate SortedBy<T>(s: seq<T>, rank: T -> Rank)
  {
    forall i, j :: 0 <= i < j < |s| ==> RankLe(rank(s[i]), rank(s[j]))
  }

  /** Insert `x` before the first element whose key is not smaller than its own. */
  function Insert<T>(x: T, s: seq<T>, rank: T -> Rank): (r: seq<T>)
    ensures multiset(r) == multiset(s) + multiset{x}
    ensures |r| == |s| + 1
  {
    if s == [] then [x]
    else if RankLe(rank(x), rank(s[0])) then [x] + s
    else
      assert s == [s[0]] + s[1..];
      [s[0]] + Insert(x, s[1..], rank)
  }

  /** Insertion sort, which keeps elements with equal keys in their original order. */
  function SortBy<T>(s: seq<T>, rank: T -> Rank): seq<T>
  {
    if s == [] then [] else Insert(s[0], SortBy(s[1..], rank), rank)
  }

  lemma {:induction false} InsertSorted<T>(x: T, s: seq<T>, rank: T -> Rank)
    requires SortedBy(s, rank)
    ensures SortedBy(Insert(x, s, rank), rank)
  {
    if s != [] && !RankLe(rank(x), rank(s[0])) {
      InsertSorted(x, s[1..], rank);
      var r := Insert(x, s[1..], rank);
      assert multiset(r) == multiset(s[1..]) + multiset{x};
      forall y | y in r ensures RankLe(rank(s[0]), rank(y))
      {
        assert y in multiset(r);
        if y != x {
          assert y in multiset(s[1..]);
          assert y in s[1..];
        }
      }
      assert SortedBy([s[0]] + r, rank) by {
        forall i, j | 0 <= i < j < |[s[0]] + r|
          ensures RankLe(rank(([s[0]] + r)[i]), rank(([s[0]] + r)[j]))
        {
          if i == 0 {
            assert ([s[0]] + r)[j] == r[j - 1];
            assert r[j - 1] in r;
          }
        }
      }
    }
  }

  /** The sort puts the elements in key order. */
  lemma {:induction false} SortBySorted<T>(s: seq<T>, rank: T -> Rank)
    ensures SortedBy(SortBy(s, rank), rank)
  {
    if s != [] {
      SortBySorted(s[1..], rank);
      InsertSorted(s[0], SortBy(s[1..], rank), rank);
    }
  }

  /** The sort keeps exactly the elements it was given. */
  lemma {:induction false} SortByPermutation<T>(s: seq<T>, rank: T -> Rank)
    ensures multiset(SortBy(s, rank)) == multiset(s)
    ensures |SortBy(s, rank)| == |s|
  {
    if s != [] {
      SortByPermutation(s[1..], rank);
      assert s == [s[0]] + s[1..];
    }
  }

  /** The elements of `s` whose key is `k`. */
  function WithKey<T>(rank: T -> Rank, k: Rank): T -> bool
  {
    (y: T) => rank(y) == k
  }

  lemma FilterOne<T>(y: T, p: T -> bool)
    ensures Filter([y], p) == if p(y) then [y] else []
  {
    assert [y][..0] == [];
  }

  lemma PrependEither<T>(a: seq<T>, b: seq<T>, c: seq<T>)
    requires a == [] || b == []
    ensures b + (a + c) == a + (b + c)
  {
    if a == [] {
      assert a + c == c;
    } else {
      assert b + c == c;
    }
  }

  /** Inserting `x` puts it ahead of every element that has its key, and leaves
      the elements of any other key as they were. */
  lemma {:induction false} InsertWithKey<T>(x: T, s: seq<T>, rank: T -> Rank, k: Rank)
    ensures Filter(Insert(x, s, rank), WithKey(rank, k))
         == Filter([x], WithKey(rank, k)) + Filter(s, WithKey(rank, k))
  {
    var p := WithKey(rank, k);
    if s == [] {
      assert Insert(x, s, rank) == [x] + s;
    } else if RankLe(rank(x), rank(s[0])) {
      assert Insert(x, s, rank) == [x] + s;
      FilterConcat([x], s, p);
    } else {
      var t := s[1..];
      assert s == [s[0]] + t;
      assert Insert(x, s, rank) == [s[0]] + Insert(x, t, rank);
      InsertWithKey(x, t, rank, k);
      FilterConcat([s[0]], Insert(x, t, rank), p);
      FilterConcat([s[0]], t, p);
      var a, b, c := Filter([x], p), Filter([s[0]], p), Filter(t, p);
      FilterOne(x, p);
      FilterOne(s[0], p);
      if rank(x) == k {
        assert b == [];
      }
      PrependEither(a, b, c);
    }
  }

  /** The sort is stable: the elements of any one key come out in the order
      they went in. */
  lemma {:induction false} SortByStable<T>(s: seq<T>, rank: T -> Rank, k: Rank)
    ensures Filter(SortBy(s, rank), WithKey(rank, k)) == Filter(s, WithKey(rank, k))
  {
    if s != [] {
      var p := WithKey(rank, k);
      SortByStable(s[1..], rank, k);
      InsertWithKey(s[0], SortBy(s[1..], rank), rank, k);
      assert s == [s[0]] + s[1..];
      FilterConcat([s[0]], s[1..], p);
    }
  }

  /** A sequence already in key order is left as it is. */
  lemma {:induction false} SortBySortedInput<T>(s: seq<T>, rank: T -> Rank)
    requires SortedBy(s, rank)
    ensures SortBy(s, rank) == s
  {
    if s != [] {
      assert SortedBy(s[1..], rank);
      SortBySortedInput(s[1..], rank);
      if |s| > 1 {
        assert RankLe(rank(s[0]), rank(s[1]));
        assert [s[0]] + s[1..] == s;
      }
    }
  }

  /** In a sorted sequence, the elements strictly below position `mid` in key
      order number at most `mid`, and those strictly above at most `|s| - 1 - mid`. */
  lemma SortedRankCounts<T>(s: seq<T>, rank: T -> Rank, mid: int, below: T -> bool, above: T -> bool)
    requires SortedBy(s, rank) && 0 <= mid < |s|
    requires forall x :: below(x) ==> !RankLe(rank(s[mid]), rank(x))
    requires forall x :: above(x) ==> !RankLe(rank(x), rank(s[mid]))
    ensures CountIf(s, below) <= mid
    ensures CountIf(s, above) <= |s| - 1 - mid
  {
    var lo, hi := s[..mid], s[mid..];
    assert s == lo + hi;
    CountIfConcat(lo, hi, below);
    forall i | 0 <= i < |hi| ensures !below(hi[i])
    {
      assert hi[i] == s[mid + i];
      if i > 0 {
        assert RankLe(rank(s[mid]), rank(s[mid + i]));
      }
    }
    CountIfNone(hi, below);
    var lo2, hi2 := s[..mid + 1], s[mid + 1..];
    assert s == lo2 + hi2;
    CountIfConcat(lo2, hi2, above);
    forall i | 0 <= i < |lo2| ensures !above(lo2[i])
    {
      assert lo2[i] == s[i];
      if i < mid {
        assert RankLe(rank(s[i]), rank(s[mid]));
      }
    }
    CountIfNone(lo2, above);
  }
}
