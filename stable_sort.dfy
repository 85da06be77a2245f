/** `Array.prototype.sort` with a comparator, as the modelled code uses it. The
    engine's sort is stable, so for a comparator that is a difference of ranks the
    result is the stable ordering by rank; insertion sort is taken as the reference
    definition of that ordering. */
module StableSort {

  /** On the elements of s the comparator orders by `rank`: cmp(a, b) < 0 puts a
      first. */
  ghost predicate RankComparatorOn<T>(cmp: (T, T) -> real, rank: T -> real, s: seq<T>) {
    forall a, b :: a in s && b in s ==> cmp(a, b) == rank(a) - rank(b)
  }

  /** Ranks never decrease along s. */
  ghost predicate SortedBy<T>(s: seq<T>, rank: T -> real) {
    forall i, j :: 0 <= i < j < |s| ==> rank(s[i]) <= rank(s[j])
  }

  /** Inserts x in front of the first element it does not sort after. */
  function Insert<T>(x: T, s: seq<T>, cmp: (T, T) -> real): (r: seq<T>)
    ensures multiset(r) == multiset(s) + multiset{x}
  {
    if s == [] then [x]
    else if cmp(x, s[0]) <= 0.0 then [x] + s
    else
      assert s == [s[0]] + s[1..];
      [s[0]] + Insert(x, s[1..], cmp)
  }

  /** `[...s].sort(cmp)`: a fresh, reordered copy; s itself is a value and stays as it was. */
  function SortBy<T>(s: seq<T>, cmp: (T, T) -> real): (r: seq<T>)
    ensures multiset(r) == multiset(s)
  {
    if s == [] then []
    else
      assert s == [s[0]] + s[1..];
      Insert(s[0], SortBy(s[1..], cmp), cmp)
  }

  /** The sort keeps the length of its input. */
  lemma SortByLength<T>(s: seq<T>, cmp: (T, T) -> real)
    ensures |SortBy(s, cmp)| == |s|
  {
    var r := SortBy(s, cmp);
    assert |r| == |multiset(r)| == |multiset(s)| == |s|;
  }

  /** The sort keeps the length and the elements of its input. */
  lemma SortByPermutes<T>(s: seq<T>, cmp: (T, T) -> real)
    ensures |SortBy(s, cmp)| == |s|
    ensures forall x :: x in SortBy(s, cmp) <==> x in s
  {
    var r := SortBy(s, cmp);
    assert |r| == |multiset(r)| == |multiset(s)| == |s|;
    forall x ensures x in r <==> x in s {
      assert x in r <==> x in multiset(r);
      assert x in s <==> x in multiset(s);
    }
  }

  lemma {:induction false} InsertSorted<T>(x: T, s: seq<T>, cmp: (T, T) -> real, rank: T -> real)
    requires RankComparatorOn(cmp, rank, [x] + s)
    requires SortedBy(s, rank)
    ensures SortedBy(Insert(x, s, cmp), rank)
    decreases |s|
  {
    if s == [] || cmp(x, s[0]) <= 0.0 {
      if s != [] {
        assert x in [x] + s && s[0] in [x] + s;
        ConsSorted(x, s, rank);
      }
    } else {
      assert x in [x] + s && s[0] in [x] + s;
      DropSecond(x, s, cmp, rank);
      InsertSorted(x, s[1..], cmp, rank);
      InsertAfterHead(x, s, cmp, rank);
      ConsSorted(s[0], Insert(x, s[1..], cmp), rank);
    }
  }

  lemma DropSecond<T>(x: T, s: seq<T>, cmp: (T, T) -> real, rank: T -> real)
    requires s != [] && RankComparatorOn(cmp, rank, [x] + s)
    ensures RankComparatorOn(cmp, rank, [x] + s[1..])
  {
    forall a | a in [x] + s[1..] ensures a in [x] + s {
      if a != x {
        var k :| 0 <= k < |s[1..]| && s[1..][k] == a;
        assert s[k + 1] == a;
      }
    }
  }

  /** Every element of the insertion into the rest of s ranks at or above the head of s. */
  lemma InsertAfterHead<T>(x: T, s: seq<T>, cmp: (T, T) -> real, rank: T -> real)
    requires s != [] && SortedBy(s, rank) && rank(s[0]) <= rank(x)
    ensures forall e :: e in Insert(x, s[1..], cmp) ==> rank(s[0]) <= rank(e)
  {
    var tail := Insert(x, s[1..], cmp);
    forall e | e in tail ensures rank(s[0]) <= rank(e) {
      assert e in multiset(tail);
      assert e == x || e in multiset(s[1..]);
      if e != x {
        var k :| 0 <= k < |s[1..]| && s[1..][k] == e;
        assert s[k + 1] == e;
      }
    }
  }

  /** An element at or below every element of a sorted sequence can go in front. */
  lemma ConsSorted<T>(y: T, t: seq<T>, rank: T -> real)
    requires SortedBy(t, rank) && forall e :: e in t ==> rank(y) <= rank(e)
    ensures SortedBy([y] + t, rank)
  {
    var r := [y] + t;
    forall i, j | 0 <= i < j < |r| ensures rank(r[i]) <= rank(r[j]) {
      if i == 0 {
        assert r[j] == t[j - 1];
        assert r[j] in t;
      }
    }
  }

  /** With a comparator that is a rank difference on the input, the result is
      ordered by rank. */
  lemma {:induction false} SortBySorted<T>(s: seq<T>, cmp: (T, T) -> real, rank: T -> real)
    requires RankComparatorOn(cmp, rank, s)
    ensures SortedBy(SortBy(s, cmp), rank)
  {
    if s != [] {
      var t := SortBy(s[1..], cmp);
      assert s == [s[0]] + s[1..];
      assert RankComparatorOn(cmp, rank, s[1..]);
      SortBySorted(s[1..], cmp, rank);
      SortByPermutes(s[1..], cmp);
      assert RankComparatorOn(cmp, rank, [s[0]] + t);
      InsertSorted(s[0], t, cmp, rank);
    }
  }

  /** An input already ordered by rank comes back unchanged (the sort is stable): in
      particular, a comparator that always answers 0 leaves the order as it was. */
  lemma {:induction false} SortByKeepsSorted<T>(s: seq<T>, cmp: (T, T) -> real, rank: T -> real)
    requires RankComparatorOn(cmp, rank, s)
    requires SortedBy(s, rank)
    ensures SortBy(s, cmp) == s
  {
    if s != [] {
      assert s == [s[0]] + s[1..];
      assert SortedBy(s[1..], rank) by {
        forall i, j | 0 <= i < j < |s[1..]| ensures rank(s[1..][i]) <= rank(s[1..][j]) {
          assert s[1..][i] == s[i + 1] && s[1..][j] == s[j + 1];
        }
      }
      assert RankComparatorOn(cmp, rank, s[1..]);
      SortByKeepsSorted(s[1..], cmp, rank);
      if |s| > 1 {
        assert s[0] in s && s[1] in s;
      }
    }
  }

  /** Two comparators that agree on every pair of input elements produce the same
      order. */
  lemma SortBySameComparator<T>(s: seq<T>, cmp1: (T, T) -> real, cmp2: (T, T) -> real)
    requires forall a, b :: a in s && b in s ==> cmp1(a, b) == cmp2(a, b)
    ensures SortBy(s, cmp1) == SortBy(s, cmp2)
  {
    SortBySameComparatorWithin(s, s, cmp1, cmp2);
  }

  lemma {:induction false} SortBySameComparatorWithin<T>(s: seq<T>, u: seq<T>, cmp1: (T, T) -> real, cmp2: (T, T) -> real)
    requires forall y :: y in s ==> y in u
    requires forall a, b :: a in u && b in u ==> cmp1(a, b) == cmp2(a, b)
    ensures SortBy(s, cmp1) == SortBy(s, cmp2)
  {
    if s != [] {
      var tail := s[1..];
      TailWithin(s, u);
      SortBySameComparatorWithin(tail, u, cmp1, cmp2);
      var sorted := SortBy(tail, cmp1);
      SortByPermutes(tail, cmp1);
      forall y | y in sorted ensures y in u {
        assert y in multiset(sorted);
        assert y in tail;
      }
      assert s[0] in s;
      InsertSameComparator(s[0], sorted, cmp1, cmp2, u);
    }
  }

  lemma TailWithin<T>(s: seq<T>, u: seq<T>)
    requires s != [] && forall y :: y in s ==> y in u
    ensures forall y :: y in s[1..] ==> y in u
  {
    forall y | y in s[1..] ensures y in u {
      var k :| 0 <= k < |s[1..]| && s[1..][k] == y;
      assert s[k + 1] == y;
    }
  }

  lemma {:induction false} InsertSameComparator<T>(x: T, t: seq<T>, cmp1: (T, T) -> real, cmp2: (T, T) -> real, s: seq<T>)
    requires x in s && forall y :: y in t ==> y in s
    requires forall a, b :: a in s && b in s ==> cmp1(a, b) == cmp2(a, b)
    ensures Insert(x, t, cmp1) == Insert(x, t, cmp2)
    decreases |t|
  {
    if t != [] {
      assert t[0] in t;
      InsertSameComparator(x, t[1..], cmp1, cmp2, s);
    }
  }

  /** In a sequence ordered by rank, every element of a prefix ranks at or below
      every element after it: taking a prefix keeps the best-ranked elements. */
  lemma PrefixRanksFirst<T>(s: seq<T>, n: nat, rank: T -> real)
    requires SortedBy(s, rank) && n <= |s|
    ensures SortedBy(s[..n], rank)
    ensures forall i, j :: 0 <= i < n <= j < |s| ==> rank(s[i]) <= rank(s[j])
  {
  }

  /** Every element after a prefix of a sequence ordered by rank ranks at or above
      each element of the prefix. */
  lemma SuffixRanksAfterPrefix<T>(s: seq<T>, n: nat, rank: T -> real)
    requires SortedBy(s, rank) && n <= |s|
    ensures forall x :: x in s[n..] ==> forall i :: 0 <= i < n ==> rank(s[i]) <= rank(x)
  {
    forall x | x in s[n..] ensures forall i :: 0 <= i < n ==> rank(s[i]) <= rank(x) {
      var k :| 0 <= k < |s[n..]| && s[n..][k] == x;
      assert s[n + k] == x;
    }
  }
}
