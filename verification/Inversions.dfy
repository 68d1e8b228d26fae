/** The inversion count of an arrangement, and what one ordering swap does to it. */
module Inversions {
  import opened Sequences

  /** All index pairs below n in increasing order. */
  ghost function Pairs(n: nat): (s: set<(int, int)>) {
    set p: int, q: int | 0 <= p < n && 0 <= q < n && p < q :: (p, q)
  }

  /** The pairs of positions whose contents are out of order. */
  ghost function Inverted(a: seq<int>): (s: set<(int, int)>) {
    set p: int, q: int | 0 <= p < |a| && 0 <= q < |a| && p < q && a[p] > a[q] :: (p, q)
  }

  ghost function Disorder(a: seq<int>): nat {
    |Inverted(a)|
  }

  lemma {:induction false} SubsetSize<T>(s: set<T>, t: set<T>)
    requires s <= t
    ensures |s| <= |t|
  {
    if s != {} {
      var x :| x in s;
      SubsetSize(s - {x}, t - {x});
    }
  }

  /** The pairs (0, n), ..., (k - 1, n). */
  ghost function Column(n: nat, k: nat): (s: set<(int, int)>) {
    set p: int, q: int | 0 <= p < k && n <= q < n + 1 :: (p, q)
  }

  lemma {:induction false} ColumnSize(n: nat, k: nat)
    ensures |Column(n, k)| == k
  {
    if k == 0 {
      assert Column(n, 0) == {};
    } else {
      ColumnSize(n, k - 1);
      assert Column(n, k) == Column(n, k - 1) + {(k - 1, n as int)};
    }
  }

  lemma {:induction false} PairsSize(n: nat)
    ensures 2 * |Pairs(n)| == n * (n - 1)
  {
    if n == 0 {
      assert Pairs(0) == {};
    } else {
      PairsSize(n - 1);
      ColumnSize(n - 1, n - 1);
      assert Pairs(n) == Pairs(n - 1) + Column(n - 1, n - 1);
      assert Pairs(n - 1) !! Column(n - 1, n - 1);
      assert (n - 1) * (n - 2) + 2 * (n - 1) == n * (n - 1);
    }
  }

  lemma {:induction false} InversionsBound(a: seq<int>)
    ensures 2 * Disorder(a) <= |a| * (|a| - 1)
  {
    assert Inverted(a) <= Pairs(|a|);
    SubsetSize(Inverted(a), Pairs(|a|));
    PairsSize(|a|);
  }

  function Exchange(i: int, j: int, k: int): int {
    if k == i then j else if k == j then i else k
  }

  /** Where an inversion of the swapped arrangement comes from in the original one. */
  function Origin(i: int, j: int, pq: (int, int)): (int, int) {
    if (pq.0 == i && pq.1 < j) || (pq.1 == j && i < pq.0) then pq
    else (Exchange(i, j, pq.0), Exchange(i, j, pq.1))
  }

  lemma {:induction false} InjectiveImage(s: set<(int, int)>, t: set<(int, int)>, i: int, j: int)
    requires forall x :: x in s ==> Origin(i, j, x) in t
    requires forall x, y :: x in s && y in s && Origin(i, j, x) == Origin(i, j, y) ==> x == y
    ensures |s| <= |t|
  {
    if s != {} {
      var x :| x in s;
      InjectiveImage(s - {x}, t - {Origin(i, j, x)}, i, j);
    }
  }

  lemma {:induction false} OriginIsInverted(a: seq<int>, i: nat, j: nat, pq: (int, int))
    requires i < j < |a| && a[i] > a[j] && pq in Inverted(Swap(a, i, j))
    ensures Origin(i, j, pq) in Inverted(a) && Origin(i, j, pq) != (i as int, j as int)
  {
    var b := Swap(a, i, j);
    assert b[pq.0] > b[pq.1];
  }

  lemma {:induction false} OriginIsInjective(i: int, j: int, x: (int, int), y: (int, int))
    requires i < j && x.0 < x.1 && y.0 < y.1 && x != (i, j) && y != (i, j)
    requires Origin(i, j, x) == Origin(i, j, y)
    ensures x == y
  {}

  /** Swapping an out-of-order pair strictly lowers the inversion count, whatever lies between and around it. */
  lemma {:induction false} OrderingSwapLowers(a: seq<int>, i: nat, j: nat)
    requires i < j < |a| && a[i] > a[j]
    ensures Disorder(Swap(a, i, j)) < Disorder(a)
  {
    var b := Swap(a, i, j);
    var s, t := Inverted(b), Inverted(a) - {(i as int, j as int)};
    forall x | x in s
      ensures Origin(i, j, x) in t
    {
      OriginIsInverted(a, i, j, x);
    }
    forall x, y | x in s && y in s && Origin(i, j, x) == Origin(i, j, y)
      ensures x == y
    {
      OriginIsInjective(i, j, x, y);
    }
    InjectiveImage(s, t, i, j);
    assert (i as int, j as int) in Inverted(a);
  }

  /** The converse: swapping a pair that is in order raises the count, so the sign of the change is the comparison. */
  lemma {:induction false} DisorderingSwapRaises(a: seq<int>, i: nat, j: nat)
    requires i < j < |a| && a[i] < a[j]
    ensures Disorder(Swap(a, i, j)) > Disorder(a)
  {
    var b := Swap(a, i, j);
    OrderingSwapLowers(b, i, j);
    assert Swap(b, i, j) == a;
  }

  /** An unsorted arrangement has a neighbouring pair out of order. */
  lemma {:induction false} UnsortedHasAdjacentPair(a: seq<int>) returns (i: nat)
    requires !Sorted(a)
    ensures i + 1 < |a| && a[i] > a[i + 1]
  {
    i := 0;
    while a[i] <= a[i + 1]
      invariant i + 1 < |a| && SortedUpTo(a, i)
      decreases |a| - i
    {
      AdjacentMeansSorted(a, i + 1);
      assert a[..|a|] == a;
      i := i + 1;
    }
  }
}
