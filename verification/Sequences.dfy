/** Facts about sequences shared by the models: swapping, order, and the stock 1..n. */
module Sequences {

  function Swap<T>(a: seq<T>, i: nat, j: nat): (b: seq<T>)
    requires i < |a| && j < |a|
    ensures |b| == |a| && b[i] == a[j] && b[j] == a[i]
    ensures forall k :: 0 <= k < |a| && k != i && k != j ==> b[k] == a[k]
  {
    a[i := a[j]][j := a[i]]
  }

  lemma {:induction false} SwapIsAPermutation<T>(a: seq<T>, i: nat, j: nat)
    requires i < |a| && j < |a|
    ensures multiset(Swap(a, i, j)) == multiset(a)
  {}

  predicate Sorted(a: seq<int>) {
    forall i, j :: 0 <= i < j < |a| ==> a[i] <= a[j]
  }

  /** What an adjacent scan checks: no neighbouring pair among the first `k` + 1 is out of order. */
  predicate SortedUpTo(a: seq<int>, k: nat)
    requires k < |a|
  {
    forall i :: 0 <= i < k ==> a[i] <= a[i + 1]
  }

  ghost predicate Distinct<T>(a: seq<T>) {
    forall i, j :: 0 <= i < j < |a| ==> a[i] != a[j]
  }

  /** The initial stock: 1, 2, ..., n. */
  function Stock(n: nat): (s: seq<int>)
    ensures |s| == n && forall i :: 0 <= i < n ==> s[i] == i + 1
  {
    seq(n, i => i + 1)
  }

  lemma {:induction false} AdjacentMeansSorted(a: seq<int>, k: nat)
    requires k < |a| && SortedUpTo(a, k)
    ensures Sorted(a[..k + 1])
  {
    if k > 0 {
      AdjacentMeansSorted(a, k - 1);
      forall i, j | 0 <= i < j < k + 1
        ensures a[i] <= a[j]
      {
        if j == k && i < k - 1 {
          assert a[..k][i] <= a[..k][k - 1];
        } else if j < k {
          assert a[..k][i] <= a[..k][j];
        }
      }
    }
  }

  lemma {:induction false} DistinctByMultiset<T>(a: seq<T>, b: seq<T>)
    requires multiset(a) == multiset(b) && Distinct(a)
    ensures Distinct(b)
  {
    forall i, j | 0 <= i < j < |b|
      ensures b[i] != b[j]
    {
      if b[i] == b[j] {
        assert b == b[..i] + [b[i]] + b[i + 1..j] + [b[j]] + b[j + 1..];
        assert multiset(b)[b[i]] >= 2;
        OccursOnce(a, b[i]);
      }
    }
  }

  lemma {:induction false} OccursOnce<T>(a: seq<T>, v: T)
    requires Distinct(a)
    ensures multiset(a)[v] <= 1
  {
    if v in a {
      var i :| 0 <= i < |a| && a[i] == v;
      assert a == a[..i] + [v] + a[i + 1..];
      assert v !in a[..i] && v !in a[i + 1..];
      assert multiset(a) == multiset(a[..i]) + multiset{v} + multiset(a[i + 1..]);
    }
  }

  /** A queue that passes something on twice: what is in and comes in is what goes out and stays. */
  lemma {:induction false} PassOnTwice<T>(a: seq<T>, x: seq<T>, y: seq<T>, b: seq<T>, xs: seq<T>, ys: seq<T>, c: seq<T>)
    requires a + x == y + b && b + xs == ys + c
    ensures a + (x + xs) == (y + ys) + c
  {
    assert a + (x + xs) == (a + x) + xs;
    assert (y + b) + xs == y + (b + xs);
    assert y + (ys + c) == (y + ys) + c;
  }

  lemma {:induction false} SplitLast<T>(a: seq<T>)
    requires |a| > 0
    ensures a == a[..|a| - 1] + [a[|a| - 1]]
  {}

  lemma {:induction false} DropLast<T>(a: seq<T>)
    requires |a| > 0
    ensures multiset(a[..|a| - 1]) == multiset(a) - multiset{a[|a| - 1]}
  {
    SplitLast(a);
  }

  lemma {:induction false} SameSize<T>(a: seq<T>, b: seq<T>)
    requires multiset(a) == multiset(b)
    ensures |a| == |b|
  {
    assert |multiset(a)| == |a| && |multiset(b)| == |b|;
  }

  lemma {:induction false} LastIsLargest(a: seq<int>, b: seq<int>)
    requires Sorted(a) && |a| > 0 && |b| > 0 && multiset(a) == multiset(b)
    ensures b[|b| - 1] <= a[|a| - 1]
  {
    assert b[|b| - 1] in multiset(b);
    assert b[|b| - 1] in multiset(a);
    var i :| 0 <= i < |a| && a[i] == b[|b| - 1];
  }

  /** A sorted arrangement of a multiset is unique. */
  lemma {:induction false} SortedIsUnique(a: seq<int>, b: seq<int>)
    requires Sorted(a) && Sorted(b) && multiset(a) == multiset(b)
    ensures a == b
    decreases |a|
  {
    SameSize(a, b);
    if |a| > 0 {
      var n := |a| - 1;
      assert a[n] == b[n] by {
        LastIsLargest(a, b);
        LastIsLargest(b, a);
      }
      assert a[..n] == b[..n] by {
        DropLast(a);
        DropLast(b);
        SortedIsUnique(a[..n], b[..n]);
      }
      SplitLast(a);
      SplitLast(b);
    }
  }

  function Bit(b: bool): int {
    if b then 1 else 0
  }

  function Sum(a: seq<int>): int {
    if a == [] then 0 else a[0] + Sum(a[1..])
  }

  lemma {:induction false} SumOfUpdate(a: seq<int>, i: nat, v: int)
    requires i < |a|
    ensures Sum(a[i := v]) == Sum(a) - a[i] + v
  {
    if i == 0 {
      assert a[0 := v][1..] == a[1..];
    } else {
      assert a[i := v][1..] == a[1..][i - 1 := v];
      SumOfUpdate(a[1..], i - 1, v);
    }
  }

  lemma {:induction false} SumIsNonNegative(a: seq<int>)
    requires forall i :: 0 <= i < |a| ==> a[i] >= 0
    ensures Sum(a) >= 0
    ensures forall i :: 0 <= i < |a| ==> a[i] <= Sum(a)
  {
    if a != [] {
      SumIsNonNegative(a[1..]);
      forall i | 0 <= i < |a|
        ensures a[i] <= Sum(a)
      {
        if i > 0 {
          assert a[i] == a[1..][i - 1];
        }
      }
    }
  }

  lemma {:induction false} SumOfConstant(a: seq<int>, c: int)
    requires forall i :: 0 <= i < |a| ==> a[i] == c
    ensures Sum(a) == |a| * c
  {
    if a != [] {
      SumOfConstant(a[1..], c);
    }
  }
}
