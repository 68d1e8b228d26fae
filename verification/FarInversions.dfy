/** Pairs that are out of order and not neighbours, and how long they survive while others are put in order. */
module FarInversions {
  import opened Sequences

  predicate FarPair(a: seq<int>, i: int, j: int) {
    0 <= i && i + 2 <= j < |a| && a[i] > a[j]
  }

  ghost predicate HasFarPair(a: seq<int>) {
    exists i, j :: FarPair(a, i, j)
  }

  /** The only neighbours out of order are k and k + 1. */
  ghost predicate OnlyDescent(a: seq<int>, k: nat) {
    k + 1 < |a| && a[k] > a[k + 1] && forall i :: 0 <= i < |a| - 1 && i != k ==> a[i] <= a[i + 1]
  }

  /** Shelves p, p + 1, p + 2 hold middle, largest, smallest; from p + 2 on the rest fits behind the largest. */
  ghost predicate SmallestLast(a: seq<int>, p: nat) {
    OnlyDescent(a, p + 1) && FarPair(a, p, p + 2) && (p + 3 < |a| ==> a[p + 1] <= a[p + 3])
  }

  /** Shelves p, p + 1, p + 2 hold largest, smallest, middle; what is before p fits before the smallest. */
  ghost predicate LargestFirst(a: seq<int>, p: nat) {
    OnlyDescent(a, p) && FarPair(a, p, p + 2) && (p > 0 ==> a[p - 1] <= a[p + 1])
  }

  /** With the last two exchanged, what is from p + 1 on is in order, and p is not. */
  lemma {:induction false} SmallestLastExchanged(a: seq<int>, p: nat)
    requires SmallestLast(a, p)
    ensures var b := Swap(a, p + 1, p + 2);
            !Sorted(b) && forall i :: p + 1 <= i < |b| - 1 ==> b[i] <= b[i + 1]
  {
    var b := Swap(a, p + 1, p + 2);
    assert b[p] > b[p + 1];
  }

  /** The pair i, j is out of order, and putting it in order leaves a far pair. */
  ghost predicate Spares(a: seq<int>, i: nat, j: nat) {
    i < j < |a| && a[i] > a[j] && HasFarPair(Swap(a, i, j))
  }

  lemma {:induction false} DescentBetween(a: seq<int>, i: nat, j: nat) returns (k: nat)
    requires i < j < |a| && a[i] > a[j]
    ensures i <= k < j && a[k] > a[k + 1]
    decreases j - i
  {
    if a[i] > a[i + 1] {
      k := i;
    } else {
      k := DescentBetween(a, i + 1, j);
    }
  }

  /** Neighbours can be put in order between the members of a pair three or more apart. */
  lemma {:induction false} WidePairSpares(a: seq<int>, i: nat, j: nat) returns (k: nat)
    requires FarPair(a, i, j) && i + 3 <= j
    ensures Spares(a, k, k + 1)
  {
    k := DescentBetween(a, i, j);
    var b := Swap(a, k, k + 1);
    assert FarPair(b, if k == i then i + 1 else i, if k + 1 == j then j - 1 else j);
  }

  /** Neighbours elsewhere can be put in order. */
  lemma {:induction false} OtherDescentSpares(a: seq<int>, p: nat, k: nat)
    requires FarPair(a, p, p + 2) && k + 1 < |a| && a[k] > a[k + 1]
    requires (k != p && k != p + 1) || (a[p] > a[p + 1] && a[p + 1] > a[p + 2])
    ensures Spares(a, k, k + 1)
  {
    assert FarPair(Swap(a, k, k + 1), p, p + 2);
  }

  /** With one descent only, at the smallest: the pair itself can be put in order, unless the rest fits. */
  lemma {:induction false} SmallestLastOrSpares(a: seq<int>, p: nat)
    requires FarPair(a, p, p + 2) && OnlyDescent(a, p + 1)
    ensures SmallestLast(a, p) || Spares(a, p, p + 2)
  {
    if p + 3 < |a| && a[p + 1] > a[p + 3] {
      assert FarPair(Swap(a, p, p + 2), p + 1, p + 3);
    }
  }

  lemma {:induction false} LargestFirstOrSpares(a: seq<int>, p: nat)
    requires FarPair(a, p, p + 2) && OnlyDescent(a, p)
    ensures LargestFirst(a, p) || Spares(a, p, p + 2)
  {
    if p > 0 && a[p - 1] > a[p + 1] {
      assert FarPair(Swap(a, p, p + 2), p - 1, p + 1);
    }
  }

  /** Two apart. */
  lemma {:induction false} NarrowPair(a: seq<int>, p: nat) returns (i: nat, j: nat)
    requires FarPair(a, p, p + 2)
    ensures SmallestLast(a, p) || LargestFirst(a, p) || Spares(a, i, j)
  {
    i, j := p, p + 2;
    if k :| 0 <= k < |a| - 1 && a[k] > a[k + 1]
            && ((k != p && k != p + 1) || (a[p] > a[p + 1] && a[p + 1] > a[p + 2])) {
      OtherDescentSpares(a, p, k);
      i, j := k, k + 1;
    } else if a[p] > a[p + 1] {
      LargestFirstOrSpares(a, p);
    } else {
      SmallestLastOrSpares(a, p);
    }
  }

  /** With a far pair, some pair can be put in order and a far pair remain, until there is nothing but three shelves. */
  lemma {:induction false} FarPairGoesOn(a: seq<int>) returns (i: nat, j: nat, p: nat)
    requires HasFarPair(a)
    ensures SmallestLast(a, p) || LargestFirst(a, p) || Spares(a, i, j)
  {
    var k: int, l: int :| FarPair(a, k, l);
    p := k;
    if k + 3 <= l {
      i := WidePairSpares(a, k, l);
      j := i + 1;
    } else {
      i, j := NarrowPair(a, k);
    }
  }

  /** Without far pairs, putting a pair in order affects no other pair of neighbours that is out of order. */
  lemma {:induction false} NearSwap(a: seq<int>, i: nat, j: nat)
    requires !HasFarPair(a) && i < j < |a| && a[i] > a[j]
    ensures j == i + 1 && !HasFarPair(Swap(a, i, j))
    ensures forall k :: 0 <= k < |a| - 1 && Swap(a, i, j)[k] > Swap(a, i, j)[k + 1] ==> k + 1 < i || j < k
  {
    var b := Swap(a, i, j);
    assert !FarPair(a, i, j);
    forall k, l
      ensures !FarPair(b, k, l)
    {
      assert !FarPair(a, k, l) && !FarPair(a, k, j) && !FarPair(a, i, l);
    }
    forall k | 0 <= k < |a| - 1 && b[k] > b[k + 1]
      ensures k + 1 < i || j < k
    {
      assert !FarPair(a, k, j) && !FarPair(a, i, k + 1);
    }
  }
}
