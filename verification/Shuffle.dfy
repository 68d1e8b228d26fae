/** Filling the shelves and the deck, and the Fisher-Yates shuffle. */
module Shuffle {
  import opened Sequences

  method FillArray(items: array<int>)
    modifies items
    ensures items[..] == Stock(items.Length)
  {
    for i := 0 to items.Length
      invariant forall k :: 0 <= k < i ==> items[k] == k + 1
    {
      items[i] := i + 1;
    }
  }

  /** `cs` is a choice sequence for the positions i, i - 1, ..., 1: each choice lies at or below its position. */
  ghost predicate Choices(cs: seq<nat>, i: nat) {
    |cs| == i && forall k :: 0 <= k < i ==> cs[k] <= i - k
  }

  /** The arrangement that the exchanges at positions i, i - 1, ..., 1 leave. */
  ghost function Exchanged(a: seq<int>, i: nat, cs: seq<nat>): (b: seq<int>)
    requires (i == 0 || i < |a|) && Choices(cs, i)
    ensures |b| == |a|
    decreases i
  {
    if i == 0 then a else Exchanged(Swap(a, i, cs[0]), i - 1, cs[1..])
  }

  /** The choices that raw draws stand for: each draw is reduced modulo its position plus one. */
  ghost function Reduced(draws: seq<nat>): (cs: seq<nat>)
    ensures Choices(cs, |draws|)
    ensures forall k :: 0 <= k < |draws| ==> cs[k] == draws[k] % (|draws| - k + 1)
  {
    seq(|draws|, k requires 0 <= k < |draws| => draws[k] % (|draws| - k + 1))
  }

  lemma {:induction false} ReducedAt(draws: seq<nat>, i: nat)
    requires 0 < i <= |draws|
    ensures var cs := Reduced(draws)[|draws| - i..];
            && Choices(cs, i) && cs[0] == draws[|draws| - i] % (i + 1)
            && cs[1..] == Reduced(draws)[|draws| - (i - 1)..]
  {}

  method ShuffleInPlace(items: array<int>, draws: seq<nat>)
    requires |draws| == if items.Length == 0 then 0 else items.Length - 1
    modifies items
    ensures items[..] == Exchanged(old(items[..]), |draws|, Reduced(draws))
  {
    ghost var all := Reduced(draws);
    ghost var cs := all;
    ghost var goal := Exchanged(items[..], |draws|, cs);
    var i := |draws|;
    while i > 0
      invariant 0 <= i <= |draws|
      invariant cs == all[|draws| - i..]
      invariant Choices(cs, i) && Exchanged(items[..], i, cs) == goal
    {
      var j := draws[|draws| - i] % (i + 1);
      ReducedAt(draws, i);
      ghost var before := items[..];
      items[i], items[j] := items[j], items[i];
      assert items[..] == Swap(before, i, j);
      i, cs := i - 1, cs[1..];
    }
  }

  lemma {:induction false} ExchangedIsAPermutation(a: seq<int>, i: nat, cs: seq<nat>)
    requires (i == 0 || i < |a|) && Choices(cs, i)
    ensures multiset(Exchanged(a, i, cs)) == multiset(a)
    decreases i
  {
    if i > 0 {
      SwapIsAPermutation(a, i, cs[0]);
      ExchangedIsAPermutation(Swap(a, i, cs[0]), i - 1, cs[1..]);
    }
  }

  /** The choice sequence in which every position chooses itself. */
  ghost function Staying(i: nat): (cs: seq<nat>)
    ensures Choices(cs, i) && forall k :: 0 <= k < i ==> cs[k] == i - k
  {
    seq(i, k requires 0 <= k < i => i - k)
  }

  /** If every position chooses itself nothing moves. */
  lemma {:induction false} StayingChangesNothing(a: seq<int>, i: nat)
    requires i == 0 || i < |a|
    ensures Exchanged(a, i, Staying(i)) == a
    decreases i
  {
    if i > 0 {
      assert Staying(i)[1..] == Staying(i - 1) && Swap(a, i, i) == a;
      StayingChangesNothing(a, i - 1);
    }
  }

  /** If position p alone chooses another one, the two are exchanged. */
  lemma {:induction false} OneChoiceSwaps(a: seq<int>, i: nat, p: nat, c: nat)
    requires i < |a| && 0 < p <= i && c <= p
    ensures Choices(Staying(i)[i - p := c], i) && Exchanged(a, i, Staying(i)[i - p := c]) == Swap(a, p, c)
    decreases i
  {
    var cs := Staying(i)[i - p := c];
    if p == i {
      assert cs[1..] == Staying(i - 1);
      StayingChangesNothing(Swap(a, i, c), i - 1);
    } else {
      assert cs[1..] == Staying(i - 1)[i - 1 - p := c] && Swap(a, i, i) == a;
      OneChoiceSwaps(a, i - 1, p, c);
    }
  }

  /** A choice sequence acts as its first k choices, with everybody else staying, followed by the rest. */
  lemma {:induction false} ChoicesActInTurn(a: seq<int>, i: nat, cs: seq<nat>, k: nat)
    requires (i == 0 || i < |a|) && Choices(cs, i) && k <= i
    ensures var first, rest := cs[..k] + Staying(i)[k..], Staying(i)[..k] + cs[k..];
            && Choices(first, i) && Choices(rest, i)
            && Exchanged(a, i, cs) == Exchanged(Exchanged(a, i, first), i, rest)
    decreases i
  {
    var first, rest := cs[..k] + Staying(i)[k..], Staying(i)[..k] + cs[k..];
    if k == 0 {
      assert first == Staying(i) && rest == cs;
      StayingChangesNothing(a, i);
    } else {
      var b := Swap(a, i, cs[0]);
      var c := Exchanged(a, i, first);
      assert first[1..] == cs[1..][..k - 1] + Staying(i - 1)[k - 1..];
      assert rest[1..] == Staying(i - 1)[..k - 1] + cs[1..][k - 1..];
      assert Swap(c, i, i) == c;
      ChoicesActInTurn(b, i - 1, cs[1..], k - 1);
    }
  }

  /** Positions above the current one are final. */
  lemma {:induction false} ExchangedKeepsTheTop(a: seq<int>, i: nat, cs: seq<nat>, k: nat)
    requires (i == 0 || i < |a|) && Choices(cs, i) && i < k < |a|
    ensures Exchanged(a, i, cs)[k] == a[k]
    decreases i
  {
    if i > 0 {
      ExchangedKeepsTheTop(Swap(a, i, cs[0]), i - 1, cs[1..], k);
    }
  }

  lemma {:induction false} ExchangedAtTheTop(a: seq<int>, i: nat, cs: seq<nat>)
    requires 0 < i < |a| && Choices(cs, i)
    ensures Exchanged(a, i, cs)[i] == a[cs[0]]
  {
    ExchangedKeepsTheTop(Swap(a, i, cs[0]), i - 1, cs[1..], i);
  }

  lemma {:induction false} ChoicesAreDetermined(a: seq<int>, i: nat, cs: seq<nat>, ds: seq<nat>)
    requires Distinct(a) && (i == 0 || i < |a|) && Choices(cs, i) && Choices(ds, i)
    requires Exchanged(a, i, cs) == Exchanged(a, i, ds)
    ensures cs == ds
    decreases i
  {
    if i > 0 {
      ExchangedAtTheTop(a, i, cs);
      ExchangedAtTheTop(a, i, ds);
      assert cs[0] == ds[0];
      var b := Swap(a, i, cs[0]);
      ChoicesAreDetermined(b, i - 1, cs[1..], ds[1..]);
      assert cs == [cs[0]] + cs[1..] && ds == [ds[0]] + ds[1..];
    }
  }

  lemma {:induction false} EqualButForTheHead(a: seq<int>, p: seq<int>)
    requires |a| == |p| > 0 && a[1..] == p[1..] && multiset(a) == multiset(p)
    ensures a == p
  {
    assert a == [a[0]] + a[1..] && p == [p[0]] + p[1..];
    assert multiset{a[0]} == multiset(a) - multiset(a[1..]);
    assert multiset{p[0]} == multiset(p) - multiset(p[1..]);
    assert p[0] in multiset{a[0]};
  }

  /** Where position i of `p` comes from when the positions above i already agree. */
  lemma {:induction false} SourceOf(a: seq<int>, i: nat, p: seq<int>) returns (c: nat)
    requires Distinct(a) && i < |a| == |p| && multiset(a) == multiset(p)
    requires forall k :: i < k < |a| ==> a[k] == p[k]
    ensures c <= i && a[c] == p[i]
  {
    assert p[i] in multiset(p);
    assert p[i] in multiset(a);
    c :| 0 <= c < |a| && a[c] == p[i];
    DistinctByMultiset(a, p);
  }

  lemma {:induction false} SwapKeepsDistinct(a: seq<int>, i: nat, c: nat)
    requires Distinct(a) && c <= i < |a|
    ensures Distinct(Swap(a, i, c))
  {}

  /** Exchanging position i with its source leaves a smaller problem of the same kind. */
  lemma {:induction false} SwapSource(a: seq<int>, i: nat, p: seq<int>, c: nat) returns (b: seq<int>)
    requires Distinct(a) && 0 < i < |a| == |p| && multiset(a) == multiset(p)
    requires forall k :: i < k < |a| ==> a[k] == p[k]
    requires c <= i && a[c] == p[i]
    ensures b == Swap(a, i, c) && Distinct(b) && multiset(b) == multiset(p)
    ensures forall k :: i - 1 < k < |b| ==> b[k] == p[k]
  {
    b := Swap(a, i, c);
    SwapIsAPermutation(a, i, c);
    SwapKeepsDistinct(a, i, c);
  }

  lemma {:induction false} ChoicesReach(a: seq<int>, i: nat, p: seq<int>) returns (cs: seq<nat>)
    requires Distinct(a) && i < |a| == |p| && multiset(a) == multiset(p)
    requires forall k :: i < k < |a| ==> a[k] == p[k]
    ensures Choices(cs, i) && Exchanged(a, i, cs) == p
    decreases i
  {
    if i == 0 {
      cs := [];
      EqualButForTheHead(a, p);
    } else {
      var c := SourceOf(a, i, p);
      var b := SwapSource(a, i, p, c);
      var rest := ChoicesReach(b, i - 1, p);
      cs := [c] + rest;
      assert cs[1..] == rest;
    }
  }

  /** The choices `cs`, made over the whole of `a`, turn `a` into `p`. */
  ghost predicate Yields(a: seq<int>, cs: seq<nat>, p: seq<int>)
    requires |a| > 0
  {
    Choices(cs, |a| - 1) && Exchanged(a, |a| - 1, cs) == p
  }

  /** Every permutation of distinct elements is the outcome of exactly one choice sequence, and nothing else is. */
  lemma {:induction false} ShuffleIsABijection(a: seq<int>, p: seq<int>)
    requires Distinct(a) && |a| > 0
    ensures multiset(a) == multiset(p) <==> exists cs :: Yields(a, cs, p)
    ensures forall cs, ds :: Yields(a, cs, p) && Yields(a, ds, p) ==> cs == ds
  {
    if multiset(a) == multiset(p) {
      assert |multiset(a)| == |a| && |multiset(p)| == |p|;
      var cs := ChoicesReach(a, |a| - 1, p);
      assert Yields(a, cs, p);
    } else if cs :| Yields(a, cs, p) {
      ExchangedIsAPermutation(a, |a| - 1, cs);
    }
    forall cs, ds | Yields(a, cs, p) && Yields(a, ds, p)
      ensures cs == ds
    {
      ChoicesAreDetermined(a, |a| - 1, cs, ds);
    }
  }
}
