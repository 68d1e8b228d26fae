/**
 Children add their pids to a shared counter under a mutex, and the last one to finish raises a flag and signals a
 condition variable; the parent waits for the flag and then divides the counter n times by n, one critical section a
 division. Loads, stores, locking, sleeping and waking are separate steps; waiting releases the mutex and falls asleep
 in one step, and may end without a signal. The shared memory may hold leftovers of `finished_children` and `ready`: the
 program sets only the counter.
 */
module Completion {
  import opened Sequences

  datatype Child =
    | Unborn
    | Ready                    // before the first lock
    | Adding | AddLoaded(v: int) | Added
    | Resting                  // between its critical sections
    | Counting | CountLoaded(v: int) | Testing | Raising | Signalling | Leaving
    | Gone

  datatype Parent =
    | Forking(k: nat)
    | Locking | Checking | Asleep | Waking | Passing
    | Dividing(k: nat) | DivHolding(k: nat) | DivLoaded(k: nat, v: int) | DivStored(k: nat)
    | Done

  datatype Owner = Free | ByParent | ByChild(i: nat)

  datatype System = System(pids: seq<int>, counter: int, finished: int, ready: bool, owner: Owner,
                           children: seq<Child>, parent: Parent)

  datatype Action = StepChild(i: nat) | StepParent | WakeUp

  predicate Enabled(s: System, a: Action) {
    match a
    case StepChild(i) =>
      i < |s.children| && !s.children[i].Unborn? && !s.children[i].Gone?
      && (s.children[i].Ready? || s.children[i].Resting? ==> s.owner == Free)
    case StepParent =>
      !s.parent.Asleep? && !s.parent.Done?
      && (s.parent.Locking? || s.parent.Waking? ==> s.owner == Free)
      && (s.parent.Dividing? && s.parent.k < |s.children| ==> s.owner == Free)
    case WakeUp => s.parent.Asleep?
  }

  /** Division as in C, towards zero. */
  function Truncated(v: int, n: nat): int
    requires n > 0
  {
    if v >= 0 then v / n else -(-v / n)
  }

  /** The next step of child i. */
  function ChildStep(s: System, i: nat): (t: System)
    requires |s.pids| == |s.children| && Enabled(s, StepChild(i))
    ensures t.pids == s.pids && |t.children| == |s.children|
  {
    match s.children[i]
    case Ready => s.(owner := ByChild(i), children := s.children[i := Adding])
    case Adding => s.(children := s.children[i := AddLoaded(s.counter)])
    case AddLoaded(v) => s.(counter := v + s.pids[i], children := s.children[i := Added])
    case Added => s.(owner := Free, children := s.children[i := Resting])
    case Resting => s.(owner := ByChild(i), children := s.children[i := Counting])
    case Counting => s.(children := s.children[i := CountLoaded(s.finished)])
    case CountLoaded(v) => s.(finished := v + 1, children := s.children[i := Testing])
    case Testing => s.(children := s.children[i := if s.finished == |s.children| then Raising else Leaving])
    case Raising => s.(ready := true, children := s.children[i := Signalling])
    case Signalling =>
      s.(parent := if s.parent.Asleep? then Waking else s.parent, children := s.children[i := Leaving])
    case Leaving => s.(owner := Free, children := s.children[i := Gone])
  }

  function ParentStep(s: System): (t: System)
    requires |s.pids| == |s.children| && Enabled(s, StepParent)
    ensures t.pids == s.pids && |t.children| == |s.children|
  {
    var n := |s.children|;
    match s.parent
    case Forking(k) =>
      if k < n then s.(children := s.children[k := Ready], parent := Forking(k + 1)) else s.(parent := Locking)
    case Locking => s.(owner := ByParent, parent := Checking)
    case Checking => if s.ready then s.(parent := Passing) else s.(owner := Free, parent := Asleep)
    case Waking => s.(owner := ByParent, parent := Checking)
    case Passing => s.(owner := Free, parent := Dividing(0))
    case Dividing(k) => if k < n then s.(owner := ByParent, parent := DivHolding(k)) else s.(parent := Done)
    case DivHolding(k) => s.(parent := DivLoaded(k, s.counter))
    case DivLoaded(k, v) => s.(counter := if n == 0 then v else Truncated(v, n), parent := DivStored(k))
    case DivStored(k) => s.(owner := Free, parent := Dividing(k + 1))
  }

  function Apply(s: System, a: Action): (t: System)
    requires |s.pids| == |s.children| && Enabled(s, a)
    ensures t.pids == s.pids && |t.children| == |s.children|
  {
    match a
    case StepChild(i) => ChildStep(s, i)
    case StepParent => ParentStep(s)
    case WakeUp => s.(parent := Waking)
  }

  predicate Legal(s: System, run: seq<Action>)
    requires |s.pids| == |s.children|
    decreases |run|
  {
    run == [] || (Enabled(s, run[0]) && Legal(Apply(s, run[0]), run[1..]))
  }

  function After(s: System, run: seq<Action>): (t: System)
    requires |s.pids| == |s.children| && Legal(s, run)
    ensures t.pids == s.pids && |t.children| == |s.children|
    decreases |run|
  {
    if run == [] then s else After(Apply(s, run[0]), run[1..])
  }

  /** The memory is mapped, the counter set to 0; `f` and `r` are what the other fields happen to hold. */
  function Opening(pids: seq<int>, f: int, r: bool): (s: System)
    ensures |s.children| == |s.pids|
  {
    System(pids, 0, f, r, Free, seq(|pids|, _ => Unborn), Forking(0))
  }

  predicate HoldsLock(c: Child) {
    c.Adding? || c.AddLoaded? || c.Added? || c.Counting? || c.CountLoaded? || c.Testing? || c.Raising?
    || c.Signalling? || c.Leaving?
  }

  predicate ParentHolds(p: Parent) {
    p.Checking? || p.Passing? || p.DivHolding? || p.DivLoaded? || p.DivStored?
  }

  /** The child's pid is in the counter. */
  predicate HasAdded(c: Child) {
    !c.Unborn? && !c.Ready? && !c.Adding? && !c.AddLoaded?
  }

  /** The child is in the number of finished children. */
  predicate HasCounted(c: Child) {
    c.Testing? || c.Raising? || c.Signalling? || c.Leaving? || c.Gone?
  }

  /** The parent's wait is over. */
  predicate HasPassed(p: Parent) {
    p.Passing? || p.Dividing? || p.DivHolding? || p.DivLoaded? || p.DivStored? || p.Done?
  }

  predicate AllAdded(s: System) {
    forall i :: 0 <= i < |s.children| ==> HasAdded(s.children[i])
  }

  function CountedBits(cs: seq<Child>): (b: seq<int>)
    ensures |b| == |cs| && forall i :: 0 <= i < |b| ==> b[i] == Bit(HasCounted(cs[i]))
  {
    seq(|cs|, i requires 0 <= i < |cs| => Bit(HasCounted(cs[i])))
  }

  /** What each child has put into the counter. */
  function Given(pids: seq<int>, cs: seq<Child>): (g: seq<int>)
    requires |pids| == |cs|
    ensures |g| == |cs| && forall i :: 0 <= i < |g| ==> g[i] == if HasAdded(cs[i]) then pids[i] else 0
  {
    seq(|cs|, i requires 0 <= i < |cs| => if HasAdded(cs[i]) then pids[i] else 0)
  }

  /** The mutex is held by whoever is in a critical section, so at most one is. */
  ghost predicate Exclusive(s: System) {
    && (forall i :: 0 <= i < |s.children| ==> (s.owner == ByChild(i) <==> HoldsLock(s.children[i])))
    && (s.owner == ByParent <==> ParentHolds(s.parent))
    && (s.owner.ByChild? ==> s.owner.i < |s.children|)
  }

  ghost predicate Forked(s: System) {
    && (s.parent.Forking? ==> s.parent.k <= |s.children|)
    && (s.parent.Dividing? ==> s.parent.k <= |s.children|)
    && (s.parent.DivHolding? || s.parent.DivLoaded? || s.parent.DivStored? ==> s.parent.k < |s.children|)
    && forall i :: 0 <= i < |s.children| ==>
         (s.children[i].Unborn? <==> s.parent.Forking? && s.parent.k <= i)
  }

  /** The number of finished children is right, counting from what memory held at first. */
  ghost predicate Counted(s: System, f: int) {
    && s.finished == f + Sum(CountedBits(s.children))
    && forall i :: 0 <= i < |s.children| && s.children[i].CountLoaded? ==> s.children[i].v == s.finished
  }

  /** A child on its way to raise the flag. */
  predicate Announcing(s: System, i: nat) {
    i < |s.children| && (s.children[i].Raising? || (s.children[i].Testing? && s.finished == |s.children|))
  }

  predicate AboutToSignal(s: System, i: nat) {
    i < |s.children| && s.children[i].Signalling?
  }

  /** The flag means that the number was reached, is raised once it is, and does not leave a sleeping parent behind. */
  ghost predicate Flagged(s: System, f: int, r: bool) {
    && (r ==> s.ready)
    && (s.ready && !r ==> f < |s.children| <= s.finished)
    && (forall i :: 0 <= i < |s.children| && s.children[i].Raising? ==> s.finished == |s.children|)
    && (forall i :: 0 <= i < |s.children| && s.children[i].Signalling? ==> s.ready)
    && (f < |s.children| <= s.finished && !s.ready ==> exists i :: Announcing(s, i))
    && (HasPassed(s.parent) ==> s.ready)
    && (s.parent.Asleep? && s.ready ==> exists i :: AboutToSignal(s, i))
  }

  ghost predicate Inv(s: System, f: int, r: bool) {
    |s.pids| == |s.children| && Exclusive(s) && Forked(s) && Counted(s, f) && Flagged(s, f, r)
  }

  lemma {:induction false} OpeningInv(pids: seq<int>, f: int, r: bool)
    ensures Inv(Opening(pids, f, r), f, r)
  {
    SumOfConstant(CountedBits(Opening(pids, f, r).children), 0);
  }

  lemma {:induction false} BitsChange(cs: seq<Child>, i: nat, c: Child)
    requires i < |cs|
    ensures Sum(CountedBits(cs[i := c])) == Sum(CountedBits(cs)) - Bit(HasCounted(cs[i])) + Bit(HasCounted(c))
  {
    SumOfUpdate(CountedBits(cs), i, Bit(HasCounted(c)));
    assert CountedBits(cs[i := c]) == CountedBits(cs)[i := Bit(HasCounted(c))];
  }

  lemma {:induction false} ChildKeepsExclusive(s: System, i: nat)
    requires |s.pids| == |s.children| && Exclusive(s) && Forked(s) && Enabled(s, StepChild(i))
    ensures Exclusive(ChildStep(s, i)) && Forked(ChildStep(s, i))
  {}

  lemma {:induction false} ParentKeepsExclusive(s: System)
    requires |s.pids| == |s.children| && Exclusive(s) && Forked(s) && Enabled(s, StepParent)
    ensures Exclusive(ParentStep(s)) && Forked(ParentStep(s))
  {}

  lemma {:induction false} ChildKeepsCounted(s: System, f: int, i: nat)
    requires |s.pids| == |s.children| && Exclusive(s) && Counted(s, f) && Enabled(s, StepChild(i))
    ensures Counted(ChildStep(s, i), f)
  {
    var t := ChildStep(s, i);
    BitsChange(s.children, i, t.children[i]);
    assert t.children == s.children[i := t.children[i]];
  }

  lemma {:induction false} ParentKeepsCounted(s: System, f: int)
    requires |s.pids| == |s.children| && Forked(s) && Counted(s, f) && Enabled(s, StepParent)
    ensures Counted(ParentStep(s), f)
  {
    if s.parent.Forking? && s.parent.k < |s.children| {
      BitsChange(s.children, s.parent.k, Ready);
    }
  }

  lemma {:induction false} ChildKeepsFlagged(s: System, f: int, r: bool, i: nat)
    requires Inv(s, f, r) && Enabled(s, StepChild(i))
    ensures Flagged(ChildStep(s, i), f, r)
  {
    var t := ChildStep(s, i);
    if s.children[i].Raising? {
      SumIsNonNegative(CountedBits(s.children));
      assert CountedBits(s.children)[i] == 1;
    }
    if f < |s.children| <= t.finished && !t.ready {
      assert s.children[i].CountLoaded? && t.finished == |t.children| ==> Announcing(t, i);
      if j :| Announcing(s, j) {
        assert j == i || Announcing(t, j);
        assert s.children[i].Testing? ==> Announcing(t, i);
      }
    }
    if t.parent.Asleep? && t.ready {
      assert s.children[i].Raising? ==> AboutToSignal(t, i);
    }
  }

  lemma {:induction false} ParentKeepsFlagged(s: System, f: int, r: bool, a: Action)
    requires Inv(s, f, r) && Enabled(s, a) && !a.StepChild?
    ensures Flagged(Apply(s, a), f, r)
  {
    var t := Apply(s, a);
    if j :| Announcing(s, j) {
      assert Announcing(t, j);
    }
    if j :| AboutToSignal(s, j) {
      assert AboutToSignal(t, j);
    }
  }

  lemma {:induction false} StepKeepsInv(s: System, f: int, r: bool, a: Action)
    requires Inv(s, f, r) && Enabled(s, a)
    ensures Inv(Apply(s, a), f, r)
  {
    if a.StepChild? {
      ChildKeepsExclusive(s, a.i);
      ChildKeepsCounted(s, f, a.i);
      ChildKeepsFlagged(s, f, r, a.i);
    } else {
      if a.StepParent? {
        ParentKeepsExclusive(s);
        ParentKeepsCounted(s, f);
      }
      ParentKeepsFlagged(s, f, r, a);
    }
  }

  lemma {:induction false} RunKeepsInv(s: System, f: int, r: bool, run: seq<Action>)
    requires Inv(s, f, r) && Legal(s, run)
    ensures Inv(After(s, run), f, r)
    decreases |run|
  {
    if run != [] {
      StepKeepsInv(s, f, r, run[0]);
      RunKeepsInv(Apply(s, run[0]), f, r, run[1..]);
    }
  }

  lemma {:induction false} AllOnes(a: seq<int>)
    requires forall i :: 0 <= i < |a| ==> a[i] <= 1
    ensures Sum(a) <= |a|
    ensures Sum(a) == |a| ==> forall i :: 0 <= i < |a| ==> a[i] == 1
  {
    if a != [] {
      AllOnes(a[1..]);
      assert a == [a[0]] + a[1..];
    }
  }

  lemma {:induction false} FinishedMeansAdded(s: System)
    requires Counted(s, 0) && |s.children| <= s.finished
    ensures AllAdded(s)
  {
    AllOnes(CountedBits(s.children));
    forall i | 0 <= i < |s.children|
      ensures HasAdded(s.children[i])
    {
      assert CountedBits(s.children)[i] == 1;
    }
  }

  /** On zeroed memory the wait is over only when every child has added its pid. */
  lemma {:induction false} PassedMeansAdded(s: System)
    requires Inv(s, 0, false) && HasPassed(s.parent)
    ensures AllAdded(s)
  {
    FinishedMeansAdded(s);
  }

  function Power(n: nat, k: nat): nat {
    if k == 0 then 1 else n * Power(n, k - 1)
  }

  /** k truncating divisions, one after the other. */
  function Divided(x: int, n: nat, k: nat): int
    requires n > 0
  {
    if k == 0 then x else Truncated(Divided(x, n, k - 1), n)
  }

  lemma {:induction false} PowerIsPositive(n: nat, k: nat)
    requires n > 0
    ensures Power(n, k) > 0
  {
    if k > 0 {
      PowerIsPositive(n, k - 1);
    }
  }

  lemma {:induction false} ProductGrows(a: int, b: int, n: nat)
    requires a <= b
    ensures a * n <= b * n
  {
    if n > 0 {
      ProductGrows(a, b, n - 1);
    }
  }

  lemma {:induction false} SmallMultiple(e: int, d: nat)
    requires 0 < e * d + d && e * d < d
    ensures e == 0
  {
    if e >= 1 {
      ProductGrows(1, e, d);
    } else if e <= -1 {
      ProductGrows(e, -1, d);
    }
  }

  lemma {:induction false} QuotientIsUnique(x: int, d: nat, q: int, r: int)
    requires x == q * d + r && 0 <= r < d
    ensures x / d == q
  {
    assert (x / d - q) * d == r - x % d;
    SmallMultiple(x / d - q, d);
  }

  /** The rests of two divisions, one after the other, together make a rest of the division by the product. */
  lemma {:induction false} NestedRests(d: nat, n: nat, r: int, e: int)
    requires 0 <= r < n && 0 <= e < d
    ensures 0 <= r * d + e < n * d
  {
    ProductGrows(0, r, d);
    ProductGrows(r, n - 1, d);
    Distribute(n, -1, d);
  }

  lemma {:induction false} Distribute(a: int, b: int, d: int)
    ensures (a + b) * d == a * d + b * d
  {}

  lemma {:induction false} Reassociate(q: int, n: int, d: int)
    ensures q * n * d == q * (n * d)
  {}

  lemma {:induction false} DivideTwice(x: int, d: nat, n: nat)
    requires d > 0 && n > 0
    ensures n * d > 0 && x / d / n == x / (n * d)
  {
    var a, e := x / d, x % d;
    var q, r := a / n, a % n;
    assert x == a * d + e && a == q * n + r;
    Distribute(q * n, r, d);
    Reassociate(q, n, d);
    NestedRests(d, n, r, e);
    QuotientIsUnique(x, n * d, q, r * d + e);
  }

  lemma {:induction false} QuotientIsLess(x: nat, n: nat)
    requires n > 0
    ensures 0 <= x / n <= x
  {
    var q := x / n;
    assert x == q * n + x % n;
    if q < 0 {
      ProductGrows(q, -1, n);
    } else {
      ProductGrows(1, n, q);
    }
  }

  /** Dividing k times by n is dividing once by n to the k. */
  lemma {:induction false} DividedIsQuotient(x: nat, n: nat, k: nat)
    requires n > 0
    ensures Power(n, k) > 0 && Divided(x, n, k) == x / Power(n, k) >= 0
  {
    PowerIsPositive(n, k);
    if k > 0 {
      DividedIsQuotient(x, n, k - 1);
      DivideTwice(x, Power(n, k - 1), n);
    }
  }

  /** Division towards zero does not care about the sign. */
  lemma {:induction false} TruncatedIsOdd(v: int, n: nat)
    requires n > 0
    ensures Truncated(-v, n) == -Truncated(v, n)
  {}

  /** For any number, negative ones included: dividing k times by n, as C does, is dividing once by n to the k. */
  lemma {:induction false} DividedTowardsZero(x: int, n: nat, k: nat)
    requires n > 0
    ensures Power(n, k) > 0 && Divided(x, n, k) == Truncated(x, Power(n, k))
  {
    PowerIsPositive(n, k);
    if x >= 0 {
      DividedIsQuotient(x, n, k);
    } else {
      DividedIsQuotient(-x, n, k);
      DividedIsOdd(-x, n, k);
    }
  }

  lemma {:induction false} DividedIsOdd(x: int, n: nat, k: nat)
    requires n > 0 && x >= 0
    ensures Divided(-x, n, k) == -Divided(x, n, k)
  {
    DividedIsQuotient(x, n, k);
    if k > 0 {
      DividedIsOdd(x, n, k - 1);
      TruncatedIsOdd(Divided(x, n, k - 1), n);
    }
  }

  /** Divisions done so far, once the wait is over. */
  function Divisions(s: System): nat {
    match s.parent
    case Dividing(k) => k
    case DivHolding(k) => k
    case DivLoaded(k, _) => k
    case DivStored(k) => k + 1
    case Done => |s.children|
    case _ => 0
  }

  /** The counter on zeroed memory: what has been given, and later its quotient. */
  ghost predicate Summed(s: System)
    requires |s.pids| == |s.children|
  {
    && s.counter == (if Divisions(s) == 0 || s.children == [] then Sum(Given(s.pids, s.children))
                     else Divided(Sum(s.pids), |s.children|, Divisions(s)))
    && (s.parent.DivLoaded? ==> s.parent.v == s.counter)
    && forall i :: 0 <= i < |s.children| && s.children[i].AddLoaded? ==> s.children[i].v == s.counter
  }

  lemma {:induction false} GivenGrows(pids: seq<int>, cs: seq<Child>, i: nat, c: Child)
    requires |pids| == |cs| && i < |cs| && (HasAdded(cs[i]) ==> HasAdded(c))
    ensures Sum(Given(pids, cs[i := c]))
         == Sum(Given(pids, cs)) + if HasAdded(c) && !HasAdded(cs[i]) then pids[i] else 0
  {
    var g := if HasAdded(c) then pids[i] else 0;
    SumOfUpdate(Given(pids, cs), i, g);
    assert Given(pids, cs[i := c]) == Given(pids, cs)[i := g];
  }

  lemma {:induction false} AllGiven(s: System)
    requires |s.pids| == |s.children| && AllAdded(s)
    ensures Given(s.pids, s.children) == s.pids
  {}

  lemma {:induction false} ChildKeepsSum(s: System, i: nat)
    requires Inv(s, 0, false) && Summed(s) && Enabled(s, StepChild(i))
    ensures Summed(ChildStep(s, i))
  {
    var t := ChildStep(s, i);
    GivenGrows(s.pids, s.children, i, t.children[i]);
    assert t.children == s.children[i := t.children[i]];
    if HasPassed(s.parent) {
      PassedMeansAdded(s);
    }
  }

  lemma {:induction false} ParentKeepsSum(s: System)
    requires Inv(s, 0, false) && Summed(s) && Enabled(s, StepParent)
    ensures Summed(ParentStep(s))
  {
    var t := ParentStep(s);
    if s.parent.Forking? && s.parent.k < |s.children| {
      GivenGrows(s.pids, s.children, s.parent.k, Ready);
    } else if HasPassed(s.parent) {
      PassedMeansAdded(s);
      AllGiven(s);
      assert s.children == [] ==> s.finished == 0;
    }
  }

  lemma {:induction false} RunKeepsSum(s: System, run: seq<Action>)
    requires Inv(s, 0, false) && Summed(s) && Legal(s, run)
    ensures Inv(After(s, run), 0, false) && Summed(After(s, run))
    decreases |run|
  {
    if run != [] {
      StepKeepsInv(s, 0, false, run[0]);
      if run[0].StepChild? {
        ChildKeepsSum(s, run[0].i);
      } else if run[0].StepParent? {
        ParentKeepsSum(s);
      }
      RunKeepsSum(Apply(s, run[0]), run[1..]);
    }
  }

  lemma {:induction false} OpeningSum(pids: seq<int>, f: int, r: bool)
    ensures Summed(Opening(pids, f, r))
  {
    var s := Opening(pids, f, r);
    SumOfConstant(Given(s.pids, s.children), 0);
  }

  /**
   On zeroed memory the outcome does not depend on the interleaving: whenever the parent is done the counter holds the
   sum of all pids divided by n to the n, rounded down.
   */
  lemma {:induction false} FinalCounter(pids: seq<int>, run: seq<Action>)
    requires forall i :: 0 <= i < |pids| ==> pids[i] > 0
    requires var s := Opening(pids, 0, false); Legal(s, run) && After(s, run).parent.Done?
    ensures Power(|pids|, |pids|) > 0
    ensures After(Opening(pids, 0, false), run).counter == Sum(pids) / Power(|pids|, |pids|)
  {
    var s := Opening(pids, 0, false);
    OpeningInv(pids, 0, false);
    OpeningSum(pids, 0, false);
    RunKeepsSum(s, run);
    SumIsNonNegative(pids);
    DividedIsQuotient(Sum(pids), |pids|, |pids|);
  }

  /** While the parent sleeps after the flag is up, the signal that will wake it is still to come. */
  lemma {:induction false} NoLostWakeup(pids: seq<int>, f: int, r: bool, run: seq<Action>)
    requires var s := Opening(pids, f, r); Legal(s, run)
    ensures var t := After(Opening(pids, f, r), run);
            t.parent.Asleep? && t.ready ==> exists i :: AboutToSignal(t, i)
  {
    OpeningInv(pids, f, r);
    RunKeepsInv(Opening(pids, f, r), f, r, run);
  }
}
