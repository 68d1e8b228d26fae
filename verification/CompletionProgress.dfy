/** When the wait for the children is safe, and when the program comes to its end. */
module CompletionProgress {
  import opened Sequences
  import opened Completion

  ghost predicate Reaches(s: System, t: System)
    requires |s.pids| == |s.children|
  {
    exists run :: Legal(s, run) && After(s, run) == t
  }

  lemma {:induction false} RunOneMore(s: System, run: seq<Action>, a: Action)
    requires |s.pids| == |s.children| && Legal(s, run) && Enabled(After(s, run), a)
    ensures Legal(s, run + [a]) && After(s, run + [a]) == Apply(After(s, run), a)
    decreases |run|
  {
    if run == [] {
      assert run + [a] == [a] && [a][1..] == [];
    } else {
      assert (run + [a])[1..] == run[1..] + [a];
      RunOneMore(Apply(s, run[0]), run[1..], a);
    }
  }

  lemma {:induction false} ReachesItself(s: System)
    requires |s.pids| == |s.children|
    ensures Reaches(s, s)
  {
    assert Legal(s, []) && After(s, []) == s;
  }

  lemma {:induction false} ReachesNext(s: System, t: System, a: Action)
    requires |s.pids| == |s.children| == |t.pids| == |t.children| && Reaches(s, t) && Enabled(t, a)
    ensures Reaches(s, Apply(t, a))
  {
    var run :| Legal(s, run) && After(s, run) == t;
    RunOneMore(s, run, a);
    assert Legal(s, run + [a]);
  }

  lemma {:induction false} ReachedIsGood(pids: seq<int>, f: int, r: bool, t: System)
    requires Reaches(Opening(pids, f, r), t)
    ensures Inv(t, f, r) && t.pids == pids
  {
    var run :| Legal(Opening(pids, f, r), run) && After(Opening(pids, f, r), run) == t;
    OpeningInv(pids, f, r);
    RunKeepsInv(Opening(pids, f, r), f, r, run);
  }

  /** The wait ends too early on no run. */
  ghost predicate WaitIsSafe(pids: seq<int>, f: int, r: bool) {
    forall t :: Reaches(Opening(pids, f, r), t) && HasPassed(t.parent) ==> AllAdded(t)
  }

  /** The program can come to its end on some run. */
  ghost predicate CanEnd(pids: seq<int>, f: int, r: bool) {
    exists t :: Reaches(Opening(pids, f, r), t) && t.parent.Done?
  }

  /** All children just forked, the parent about to lock. */
  ghost predicate Fresh(t: System, m: nat) {
    && |t.pids| == |t.children| && t.parent.Locking? && t.owner == Free && m <= |t.children|
    && (forall i :: 0 <= i < m ==> t.children[i].Gone?)
    && (forall i :: m <= i < |t.children| ==> t.children[i].Ready?)
  }

  ghost predicate HalfForked(t: System, k: nat) {
    && |t.pids| == |t.children| && t.parent == Forking(k) && t.owner == Free && k <= |t.children|
    && (forall i :: 0 <= i < k ==> t.children[i].Ready?)
    && (forall i :: k <= i < |t.children| ==> t.children[i].Unborn?)
  }

  lemma {:induction false} ForkFrom(s: System, h: System, k: nat) returns (t: System)
    requires |s.pids| == |s.children| == |h.children| && Reaches(s, h) && HalfForked(h, k)
    ensures Reaches(s, t) && Fresh(t, 0) && t.finished == h.finished && t.ready == h.ready && t.pids == h.pids
    decreases |h.children| - k
  {
    ReachesNext(s, h, StepParent);
    if k < |h.children| {
      t := ForkFrom(s, ParentStep(h), k + 1);
    } else {
      t := ParentStep(h);
    }
  }

  lemma {:induction false} ForkAll(pids: seq<int>, f: int, r: bool) returns (t: System)
    ensures Reaches(Opening(pids, f, r), t) && Fresh(t, 0) && t.finished == f && t.ready == r && t.pids == pids
  {
    var s := Opening(pids, f, r);
    ReachesItself(s);
    t := ForkFrom(s, s, 0);
  }

  /** Child i about to lock, nobody else in a critical section. */
  ghost predicate Alone(t: System, i: nat) {
    |t.pids| == |t.children| && i < |t.children| && t.owner == Free && t.parent.Locking?
  }

  lemma {:induction false} ChildGoesOn(s: System, h: System, i: nat) returns (t: System)
    requires |s.pids| == |s.children| == |h.pids| == |h.children| && Reaches(s, h) && Enabled(h, StepChild(i))
    ensures Reaches(s, t) && t == ChildStep(h, i)
  {
    ReachesNext(s, h, StepChild(i));
    t := ChildStep(h, i);
  }

  lemma {:induction false} RunAdds(s: System, h: System, i: nat) returns (t: System)
    requires |s.pids| == |s.children| == |h.children| && Reaches(s, h) && Alone(h, i) && h.children[i].Ready?
    ensures Reaches(s, t) && t == h.(counter := h.counter + h.pids[i], children := h.children[i := Resting])
  {
    t := ChildGoesOn(s, h, i);
    t := ChildGoesOn(s, t, i);
    t := ChildGoesOn(s, t, i);
    t := ChildGoesOn(s, t, i);
  }

  lemma {:induction false} RunCounts(s: System, h: System, i: nat) returns (t: System)
    requires |s.pids| == |s.children| == |h.children| && Reaches(s, h) && Alone(h, i) && h.children[i].Resting?
    ensures Reaches(s, t)
    ensures t == h.(finished := h.finished + 1, owner := ByChild(i), children := h.children[i := Testing])
  {
    t := ChildGoesOn(s, h, i);
    t := ChildGoesOn(s, t, i);
    t := ChildGoesOn(s, t, i);
  }

  lemma {:induction false} RunRaises(s: System, h: System, i: nat) returns (t: System)
    requires |s.pids| == |s.children| == |h.pids| == |h.children| && Reaches(s, h)
    requires i < |h.children| && h.children[i].Raising? && h.parent.Locking?
    ensures Reaches(s, t) && t == h.(ready := true, children := h.children[i := Leaving])
  {
    t := ChildGoesOn(s, h, i);
    t := ChildGoesOn(s, t, i);
  }

  lemma {:induction false} RunAnnounces(s: System, h: System, i: nat) returns (t: System)
    requires |s.pids| == |s.children| == |h.pids| == |h.children| && Reaches(s, h)
    requires i < |h.children| && h.children[i].Testing? && h.owner == ByChild(i) && h.parent.Locking?
    ensures Reaches(s, t)
    ensures t == h.(ready := h.ready || h.finished == |h.children|, owner := Free, children := h.children[i := Gone])
  {
    t := ChildGoesOn(s, h, i);
    if h.finished == |h.children| {
      t := RunRaises(s, t, i);
    }
    t := ChildGoesOn(s, t, i);
  }

  /** A child's whole life while nobody else moves. */
  lemma {:induction false} RunAlone(s: System, h: System, i: nat) returns (t: System)
    requires |s.pids| == |s.children| == |h.children| && Reaches(s, h) && Fresh(h, i) && i < |h.children|
    ensures Reaches(s, t) && Fresh(t, i + 1) && t.finished == h.finished + 1
    ensures t.ready == (h.ready || t.finished == |t.children|) && |t.children| == |h.children|
  {
    t := RunAdds(s, h, i);
    t := RunCounts(s, t, i);
    t := RunAnnounces(s, t, i);
  }

  lemma {:induction false} RunSome(s: System, h: System, i: nat, m: nat) returns (t: System)
    requires |s.pids| == |s.children| == |h.children| && Reaches(s, h) && Fresh(h, i) && i < m <= |h.children|
    requires h.finished + (m - i) == |h.children|
    ensures Reaches(s, t) && Fresh(t, m) && t.ready && |t.children| == |h.children|
    decreases m - i
  {
    t := RunAlone(s, h, i);
    if i + 1 < m {
      t := RunSome(s, t, i + 1, m);
    }
  }

  /** With the flag up, the parent walks through the wait. */
  lemma {:induction false} WalkThrough(s: System, h: System, m: nat) returns (t: System)
    requires |s.pids| == |s.children| == |h.children| && Reaches(s, h) && Fresh(h, m) && h.ready
    ensures Reaches(s, t) && t.parent == Passing && t.children == h.children
  {
    ReachesNext(s, h, StepParent);
    t := ParentStep(h);
    ReachesNext(s, t, StepParent);
    t := ParentStep(t);
  }

  lemma {:induction false} LeftoversMislead(pids: seq<int>, f: int, r: bool) returns (t: System)
    requires pids != [] && (r || 0 < f < |pids|)
    ensures Reaches(Opening(pids, f, r), t) && HasPassed(t.parent) && !AllAdded(t)
  {
    var s, n := Opening(pids, f, r), |pids|;
    t := ForkAll(pids, f, r);
    var m: nat := 0;
    if !r {
      m := n - f;
      t := RunSome(s, t, 0, m);
    }
    assert t.children[n - 1].Ready?;
    t := WalkThrough(s, t, m);
  }

  lemma {:induction false} CleanMemoryIsSafe(t: System, f: int)
    requires Inv(t, f, false) && (f <= 0 || f >= |t.children|) && HasPassed(t.parent)
    ensures AllAdded(t)
  {
    AllOnes(CountedBits(t.children));
    FinishedMeansAdded(t);
  }

  /** The parent never goes on too early exactly when memory held no flag, and no number short of the children's. */
  lemma {:induction false} WaitIsSafeIff(pids: seq<int>, f: int, r: bool)
    ensures WaitIsSafe(pids, f, r) <==> pids == [] || (!r && (f <= 0 || f >= |pids|))
  {
    var s := Opening(pids, f, r);
    if pids != [] && (r || 0 < f < |pids|) {
      var t := LeftoversMislead(pids, f, r);
    } else {
      forall t | Reaches(s, t) && HasPassed(t.parent)
        ensures AllAdded(t)
      {
        ReachedIsGood(pids, f, r, t);
        if pids != [] {
          CleanMemoryIsSafe(t, f);
        }
      }
    }
  }

  const INT_MAX := 0x7FFF_FFFF

  lemma {:induction false} PartOfSum(a: seq<int>, b: seq<int>)
    requires |a| == |b| && forall i :: 0 <= i < |a| ==> 0 <= a[i] <= b[i]
    ensures 0 <= Sum(a) <= Sum(b)
  {
    if a != [] {
      PartOfSum(a[1..], b[1..]);
    }
  }

  lemma {:induction false} DividedIsLess(x: nat, n: nat, k: nat)
    requires n > 0
    ensures 0 <= Divided(x, n, k) <= x
  {
    if k > 0 {
      DividedIsLess(x, n, k - 1);
      QuotientIsLess(Divided(x, n, k - 1), n);
    }
  }

  lemma {:induction false} CounterIsBounded(t: System)
    requires |t.pids| == |t.children| && Summed(t) && forall i :: 0 <= i < |t.pids| ==> t.pids[i] > 0
    ensures t.counter <= Sum(t.pids)
  {
    SumIsNonNegative(t.pids);
    PartOfSum(Given(t.pids, t.children), t.pids);
    if t.children != [] {
      DividedIsLess(Sum(t.pids), |t.children|, Divisions(t));
    }
  }

  lemma {:induction false} ReachedIsSummed(pids: seq<int>, t: System)
    requires Reaches(Opening(pids, 0, false), t)
    ensures Inv(t, 0, false) && t.pids == pids && Summed(t)
  {
    var run :| Legal(Opening(pids, 0, false), run) && After(Opening(pids, 0, false), run) == t;
    OpeningInv(pids, 0, false);
    OpeningSum(pids, 0, false);
    RunKeepsSum(Opening(pids, 0, false), run);
  }

  /** Some run holds the whole sum in the counter. */
  lemma {:induction false} SumIsReached(pids: seq<int>) returns (t: System)
    ensures Reaches(Opening(pids, 0, false), t) && t.counter == Sum(pids)
  {
    var s := Opening(pids, 0, false);
    t := ForkAll(pids, 0, false);
    if pids != [] {
      t := RunSome(s, t, 0, |pids|);
      t := WalkThrough(s, t, |pids|);
      ReachedIsSummed(pids, t);
      PassedMeansAdded(t);
      AllGiven(t);
    } else {
      ReachedIsSummed(pids, t);
    }
  }

  /** The 32-bit counter never overflows, on any run on zeroed memory, if and only if the sum of all pids fits it. */
  lemma {:induction false} CounterFitsIff(pids: seq<int>)
    requires forall i :: 0 <= i < |pids| ==> pids[i] > 0
    ensures (forall t :: Reaches(Opening(pids, 0, false), t) ==> t.counter <= INT_MAX) <==> Sum(pids) <= INT_MAX
  {
    var u := SumIsReached(pids);
    forall t | Reaches(Opening(pids, 0, false), t)
      ensures t.counter <= Sum(pids)
    {
      ReachedIsSummed(pids, t);
      CounterIsBounded(t);
    }
  }

  /** What makes the flag go up sooner or later. */
  predicate WillBeReady(n: nat, f: int, r: bool) {
    r || 0 <= f < n
  }

  lemma {:induction false} AllGoneMeansCounted(s: System, f: int)
    requires Counted(s, f) && forall i :: 0 <= i < |s.children| ==> s.children[i].Gone?
    ensures s.finished == f + |s.children|
  {
    SumOfConstant(CountedBits(s.children), 1);
  }

  /** No deadlock: until the parent is done somebody can step, without any help from a spurious wakeup. */
  lemma {:induction false} SomebodyCanStep(s: System, f: int, r: bool) returns (a: Action)
    requires Inv(s, f, r) && WillBeReady(|s.children|, f, r) && !s.parent.Done?
    ensures Enabled(s, a) && !a.WakeUp?
  {
    if s.owner.ByChild? {
      a := StepChild(s.owner.i);
    } else if !s.parent.Asleep? {
      a := StepParent;
    } else if i :| 0 <= i < |s.children| && !s.children[i].Gone? {
      a := StepChild(i);
    } else {
      AllGoneMeansCounted(s, f);
      assert false;
    }
  }

  /** Steps a child may still make; the signal counts for more than itself, since it sends the parent back. */
  function ChildRank(c: Child): (k: nat)
  {
    match c
    case Unborn => 15
    case Ready => 14
    case Adding => 13
    case AddLoaded(_) => 12
    case Added => 11
    case Resting => 10
    case Counting => 9
    case CountLoaded(_) => 8
    case Testing => 7
    case Raising => 6
    case Signalling => 5
    case Leaving => 1
    case Gone => 0
  }

  function ParentRank(p: Parent, n: nat): int {
    match p
    case Forking(k) => 4 * n + 7 + (n - k)
    case Locking => 4 * n + 6
    case Waking => 4 * n + 5
    case Checking => 4 * n + 4
    case Asleep => 4 * n + 3
    case Passing => 4 * n + 2
    case Dividing(k) => 4 * (n - k) + 1
    case DivHolding(k) => 4 * (n - k)
    case DivLoaded(k, _) => 4 * (n - k) - 1
    case DivStored(k) => 4 * (n - k) - 2
    case Done => 0
  }

  function Ranks(cs: seq<Child>): (b: seq<int>)
    ensures |b| == |cs| && forall i :: 0 <= i < |b| ==> b[i] == ChildRank(cs[i])
  {
    seq(|cs|, i requires 0 <= i < |cs| => ChildRank(cs[i]))
  }

  function StepsLeft(s: System): int {
    Sum(Ranks(s.children)) + ParentRank(s.parent, |s.children|)
  }

  lemma {:induction false} StepsLeftIsNonNegative(s: System)
    requires Forked(s)
    ensures StepsLeft(s) >= 0
  {
    SumIsNonNegative(Ranks(s.children));
  }

  lemma {:induction false} RanksChange(cs: seq<Child>, i: nat, c: Child)
    requires i < |cs|
    ensures Sum(Ranks(cs[i := c])) == Sum(Ranks(cs)) - ChildRank(cs[i]) + ChildRank(c)
  {
    SumOfUpdate(Ranks(cs), i, ChildRank(c));
    assert Ranks(cs[i := c]) == Ranks(cs)[i := ChildRank(c)];
  }

  lemma {:induction false} ChildStepIsProgress(s: System, i: nat)
    requires |s.pids| == |s.children| && Enabled(s, StepChild(i))
    ensures StepsLeft(ChildStep(s, i)) < StepsLeft(s)
  {
    var t := ChildStep(s, i);
    RanksChange(s.children, i, t.children[i]);
    assert t.children == s.children[i := t.children[i]];
  }

  lemma {:induction false} ParentStepIsProgress(s: System)
    requires |s.pids| == |s.children| && Forked(s) && Enabled(s, StepParent)
    ensures StepsLeft(ParentStep(s)) < StepsLeft(s)
  {
    if s.parent.Forking? && s.parent.k < |s.children| {
      RanksChange(s.children, s.parent.k, Ready);
    }
  }

  lemma {:induction false} StepIsProgress(s: System, a: Action)
    requires |s.pids| == |s.children| && Forked(s) && Enabled(s, a)
    ensures StepsLeft(Apply(s, a)) <= StepsLeft(s) + if a.WakeUp? then 2 else -1
  {
    match a
    case StepChild(i) => ChildStepIsProgress(s, i);
    case StepParent => ParentStepIsProgress(s);
    case WakeUp =>
  }

  function WakeUps(run: seq<Action>): nat {
    if run == [] then 0 else (if run[0].WakeUp? then 1 else 0) + WakeUps(run[1..])
  }

  /** No run goes on for ever: beyond three steps for each spurious wakeup its length is bounded from the start. */
  lemma {:induction false} RunsAreBounded(s: System, f: int, r: bool, run: seq<Action>)
    requires Inv(s, f, r) && Legal(s, run)
    ensures |run| <= StepsLeft(s) + 3 * WakeUps(run)
    decreases |run|
  {
    StepsLeftIsNonNegative(s);
    if run != [] {
      StepIsProgress(s, run[0]);
      StepKeepsInv(s, f, r, run[0]);
      RunsAreBounded(Apply(s, run[0]), f, r, run[1..]);
    }
  }

  /** Every run can be carried on to the end. */
  lemma {:induction false} EndIsNear(s: System, h: System, f: int, r: bool) returns (t: System)
    requires |s.pids| == |s.children| == |h.children| && Reaches(s, h)
    requires Inv(h, f, r) && WillBeReady(|h.children|, f, r)
    ensures Reaches(s, t) && t.parent.Done?
    decreases StepsLeft(h)
  {
    if h.parent.Done? {
      t := h;
    } else {
      var a := SomebodyCanStep(h, f, r);
      StepsLeftIsNonNegative(h);
      StepIsProgress(h, a);
      ReachesNext(s, h, a);
      StepKeepsInv(h, f, r, a);
      t := EndIsNear(s, Apply(h, a), f, r);
    }
  }

  lemma {:induction false} NeverReady(s: System, f: int, r: bool)
    requires Inv(s, f, r) && !WillBeReady(|s.children|, f, r)
    ensures !s.ready && !HasPassed(s.parent)
  {
    AllOnes(CountedBits(s.children));
  }

  /**
   The program ends exactly when memory held a flag, or a number the children can still carry to theirs. Zeroed memory
   is good for every positive number of children, and for none the parent sleeps for ever.
   */
  lemma {:induction false} CanEndIff(pids: seq<int>, f: int, r: bool)
    ensures CanEnd(pids, f, r) <==> r || 0 <= f < |pids|
  {
    var s := Opening(pids, f, r);
    ReachesItself(s);
    OpeningInv(pids, f, r);
    if WillBeReady(|pids|, f, r) {
      var t := EndIsNear(s, s, f, r);
    } else if CanEnd(pids, f, r) {
      var t :| Reaches(s, t) && t.parent.Done?;
      ReachedIsGood(pids, f, r, t);
      NeverReady(t, f, r);
    }
  }
}
