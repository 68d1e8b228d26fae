/**
 When a shift can end with a wrong verdict, told from the shelves before its first step: exactly when somebody works and
 two products that are not neighbours are out of order.
 */
module NightShiftVerdict {
  import opened Sequences
  import opened Inversions
  import opened FarInversions
  import opened NightShift
  import opened NightShiftSafety
  import opened NightShiftStock
  import opened NightShiftManager

  /** A run without losses whose scan accepts shelves that are out of order, swaps in flight completed. */
  ghost predicate Misjudges(s: Shop, run: seq<Action>)
    requires Shaped(s)
  {
    Legal(s, run) && Losses(s, run) == 0 && After(s, run).manager == Accepted && !Sorted(View(After(s, run)))
  }

  /** The same with no swap in flight any more: the shelves themselves are out of order for good to see. */
  ghost predicate MisjudgesAtRest(s: Shop, run: seq<Action>)
    requires Shaped(s)
  {
    && Legal(s, run) && Losses(s, run) == 0 && After(s, run).manager == Accepted
    && NoSwapInFlight(After(s, run)) && !Sorted(After(s, run).shelves)
  }

  /** No swap in flight touches shelf p. */
  ghost predicate Untouched(s: Shop, p: nat) {
    forall w :: 0 <= w < |s.workers| && s.workers[w].pc == StoreHigh ==> s.workers[w].lo != p && s.workers[w].hi != p
  }

  /** The scan has not passed the pair k, k + 1, and has loaded shelf k, if it has, as it still is. */
  ghost predicate NotPassed(s: Shop, k: nat)
    requires k < |s.shelves|
  {
    match s.manager
    case Asleep => true
    case ScanLeft(i) => i <= k
    case ScanRight(i, left) => i < k || (i == k && left == s.shelves[k])
    case _ => false
  }

  /** Neighbours that are out of order have never been touched, and the scan is still to come to them. */
  ghost predicate Pending(s: Shop, k: nat)
    requires Shaped(s) && k + 1 < |s.shelves|
  {
    View(s)[k] > View(s)[k + 1] ==> Untouched(s, k) && Untouched(s, k + 1) && NotPassed(s, k)
  }

  /** Only neighbours are out of order, or nobody works. */
  ghost predicate Harmless(s: Shop)
    requires Shaped(s)
  {
    && s.program == CompareInside && (|s.workers| > 0 ==> !HasFarPair(View(s)))
    && forall k :: 0 <= k < |s.shelves| - 1 ==> Pending(s, k)
  }

  lemma {:induction false} UntouchedIsShown(s: Shop, p: nat)
    requires Shaped(s) && p < |s.shelves| && Untouched(s, p)
    ensures View(s)[p] == s.shelves[p]
  {}

  /** A swap about to be committed is of a pair that is out of order in the view. */
  lemma {:induction false} CommitIsOfInversion(s: Shop, w: nat)
    requires Inv(s) && Enabled(s, Advance(w)) && s.workers[w].pc == StoreLow && s.program == CompareInside
    ensures var k := s.workers[w]; k.lo < k.hi < |s.shelves| && View(s)[k.lo] > View(s)[k.hi]
  {
    assert HoldsItsOwn(s, w) && SoundAt(s, w);
  }

  lemma {:induction false} CommitKeepsPending(s: Shop, w: nat, k: nat)
    requires Inv(s) && Harmless(s) && Enabled(s, Advance(w)) && s.workers[w].pc == StoreLow && k + 1 < |s.shelves|
    ensures Pending(Apply(s, Advance(w)), k)
  {
    var t, v := Apply(s, Advance(w)), s.workers[w];
    CommitIsOfInversion(s, w);
    CommitSwapsView(s, w);
    NearSwap(View(s), v.lo, v.hi);
    assert Pending(s, k);
    if View(t)[k] > View(t)[k + 1] {
      assert t.shelves[k] == s.shelves[k];
    }
  }

  lemma {:induction false} QuietStepKeepsUntouched(s: Shop, a: Action, p: nat)
    requires Shaped(s) && Enabled(s, a) && !IsCommit(s, a) && p < |s.shelves| && Untouched(s, p)
    ensures Untouched(Apply(s, a), p) && Apply(s, a).shelves[p] == s.shelves[p]
  {
    if a.Advance? {
      assert Apply(s, a).workers[a.w].pc != StoreHigh;
    }
  }

  lemma {:induction false} QuietStepKeepsPending(s: Shop, a: Action, k: nat)
    requires Inv(s) && Harmless(s) && Enabled(s, a) && !IsCommit(s, a) && !IsLoss(s, a) && k + 1 < |s.shelves|
    ensures Pending(Apply(s, a), k)
  {
    var t := Apply(s, a);
    QuietStepKeepsView(s, a);
    assert Pending(s, k);
    if View(s)[k] > View(s)[k + 1] {
      UntouchedIsShown(s, k);
      UntouchedIsShown(s, k + 1);
      QuietStepKeepsUntouched(s, a, k);
      QuietStepKeepsUntouched(s, a, k + 1);
    }
  }

  lemma {:induction false} StepKeepsHarmless(s: Shop, a: Action)
    requires Inv(s) && Harmless(s) && Enabled(s, a) && !IsLoss(s, a)
    ensures Harmless(Apply(s, a))
  {
    var t := Apply(s, a);
    if IsCommit(s, a) {
      CommitIsOfInversion(s, a.w);
      CommitSwapsView(s, a.w);
      NearSwap(View(s), s.workers[a.w].lo, s.workers[a.w].hi);
    } else {
      QuietStepKeepsView(s, a);
    }
    forall k | 0 <= k < |t.shelves| - 1
      ensures Pending(t, k)
    {
      if IsCommit(s, a) {
        CommitKeepsPending(s, a.w, k);
      } else {
        QuietStepKeepsPending(s, a, k);
      }
    }
  }

  lemma {:induction false} RunKeepsHarmless(s: Shop, run: seq<Action>)
    requires Inv(s) && Harmless(s) && Legal(s, run) && Losses(s, run) == 0
    ensures Harmless(After(s, run))
    decreases |run|
  {
    if run != [] {
      StepKeepsInv(s, run[0]);
      StepKeepsHarmless(s, run[0]);
      RunKeepsHarmless(Apply(s, run[0]), run[1..]);
    }
  }

  lemma {:induction false} AcceptedRightly(s: Shop)
    requires Shaped(s) && Harmless(s) && s.manager == Accepted
    ensures Sorted(View(s))
  {
    var v := View(s);
    forall k | 0 <= k < |v| - 1
      ensures v[k] <= v[k + 1]
    {
      assert Pending(s, k);
    }
    AdjacentMeansSorted(v, |v| - 1);
    assert v[..|v|] == v;
  }

  /** From there no scan accepts what is out of order. */
  lemma {:induction false} HarmlessIsNotMisjudged(s: Shop, run: seq<Action>)
    requires Inv(s) && Harmless(s)
    ensures !Misjudges(s, run)
  {
    if Legal(s, run) && Losses(s, run) == 0 && After(s, run).manager == Accepted {
      RunKeepsHarmless(s, run);
      AcceptedRightly(After(s, run));
    }
  }

  /** From the state s some run ends with a wrong verdict. */
  ghost predicate CanMislead(s: Shop)
    requires Shaped(s)
  {
    exists run :: MisjudgesAtRest(s, run)
  }

  lemma {:induction false} OneStepBefore(s: Shop, a: Action)
    requires Shaped(s) && Enabled(s, a) && !IsLoss(s, a) && CanMislead(Apply(s, a))
    ensures CanMislead(s)
  {
    var rest :| MisjudgesAtRest(Apply(s, a), rest);
    var run := [a] + rest;
    assert run[1..] == rest;
    assert MisjudgesAtRest(s, run);
  }

  /** All idle, all mutexes free, the shift on; where the manager is does not matter. */
  ghost predicate Ready(s: Shop) {
    && Shaped(s) && s.program == CompareInside && s.run && |s.workers| > 0
    && s.mutexes == seq(MAX_SHELVES, _ => Free)
    && forall w :: 0 <= w < |s.workers| ==> s.workers[w].pc == Idle
  }

  ghost predicate OutOfOrder(s: Shop, i: nat, j: nat) {
    Ready(s) && i < j < |s.shelves| && s.shelves[i] > s.shelves[j]
  }

  /** The first worker has compared shelves i and j under their locks. */
  function Compared(s: Shop, i: nat, j: nat): (t: Shop)
    requires OutOfOrder(s, i, j)
    ensures Shaped(t)
  {
    s.(workers := s.workers[0 := s.workers[0].(pc := LoadLow, lo := i, hi := j, seen := s.shelves[i])],
       mutexes := s.mutexes[i := Held(0)][j := Held(0)])
  }

  /** It has stored to shelf i. */
  function HalfSwapped(s: Shop, i: nat, j: nat): (t: Shop)
    requires OutOfOrder(s, i, j)
    ensures Shaped(t)
  {
    var a := s.shelves;
    var k := s.workers[0].(pc := StoreHigh, lo := i, hi := j, seen := a[i], x := a[i], y := a[j]);
    Compared(s, i, j).(workers := s.workers[0 := k], shelves := a[i := a[j]])
  }

  /** Its round is over. */
  function Swapped(s: Shop, i: nat, j: nat): (t: Shop)
    requires OutOfOrder(s, i, j)
    ensures Ready(t) && t.manager == s.manager
  {
    var a := s.shelves;
    var k := s.workers[0].(lo := i, hi := j, seen := a[i], x := a[i], y := a[j]);
    s.(workers := s.workers[0 := k], shelves := Swap(a, i, j))
  }

  lemma {:induction false} BeforeReading(s: Shop, i: nat, j: nat, p: Shop)
    requires OutOfOrder(s, i, j) && CanMislead(Compared(s, i, j))
    requires p == Compared(s, i, j).(workers := s.workers[0 := s.workers[0].(pc := ReadLow, lo := i, hi := j)])
    ensures CanMislead(p)
  {
    var q := Apply(p, Advance(0));
    assert Apply(q, Advance(0)) == Compared(s, i, j);
    OneStepBefore(q, Advance(0));
    OneStepBefore(p, Advance(0));
  }

  lemma {:induction false} BeforeComparing(s: Shop, i: nat, j: nat)
    requires OutOfOrder(s, i, j) && CanMislead(Compared(s, i, j))
    ensures CanMislead(s)
  {
    var p := Apply(s, Pick(0, i, j));
    var q := Apply(p, Advance(0));
    BeforeReading(s, i, j, Apply(q, Advance(0)));
    OneStepBefore(q, Advance(0));
    OneStepBefore(p, Advance(0));
    OneStepBefore(s, Pick(0, i, j));
  }

  lemma {:induction false} BeforeStoring(s: Shop, i: nat, j: nat)
    requires OutOfOrder(s, i, j) && CanMislead(HalfSwapped(s, i, j))
    ensures CanMislead(s)
  {
    var p := Compared(s, i, j);
    var q := Apply(p, Advance(0));
    var r := Apply(q, Advance(0));
    assert Apply(r, Advance(0)) == HalfSwapped(s, i, j);
    OneStepBefore(r, Advance(0));
    OneStepBefore(q, Advance(0));
    OneStepBefore(p, Advance(0));
    BeforeComparing(s, i, j);
  }

  lemma {:induction false} LocksCancel(m: seq<Mutex>, i: nat, j: nat)
    requires i < j < |m| && m[i] == m[j] == Free
    ensures m[i := Held(0)][j := Held(0)][i := Free][j := Free] == m
  {}

  lemma {:induction false} BeforeDropping(s: Shop, i: nat, j: nat, q: Shop)
    requires OutOfOrder(s, i, j) && CanMislead(Swapped(s, i, j))
    requires var k := Swapped(s, i, j).workers[0].(pc := DropLow);
             q == Swapped(s, i, j).(workers := s.workers[0 := k], mutexes := Compared(s, i, j).mutexes)
    ensures CanMislead(q)
  {
    var r := Apply(q, Advance(0));
    LocksCancel(s.mutexes, i, j);
    assert r.mutexes == q.mutexes[i := Free] && r.workers[0] == q.workers[0].(pc := DropHigh);
    var t := Apply(r, Advance(0));
    assert t.mutexes == s.mutexes && t.workers == Swapped(s, i, j).workers;
    OneStepBefore(r, Advance(0));
    OneStepBefore(q, Advance(0));
  }

  lemma {:induction false} BeforeFinishing(s: Shop, i: nat, j: nat)
    requires OutOfOrder(s, i, j) && CanMislead(Swapped(s, i, j))
    ensures CanMislead(HalfSwapped(s, i, j))
  {
    var p := HalfSwapped(s, i, j);
    var q := Apply(p, Advance(0));
    assert q.shelves == Swap(s.shelves, i, j);
    BeforeDropping(s, i, j, q);
    OneStepBefore(p, Advance(0));
  }

  /** A whole round. */
  lemma {:induction false} BeforeRound(s: Shop, i: nat, j: nat)
    requires OutOfOrder(s, i, j) && CanMislead(Swapped(s, i, j))
    ensures CanMislead(s)
  {
    BeforeFinishing(s, i, j);
    BeforeStoring(s, i, j);
  }

  /** A scan that finds the shelves from where it is up to shelf p in order. */
  lemma {:induction false} BeforeScanning(s: Shop, k: nat, p: nat)
    requires Shaped(s) && s.manager == ScanLeft(k) && k <= p < |s.shelves|
    requires forall i :: k <= i < p ==> s.shelves[i] <= s.shelves[i + 1]
    requires CanMislead(s.(manager := ScanLeft(p)))
    ensures CanMislead(s)
    decreases p - k
  {
    if k < p {
      var t := Apply(s, Scan);
      BeforeScanning(Apply(t, Scan), k + 1, p);
      OneStepBefore(t, Scan);
      OneStepBefore(s, Scan);
    } else {
      assert s.(manager := ScanLeft(p)) == s;
    }
  }

  lemma {:induction false} BeforeAccepting(s: Shop, k: nat)
    requires Shaped(s) && s.manager == ScanLeft(k) && k < |s.shelves|
    requires forall i :: k <= i < |s.shelves| - 1 ==> s.shelves[i] <= s.shelves[i + 1]
    requires CanMislead(s.(manager := Accepted))
    ensures CanMislead(s)
  {
    var n := |s.shelves| - 1;
    OneStepBefore(s.(manager := ScanLeft(n)), Scan);
    BeforeScanning(s, k, n);
  }

  lemma {:induction false} AcceptedWrongly(s: Shop)
    requires Ready(s) && s.manager == Accepted && !Sorted(s.shelves)
    ensures CanMislead(s)
  {
    assert MisjudgesAtRest(s, []);
  }

  /** A swap of shelves p + 1 and p + 2 overtakes the scan, which has passed shelf p. */
  lemma {:induction false} OvertakenFrom(s: Shop, p: nat)
    requires Ready(s) && s.manager == ScanLeft(p + 1) && SmallestLast(s.shelves, p)
    ensures CanMislead(s)
  {
    var t := Swapped(s, p + 1, p + 2);
    SmallestLastExchanged(s.shelves, p);
    AcceptedWrongly(t.(manager := Accepted));
    BeforeAccepting(t, p + 1);
    BeforeRound(s, p + 1, p + 2);
  }

  lemma {:induction false} OvertakenAt(s: Shop, p: nat)
    requires Ready(s) && s.manager == Asleep && SmallestLast(s.shelves, p)
    ensures CanMislead(s)
  {
    OvertakenFrom(s.(manager := ScanLeft(p + 1)), p);
    BeforeScanning(s.(manager := ScanLeft(0)), 0, p + 1);
    OneStepBefore(s, Wake);
  }

  lemma {:induction false} HiddenAccepted(s: Shop, p: nat, t: Shop)
    requires Ready(s) && LargestFirst(s.shelves, p) && t == HalfSwapped(s, p, p + 1).(manager := Accepted)
    ensures CanMislead(t)
  {
    var r := s.(manager := Accepted);
    assert t == HalfSwapped(r, p, p + 1);
    AcceptedWrongly(Swapped(r, p, p + 1));
    BeforeFinishing(r, p, p + 1);
  }

  /** A half-done swap hides what is out of order. */
  lemma {:induction false} HiddenAt(s: Shop, p: nat)
    requires Ready(s) && s.manager == Asleep && LargestFirst(s.shelves, p)
    ensures CanMislead(s)
  {
    var t := HalfSwapped(s, p, p + 1);
    HiddenAccepted(s, p, t.(manager := Accepted));
    BeforeAccepting(t.(manager := ScanLeft(0)), 0);
    OneStepBefore(t, Wake);
    BeforeStoring(s, p, p + 1);
  }

  /** By inversions: rounds that spare a far pair lead to one of the two. */
  lemma {:induction false} FarPairMisleads(s: Shop)
    requires Ready(s) && s.manager == Asleep && HasFarPair(s.shelves)
    ensures CanMislead(s)
    decreases Disorder(s.shelves)
  {
    var i, j, p := FarPairGoesOn(s.shelves);
    if SmallestLast(s.shelves, p) {
      OvertakenAt(s, p);
    } else if LargestFirst(s.shelves, p) {
      HiddenAt(s, p);
    } else {
      OrderingSwapLowers(s.shelves, i, j);
      FarPairMisleads(Swapped(s, i, j));
      BeforeRound(s, i, j);
    }
  }

  /**
   The manager's verdict, known before the shift: some run without losses, whatever its interleaving, has the manager
   accept shelves that are out of order, if and only if there is a worker and two products two or more shelves apart are
   out of order. The run can be chosen so that nothing is in flight any more.
   */
  lemma {:induction false} VerdictCanBeWrongIff(s: Shop)
    requires Initial(s) && s.program == CompareInside
    ensures (exists run :: Misjudges(s, run)) <==> |s.workers| > 0 && HasFarPair(s.shelves)
    ensures (exists run :: MisjudgesAtRest(s, run)) <==> |s.workers| > 0 && HasFarPair(s.shelves)
  {
    InitialInv(s);
    ViewAtRest(s);
    if |s.workers| > 0 && HasFarPair(s.shelves) {
      assert s.mutexes == seq(MAX_SHELVES, _ => Free);
      FarPairMisleads(s);
      var run :| MisjudgesAtRest(s, run);
      ViewAtRest(After(s, run));
      assert Misjudges(s, run);
    } else {
      forall run
        ensures !Misjudges(s, run) && !MisjudgesAtRest(s, run)
      {
        HarmlessIsNotMisjudged(s, run);
        if MisjudgesAtRest(s, run) {
          ViewAtRest(After(s, run));
        }
      }
    }
  }
}
