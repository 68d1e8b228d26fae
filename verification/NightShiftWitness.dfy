/**
 When a disturbed scan can be believed. A scan that is overtaken by swaps may accept anything; but one that has loaded
 1, 2, ..., N has seen the final arrangement, however many stores came in between.
 */
module NightShiftWitness {
  import opened Sequences
  import opened NightShift
  import opened NightShiftSafety
  import opened NightShiftStock
  import opened NightShiftManager

  /** The first k shelves hold 1..k, and no pending store is for one of them. */
  ghost predicate Settled(s: Shop, k: nat) {
    && k <= |s.shelves|
    && (forall p :: 0 <= p < k ==> s.shelves[p] == p + 1)
    && (forall w :: 0 <= w < |s.workers| && s.workers[w].pc == StoreHigh ==> k <= s.workers[w].hi)
  }

  /** A night without losses so far. */
  ghost predicate Complete(s: Shop) {
    Inv(s) && s.program == CompareInside && multiset(View(s)) == multiset(Stock(|s.shelves|))
  }

  lemma {:induction false} SettledInView(s: Shop, k: nat, p: nat)
    requires Inv(s) && Settled(s, k) && p < k
    ensures View(s)[p] == p + 1
  {
    assert Accounted(s, MutexOf(s.program, p));
  }

  /** Everything above the settled shelves is larger than anything on them. */
  lemma {:induction false} OthersAreLarger(s: Shop, k: nat, p: nat)
    requires Complete(s) && Settled(s, k) && k <= p < |s.shelves|
    ensures View(s)[p] > k
  {
    var v := View(s)[p];
    assert v in multiset(View(s));
    assert v in Stock(|s.shelves|);
    DistinctByMultiset(Stock(|s.shelves|), View(s));
    if v <= k {
      SettledInView(s, k, v - 1);
    }
  }

  /** So no swap under the locks can touch a settled shelf. */
  lemma {:induction false} StoreIsAbove(s: Shop, k: nat, w: nat)
    requires Complete(s) && Settled(s, k) && Enabled(s, Advance(w)) && s.workers[w].pc == StoreLow
    ensures k <= s.workers[w].lo
  {
    var t := s.workers[w];
    assert HoldsItsOwn(s, w) && SoundAt(s, w);
    assert View(s)[t.hi] == t.y;
    if k <= t.hi {
      OthersAreLarger(s, k, t.hi);
    }
  }

  lemma {:induction false} StepKeepsSettled(s: Shop, k: nat, a: Action)
    requires Complete(s) && Settled(s, k) && Enabled(s, a)
    ensures Settled(Apply(s, a), k)
  {
    if a.Advance? && s.workers[a.w].pc == StoreLow {
      StoreIsAbove(s, k, a.w);
    }
  }

  /**
   The next shelf settles when it is seen to hold its own product: a swap in flight would show a smaller one there.
   */
  lemma {:induction false} SeenMeansSettled(s: Shop, k: nat)
    requires Inv(s) && Settled(s, k) && k < |s.shelves| && s.shelves[k] == k + 1
    ensures Settled(s, k + 1)
  {
    forall w | 0 <= w < |s.workers| && s.workers[w].pc == StoreHigh
      ensures k + 1 <= s.workers[w].hi
    {
      assert SoundAt(s, w);
    }
  }

  /** What this step of the scan loads is what belongs there. */
  predicate LoadsRight(s: Shop, a: Action)
    requires Shaped(s)
  {
    a == Scan ==>
      match s.manager
      case ScanLeft(k) => k + 1 < |s.shelves| ==> s.shelves[k] == k + 1
      case ScanRight(k, _) => s.shelves[k + 1] == k + 2
      case _ => true
  }

  predicate AllLoadsRight(s: Shop, run: seq<Action>)
    requires Shaped(s) && Legal(s, run)
    decreases |run|
  {
    run == [] || (LoadsRight(s, run[0]) && AllLoadsRight(Apply(s, run[0]), run[1..]))
  }

  /** What a scan with right loads has settled so far. */
  ghost predicate Believed(s: Shop)
    requires Shaped(s)
  {
    match s.manager
    case ScanLeft(k) => k == 0 || Settled(s, k + 1)
    case ScanRight(k, _) => Settled(s, k + 1)
    case Accepted => Settled(s, |s.shelves|)
    case _ => true
  }

  lemma {:induction false} ScanKeepsBelieved(s: Shop)
    requires Complete(s) && Believed(s) && Enabled(s, Scan) && LoadsRight(s, Scan)
    ensures Believed(Apply(s, Scan))
  {
    match s.manager
    case ScanLeft(k) =>
      if k == 0 {
        SeenMeansSettled(s, 0);
      }
    case ScanRight(k, _) => SeenMeansSettled(s, k + 1);
  }

  lemma {:induction false} StepKeepsBelieved(s: Shop, a: Action)
    requires Complete(s) && Believed(s) && Enabled(s, a) && LoadsRight(s, a)
    ensures Believed(Apply(s, a))
  {
    if a == Scan {
      ScanKeepsBelieved(s);
    } else if a.Wake? || a.Stop? {
    } else {
      match s.manager
      case ScanLeft(k) =>
        if k > 0 {
          StepKeepsSettled(s, k + 1, a);
        }
      case ScanRight(k, _) => StepKeepsSettled(s, k + 1, a);
      case Accepted => StepKeepsSettled(s, |s.shelves|, a);
      case _ =>
    }
  }

  lemma {:induction false} RunKeepsBelieved(s: Shop, run: seq<Action>)
    requires Complete(s) && Believed(s) && Legal(s, run) && Losses(s, run) == 0 && AllLoadsRight(s, run)
    ensures Complete(After(s, run)) && Believed(After(s, run))
    decreases |run|
  {
    if run != [] {
      StepKeepsInv(s, run[0]);
      StepKeepsStock(s, run[0]);
      StepKeepsBelieved(s, run[0]);
      RunKeepsBelieved(Apply(s, run[0]), run[1..]);
    }
  }

  /**
   Whatever is stored during it: a scan of a night without losses that has loaded 1, 2, ..., N and accepts is right. The
   shelves are 1..N when it ends, no swap is in flight, and they are 1..N in every later state and at the final print.
   */
  lemma {:induction false} TellingScanIsRight(s: Shop, before: seq<Action>, scan: seq<Action>, rest: seq<Action>)
    requires Initial(s) && s.program == CompareInside && Legal(s, before) && After(s, before).manager == ScanLeft(0)
    requires Legal(After(s, before), scan) && AllLoadsRight(After(s, before), scan)
    requires Losses(s, before) == 0 && Losses(After(s, before), scan) == 0
    requires After(After(s, before), scan).manager == Accepted
    requires Legal(After(After(s, before), scan), rest)
    ensures var t := After(After(s, before), scan);
            t.shelves == Stock(|s.shelves|) && NoSwapInFlight(t) && After(t, rest).shelves == Stock(|s.shelves|)
  {
    var u := After(s, before);
    var t := After(u, scan);
    assert Complete(u) by {
      InitialInv(s);
      RunKeepsInv(s, before);
      ViewAtRest(s);
      LossFreeRunKeepsStock(s, before);
    }
    RunKeepsBelieved(u, scan);
    assert t.shelves == Stock(|s.shelves|);
    OrderIsAbsorbing(t, rest);
  }
}
