/**
 The stock through half-done swaps. Between the two stores of a swap the array holds one product twice and another
 not at all; `View` is the array with every pending second store carried out.
 */
module NightShiftStock {
  import opened Sequences
  import opened Inversions
  import opened NightShift
  import opened NightShiftSafety

  /** What shelf p holds once the swap in flight on it, if any, is completed. */
  function Cell(s: Shop, p: nat): int
    requires Shaped(s) && p < |s.shelves|
  {
    var m := s.mutexes[MutexOf(s.program, p)];
    if m.Held? && m.owner < |s.workers| && s.workers[m.owner].pc == StoreHigh && s.workers[m.owner].hi == p
    then s.workers[m.owner].x
    else s.shelves[p]
  }

  function View(s: Shop): (v: seq<int>)
    requires Shaped(s)
    ensures |v| == |s.shelves|
    ensures forall p :: 0 <= p < |v| ==> v[p] == Cell(s, p)
  {
    seq(|s.shelves|, p requires 0 <= p < |s.shelves| => Cell(s, p))
  }

  /** A step that makes a swap count: the first of its two stores. */
  predicate IsCommit(s: Shop, a: Action) {
    a.Advance? && a.w < |s.workers| && s.workers[a.w].pc == StoreLow
  }

  /** A death that loses a product: between the two stores. */
  predicate IsLoss(s: Shop, a: Action) {
    a.Die? && a.w < |s.workers| && s.workers[a.w].pc == StoreHigh
  }

  function Commits(s: Shop, run: seq<Action>): nat
    requires Shaped(s) && Legal(s, run)
    decreases |run|
  {
    if run == [] then 0 else (if IsCommit(s, run[0]) then 1 else 0) + Commits(Apply(s, run[0]), run[1..])
  }

  function Losses(s: Shop, run: seq<Action>): nat
    requires Shaped(s) && Legal(s, run)
    decreases |run|
  {
    if run == [] then 0 else (if IsLoss(s, run[0]) then 1 else 0) + Losses(Apply(s, run[0]), run[1..])
  }

  /** Nobody between the two stores: the view is the array itself. */
  lemma {:induction false} ViewAtRest(s: Shop)
    requires Shaped(s) && forall w :: 0 <= w < |s.workers| ==> s.workers[w].pc != StoreHigh
    ensures View(s) == s.shelves
  {}

  lemma {:induction false} CellOnCommit(s: Shop, w: nat, p: nat)
    requires Inv(s) && Enabled(s, Advance(w)) && s.workers[w].pc == StoreLow && p < |s.shelves|
    ensures var k := s.workers[w];
            Cell(Apply(s, Advance(w)), p) == Cell(s, if p == k.lo then k.hi else if p == k.hi then k.lo else p)
  {
    assert HoldsItsOwn(s, w) && SoundAt(s, w) && Accounted(s, MutexOf(s.program, p));
  }

  /** The first store already swaps the view. */
  lemma {:induction false} CommitSwapsView(s: Shop, w: nat)
    requires Inv(s) && Enabled(s, Advance(w)) && s.workers[w].pc == StoreLow
    ensures View(Apply(s, Advance(w))) == Swap(View(s), s.workers[w].lo, s.workers[w].hi)
  {
    forall p | 0 <= p < |s.shelves|
      ensures View(Apply(s, Advance(w)))[p] == Swap(View(s), s.workers[w].lo, s.workers[w].hi)[p]
    {
      CellOnCommit(s, w, p);
    }
  }

  lemma {:induction false} CellOnSecondStore(s: Shop, w: nat, p: nat)
    requires Inv(s) && Enabled(s, Advance(w)) && s.workers[w].pc == StoreHigh && p < |s.shelves|
    ensures Cell(Apply(s, Advance(w)), p) == Cell(s, p)
  {
    assert HoldsItsOwn(s, w) && SoundAt(s, w) && Accounted(s, MutexOf(s.program, p));
  }

  lemma {:induction false} CellOnQuietAdvance(s: Shop, w: nat, p: nat)
    requires Inv(s) && Enabled(s, Advance(w)) && p < |s.shelves|
    requires s.workers[w].pc != StoreLow && s.workers[w].pc != StoreHigh
    ensures Cell(Apply(s, Advance(w)), p) == Cell(s, p)
  {
    var t := Apply(s, Advance(w));
    assert HoldsItsOwn(s, w) && Accounted(s, MutexOf(s.program, p));
    assert t.shelves == s.shelves && Moved(s, w).pc != StoreHigh;
    assert forall v :: 0 <= v < |s.workers| && v != w ==> t.workers[v] == s.workers[v];
  }

  lemma {:induction false} CellOnQuietStep(s: Shop, a: Action, p: nat)
    requires Inv(s) && Enabled(s, a) && !a.Advance? && !IsLoss(s, a) && p < |s.shelves|
    ensures Cell(Apply(s, a), p) == Cell(s, p)
  {
    assert Accounted(s, MutexOf(s.program, p));
  }

  /** Every other step, the second store and harmless deaths included, leaves the view alone. */
  lemma {:induction false} QuietStepKeepsView(s: Shop, a: Action)
    requires Inv(s) && Enabled(s, a) && !IsCommit(s, a) && !IsLoss(s, a)
    ensures View(Apply(s, a)) == View(s)
  {
    forall p | 0 <= p < |s.shelves|
      ensures View(Apply(s, a))[p] == View(s)[p]
    {
      if a.Advance? && s.workers[a.w].pc == StoreHigh {
        CellOnSecondStore(s, a.w, p);
      } else if a.Advance? {
        CellOnQuietAdvance(s, a.w, p);
      } else {
        CellOnQuietStep(s, a, p);
      }
    }
  }

  lemma {:induction false} CellOnLoss(s: Shop, w: nat, p: nat)
    requires Inv(s) && Enabled(s, Die(w)) && s.workers[w].pc == StoreHigh && p < |s.shelves|
    ensures var k := s.workers[w];
            && Cell(Apply(s, Die(w)), p) == (if p == k.hi then Cell(s, k.lo) else Cell(s, p))
            && Cell(s, k.hi) == k.x
  {
    assert HoldsItsOwn(s, w) && SoundAt(s, w) && Accounted(s, MutexOf(s.program, p));
  }

  /** A death between the stores overwrites the upper shelf with a copy of the lower one. */
  lemma {:induction false} LossCopies(s: Shop, w: nat)
    requires Inv(s) && Enabled(s, Die(w)) && s.workers[w].pc == StoreHigh
    ensures View(Apply(s, Die(w))) == View(s)[s.workers[w].hi := View(s)[s.workers[w].lo]]
  {
    var k := s.workers[w];
    forall p | 0 <= p < |s.shelves|
      ensures View(Apply(s, Die(w)))[p] == View(s)[k.hi := View(s)[k.lo]][p]
    {
      CellOnLoss(s, w, p);
    }
  }

  lemma {:induction false} StepKeepsStock(s: Shop, a: Action)
    requires Inv(s) && Enabled(s, a) && !IsLoss(s, a)
    ensures multiset(View(Apply(s, a))) == multiset(View(s))
  {
    if IsCommit(s, a) {
      CommitSwapsView(s, a.w);
      SwapIsAPermutation(View(s), s.workers[a.w].lo, s.workers[a.w].hi);
    } else {
      QuietStepKeepsView(s, a);
    }
  }

  lemma {:induction false} LossFreeRunKeepsStock(s: Shop, run: seq<Action>)
    requires Inv(s) && Legal(s, run) && Losses(s, run) == 0
    ensures multiset(View(After(s, run))) == multiset(View(s))
    decreases |run|
  {
    if run != [] {
      StepKeepsInv(s, run[0]);
      StepKeepsStock(s, run[0]);
      LossFreeRunKeepsStock(Apply(s, run[0]), run[1..]);
    }
  }

  /** No step brings back a product that no shelf holds and no swap is carrying. */
  lemma {:induction false} StepKeepsMissing(s: Shop, a: Action, v: int)
    requires Inv(s) && Enabled(s, a) && v !in View(s)
    ensures v !in View(Apply(s, a))
  {
    if IsLoss(s, a) {
      LossCopies(s, a.w);
    } else {
      StepKeepsStock(s, a);
      assert v !in multiset(View(s));
      assert v !in multiset(View(Apply(s, a)));
    }
  }

  lemma {:induction false} RunKeepsMissing(s: Shop, run: seq<Action>, v: int)
    requires Inv(s) && Legal(s, run) && v !in View(s)
    ensures v !in View(After(s, run))
    decreases |run|
  {
    if run != [] {
      StepKeepsInv(s, run[0]);
      StepKeepsMissing(s, run[0], v);
      RunKeepsMissing(Apply(s, run[0]), run[1..], v);
    }
  }

  /** With distinct products, the first death between two stores loses a product for good. */
  lemma {:induction false} LossIsForGood(s: Shop, run: seq<Action>) returns (v: int)
    requires Inv(s) && Legal(s, run) && Losses(s, run) > 0 && Distinct(View(s))
    ensures v in View(s) && v !in View(After(s, run))
    decreases |run|
  {
    var t := Apply(s, run[0]);
    StepKeepsInv(s, run[0]);
    if IsLoss(s, run[0]) {
      var k := s.workers[run[0].w];
      LossCopies(s, run[0].w);
      v := View(s)[k.hi];
      RunKeepsMissing(t, run[1..], v);
    } else {
      StepKeepsStock(s, run[0]);
      DistinctByMultiset(View(s), View(t));
      v := LossIsForGood(t, run[1..]);
      assert v in multiset(View(t));
    }
  }

  /**
   In every run of either version, under any interleaving and any deaths: the shelves, with swaps in flight completed,
   hold exactly the original products if and only if no worker died between its two stores.
   */
  lemma {:induction false} StockKeptIffNoLoss(s: Shop, run: seq<Action>)
    requires Initial(s) && Legal(s, run)
    ensures multiset(View(After(s, run))) == multiset(Stock(|s.shelves|)) <==> Losses(s, run) == 0
  {
    InitialInv(s);
    ViewAtRest(s);
    if Losses(s, run) == 0 {
      LossFreeRunKeepsStock(s, run);
    } else {
      DistinctByMultiset(Stock(|s.shelves|), s.shelves);
      var v := LossIsForGood(s, run);
      assert v in multiset(s.shelves);
      assert v !in multiset(View(After(s, run)));
    }
  }

  /** Under the locks a committed swap strictly lowers the inversion count of the view. */
  lemma {:induction false} CommitLowersInversions(s: Shop, a: Action)
    requires Inv(s) && Enabled(s, a) && IsCommit(s, a) && s.program == CompareInside
    ensures Disorder(View(Apply(s, a))) < Disorder(View(s))
  {
    var k := s.workers[a.w];
    CommitSwapsView(s, a.w);
    assert HoldsItsOwn(s, a.w) && SoundAt(s, a.w);
    OrderingSwapLowers(View(s), k.lo, k.hi);
  }

  lemma {:induction false} StepAgainstInversions(s: Shop, a: Action)
    requires Inv(s) && Enabled(s, a) && s.program == CompareInside
    ensures 2 * Disorder(View(Apply(s, a))) + (if IsCommit(s, a) then 2 else 0)
         <= 2 * Disorder(View(s)) + (if IsLoss(s, a) then |s.shelves| * (|s.shelves| - 1) else 0)
  {
    if IsCommit(s, a) {
      CommitLowersInversions(s, a);
    } else if IsLoss(s, a) {
      InversionsBound(View(Apply(s, a)));
    } else {
      QuietStepKeepsView(s, a);
    }
  }

  /** In a run without such deaths every swap is paid for by an inversion. */
  lemma {:induction false} SwapsLowerInversions(s: Shop, run: seq<Action>)
    requires Inv(s) && Legal(s, run) && s.program == CompareInside && Losses(s, run) == 0
    ensures Commits(s, run) + Disorder(View(After(s, run))) <= Disorder(View(s))
    decreases |run|
  {
    if run != [] {
      StepKeepsInv(s, run[0]);
      StepAgainstInversions(s, run[0]);
      SwapsLowerInversions(Apply(s, run[0]), run[1..]);
    }
  }

  lemma {:induction false} SwapsAgainstInversions(s: Shop, run: seq<Action>, bound: nat)
    requires Inv(s) && Legal(s, run) && s.program == CompareInside && bound == |s.shelves| * (|s.shelves| - 1)
    ensures 2 * Commits(s, run) + 2 * Disorder(View(After(s, run)))
         <= 2 * Disorder(View(s)) + Losses(s, run) * bound
    decreases |run|
  {
    if run != [] {
      var t := Apply(s, run[0]);
      StepKeepsInv(s, run[0]);
      StepAgainstInversions(s, run[0]);
      SwapsAgainstInversions(t, run[1..], bound);
      Distribute(Losses(t, run[1..]), bound);
    }
  }

  lemma Distribute(k: nat, bound: nat)
    ensures (1 + k) * bound == bound + k * bound
  {}

  /** Any run makes at most N(N-1)/2 swaps, plus as many again for each death between two stores. */
  lemma {:induction false} SwapBudget(s: Shop, run: seq<Action>, bound: nat)
    requires Inv(s) && Legal(s, run) && s.program == CompareInside && bound == |s.shelves| * (|s.shelves| - 1)
    ensures 2 * Commits(s, run) <= bound + Losses(s, run) * bound
  {
    SwapsAgainstInversions(s, run, bound);
    InversionsBound(View(s));
  }
}
