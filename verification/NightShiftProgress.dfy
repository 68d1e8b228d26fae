/** Progress of the night shift: no deadlock, unobstructed rounds, and the end of every ten-round shift. */
module NightShiftProgress {
  import opened Sequences
  import opened Inversions
  import opened NightShift
  import opened NightShiftSafety
  import opened NightShiftStock

  predicate Live(s: Shop, w: nat) {
    w < |s.workers| && s.workers[w].pc != Exited && s.workers[w].pc != Dead
  }

  /** A step of its program that worker w takes, as opposed to being killed. */
  predicate IsWork(a: Action, w: nat) {
    a == Leave(w) || a == Advance(w) || (a.Pick? && a.w == w)
  }

  /** The mutex a worker's next step needs, or one past all mutexes when it needs none. */
  function Wanted(s: Shop, w: nat): nat
    requires w < |s.workers|
  {
    var k := s.workers[w];
    if k.pc == WantLow then MutexOf(s.program, k.lo)
    else if k.pc == WantHigh then MutexOf(s.program, k.hi)
    else MAX_SHELVES
  }

  /**
   Of the workers in a round one can go on: the owner of a wanted mutex is in a round itself and wants, if anything, a
   higher one, and dead owners block nobody.
   */
  lemma {:induction false} SomebodyCanAdvance(s: Shop, w: nat) returns (v: nat)
    requires Inv(s) && w < |s.workers| && Active(s.workers[w].pc)
    ensures v < |s.workers| && Active(s.workers[v].pc) && Enabled(s, Advance(v))
    decreases MAX_SHELVES - Wanted(s, w)
  {
    v := w;
    var m := Wanted(s, w);
    if m < MAX_SHELVES && !Open(s.mutexes[m]) {
      assert Accounted(s, m);
      v := s.mutexes[m].owner;
      if Wanted(s, v) < MAX_SHELVES {
        v := SomebodyCanAdvance(s, v);
      }
    }
  }

  /** No deadlock: while one worker is alive, some live worker can take a step of its program. */
  lemma {:induction false} SomebodyCanWork(s: Shop, w: nat) returns (a: Action, v: nat)
    requires Inv(s) && Live(s, w)
    ensures Enabled(s, a) && Live(s, v) && IsWork(a, v)
  {
    var k := s.workers[w];
    if k.pc == Idle {
      var goOn := if s.program == CompareInside then s.run else k.rounds > 0;
      a, v := if goOn then Pick(w, 0, 1) else Leave(w), w;
    } else {
      v := SomebodyCanAdvance(s, w);
      a := Advance(v);
    }
  }

  /**
   In every state of every run with anybody left alive, somebody alive can go on: mutexes in index order never jam.
   */
  lemma {:induction false} NoRunDeadlocks(s: Shop, run: seq<Action>, w: nat) returns (a: Action, v: nat)
    requires Initial(s) && Legal(s, run) && Live(After(s, run), w)
    ensures Enabled(After(s, run), a) && Live(After(s, run), v) && IsWork(a, v)
  {
    InitialInv(s);
    RunKeepsInv(s, run);
    a, v := SomebodyCanWork(After(s, run), w);
  }

  /** Steps left in a round. */
  function Rank(pc: Pc): nat {
    match pc
    case WantLow => 9
    case WantHigh => 8
    case ReadLow => 11
    case ReadHigh => 10
    case LoadLow => 7
    case LoadHigh => 6
    case StoreLow => 5
    case StoreHigh => 4
    case DropLow => 3
    case DropHigh => 2
    case _ => 0
  }

  /** Steps left in a round of the version that compares inside the locks. */
  function RankInside(pc: Pc): nat {
    if pc == WantLow then 14 else if pc == WantHigh then 13 else Rank(pc)
  }

  /** The mutexes that worker w still has to take are open. */
  predicate Unobstructed(s: Shop, w: nat)
    requires Shaped(s) && w < |s.workers| && Active(s.workers[w].pc)
  {
    var k := s.workers[w];
    && (k.pc == WantLow ==> Open(s.mutexes[MutexOf(s.program, k.lo)]))
    && (k.pc == WantLow || k.pc == WantHigh ==> Open(s.mutexes[MutexOf(s.program, k.hi)]))
  }

  /** Nobody leaves and nobody is killed. */
  predicate WorkOnly(run: seq<Action>) {
    forall k :: 0 <= k < |run| ==> run[k].Pick? || run[k].Advance?
  }

  /** Worker w is before the first store of a swap, or before the comparison that leads to one. */
  predicate WillSwap(s: Shop, w: nat)
    requires Shaped(s) && w < |s.workers| && Active(s.workers[w].pc)
  {
    var k := s.workers[w];
    || k.pc == LoadLow || k.pc == LoadHigh || k.pc == StoreLow
    || (RankInside(k.pc) >= 10 && s.shelves[k.lo] > s.shelves[k.hi])
  }

  /** One step of a worker whose mutexes are open. */
  lemma {:induction false} StepsAlone(s: Shop, w: nat) returns (t: Shop)
    requires Inv(s) && s.program == CompareInside
    requires w < |s.workers| && Active(s.workers[w].pc) && Unobstructed(s, w)
    ensures Enabled(s, Advance(w)) && t == Apply(s, Advance(w)) && Inv(t)
    ensures t.workers[w].pc == Idle <==> s.workers[w].pc == DropHigh
    ensures t.workers[w].pc != Idle ==>
              Active(t.workers[w].pc) && Unobstructed(t, w) && RankInside(t.workers[w].pc) < RankInside(s.workers[w].pc)
    ensures WillSwap(s, w) ==> if s.workers[w].pc == StoreLow then RankInside(t.workers[w].pc) <= 4 else WillSwap(t, w)
  {
    assert HoldsItsOwn(s, w) && SoundAt(s, w);
    t := Apply(s, Advance(w));
    StepKeepsInv(s, Advance(w));
  }

  /**
   A worker whose mutexes are open finishes its round without anybody's help, and swaps if the pair is out of order.
   */
  lemma {:induction false} RoundRunsAlone(s: Shop, w: nat) returns (run: seq<Action>)
    requires Inv(s) && s.program == CompareInside
    requires w < |s.workers| && Active(s.workers[w].pc) && Unobstructed(s, w)
    ensures Legal(s, run) && After(s, run).workers[w].pc == Idle && Losses(s, run) == 0 && WorkOnly(run)
    ensures WillSwap(s, w) ==> Commits(s, run) == 1
    ensures RankInside(s.workers[w].pc) <= 4 ==> Commits(s, run) == 0
    decreases RankInside(s.workers[w].pc)
  {
    var t := StepsAlone(s, w);
    var rest := [];
    if t.workers[w].pc != Idle {
      rest := RoundRunsAlone(t, w);
    }
    run := [Advance(w)] + rest;
    assert run[1..] == rest;
  }

  /**
   Unsorted is never a resting place: with nobody in a round and the shift on, an idle worker can pick a pair whose
   swap brings the shelves closer to order.
   */
  lemma {:induction false} UnsortedCanImprove(s: Shop, w: nat) returns (run: seq<Action>)
    requires Inv(s) && s.program == CompareInside && s.run
    requires w < |s.workers| && s.workers[w].pc == Idle
    requires forall v :: 0 <= v < |s.workers| ==> !Active(s.workers[v].pc)
    requires !Sorted(s.shelves)
    ensures Legal(s, run) && WorkOnly(run) && Commits(s, run) == 1
    ensures Disorder(View(After(s, run))) < Disorder(s.shelves)
  {
    var i := UnsortedHasAdjacentPair(s.shelves);
    var a := Pick(w, i, i + 1);
    var t := Apply(s, a);
    assert Accounted(s, i) && Accounted(s, i + 1);
    StepKeepsInv(s, a);
    var rest := RoundRunsAlone(t, w);
    run := [a] + rest;
    assert run[1..] == rest;
    ViewAtRest(s);
    QuietStepKeepsView(s, a);
    SwapsLowerInversions(t, rest);
  }

  /** Upper bound on the steps a ten-round worker still takes. */
  function Cost(k: Worker): nat {
    if k.pc == Exited || k.pc == Dead then 0
    else if k.pc == Idle then 12 * k.rounds + 1
    else 12 * (if k.rounds > 0 then k.rounds - 1 else 0) + 1 + Rank(k.pc)
  }

  function Costs(ks: seq<Worker>): (c: seq<int>)
    ensures |c| == |ks| && forall i :: 0 <= i < |c| ==> c[i] == Cost(ks[i])
  {
    seq(|ks|, i requires 0 <= i < |ks| => Cost(ks[i]))
  }

  lemma {:induction false} StepCosts(s: Shop, a: Action)
    requires Inv(s) && Enabled(s, a) && s.program == CompareBefore && s.manager == Off
    ensures Sum(Costs(Apply(s, a).workers)) < Sum(Costs(s.workers)) && Apply(s, a).manager == Off
  {
    var t, w := Apply(s, a), a.w;
    assert Cost(t.workers[w]) < Cost(s.workers[w]);
    assert Costs(t.workers) == Costs(s.workers)[w := Cost(t.workers[w])];
    SumOfUpdate(Costs(s.workers), w, Cost(t.workers[w]));
  }

  lemma {:induction false} RunCosts(s: Shop, run: seq<Action>)
    requires Inv(s) && Legal(s, run) && s.program == CompareBefore && s.manager == Off
    ensures |run| + Sum(Costs(After(s, run).workers)) <= Sum(Costs(s.workers))
    decreases |run|
  {
    if run != [] {
      StepCosts(s, run[0]);
      StepKeepsInv(s, run[0]);
      RunCosts(Apply(s, run[0]), run[1..]);
    }
  }

  /** A state from which no worker takes another step of its program. */
  ghost predicate Over(s: Shop)
    requires Shaped(s)
  {
    forall w, a :: Live(s, w) && IsWork(a, w) ==> !Enabled(s, a)
  }

  /**
   The ten-round shift ends: every run has at most 121 steps per worker, it stops only when every worker has left or
   died, and what it leaves on the shelves is the original stock exactly when nobody died between two stores.
   */
  lemma {:induction false} TenRoundShiftEnds(s: Shop, run: seq<Action>)
    requires Initial(s) && Legal(s, run) && s.program == CompareBefore
    ensures |run| <= 121 * |s.workers|
    ensures Over(After(s, run)) ==>
              var t := After(s, run);
              && (forall w :: 0 <= w < |t.workers| ==> !Live(t, w))
              && (multiset(t.shelves) == multiset(Stock(|s.shelves|)) <==> Losses(s, run) == 0)
  {
    var t := After(s, run);
    InitialInv(s);
    RunKeepsInv(s, run);
    RunCosts(s, run);
    SumOfConstant(Costs(s.workers), 121);
    SumIsNonNegative(Costs(t.workers));
    if Over(t) {
      forall w | 0 <= w < |t.workers|
        ensures !Live(t, w)
      {
        if Live(t, w) {
          var a, v := SomebodyCanWork(t, w);
        }
      }
      assert forall w :: 0 <= w < |t.workers| && t.workers[w].pc == StoreHigh ==> Live(t, w);
      ViewAtRest(t);
      StockKeptIffNoLoss(s, run);
    }
  }

  /**
   What a committed swap does to the order in either version: it lowers the inversion count exactly when the two
   shelves are still out of order at that moment, which only the comparison inside the locks guarantees.
   */
  lemma {:induction false} CommitLowersIffOutOfOrder(s: Shop, a: Action)
    requires Inv(s) && Enabled(s, a) && IsCommit(s, a)
    ensures var k := s.workers[a.w];
            Disorder(View(Apply(s, a))) < Disorder(View(s)) <==> s.shelves[k.lo] > s.shelves[k.hi]
  {
    var k := s.workers[a.w];
    CommitSwapsView(s, a.w);
    assert HoldsItsOwn(s, a.w) && SoundAt(s, a.w);
    if s.shelves[k.lo] > s.shelves[k.hi] {
      OrderingSwapLowers(View(s), k.lo, k.hi);
    } else if s.shelves[k.lo] < s.shelves[k.hi] {
      DisorderingSwapRaises(View(s), k.lo, k.hi);
    } else {
      assert Swap(View(s), k.lo, k.hi) == View(s);
    }
  }
}
