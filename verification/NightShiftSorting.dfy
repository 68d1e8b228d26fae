/** As long as the shift is on and somebody is alive, the shelves can still be sorted, whatever has happened before. */
module NightShiftSorting {
  import opened Sequences
  import opened Inversions
  import opened NightShift
  import opened NightShiftSafety
  import opened NightShiftStock
  import opened NightShiftProgress
  import opened NightShiftManager

  /** Nobody is in a round, and so no swap is in flight. */
  predicate AllResting(s: Shop) {
    forall w :: 0 <= w < |s.workers| ==> !Active(s.workers[w].pc)
  }

  function Ranks(ks: seq<Worker>): (c: seq<int>)
    ensures |c| == |ks| && forall i :: 0 <= i < |c| ==> c[i] == RankInside(ks[i].pc)
  {
    seq(|ks|, i requires 0 <= i < |ks| => RankInside(ks[i].pc))
  }

  /** A step in a round brings the round nearer to its end. */
  lemma {:induction false} AdvanceLowersRanks(s: Shop, w: nat)
    requires Shaped(s) && s.program == CompareInside && Enabled(s, Advance(w))
    ensures Sum(Ranks(Apply(s, Advance(w)).workers)) < Sum(Ranks(s.workers))
  {
    var t := Apply(s, Advance(w));
    SumOfUpdate(Ranks(s.workers), w, RankInside(t.workers[w].pc));
    assert Ranks(t.workers) == Ranks(s.workers)[w := RankInside(t.workers[w].pc)];
  }

  /** All rounds under way can be finished. */
  lemma {:induction false} RoundsCanEnd(s: Shop) returns (run: seq<Action>)
    requires Inv(s) && s.program == CompareInside
    ensures Legal(s, run) && WorkOnly(run) && AllResting(After(s, run))
    decreases Sum(Ranks(s.workers))
  {
    run := [];
    if w :| 0 <= w < |s.workers| && Active(s.workers[w].pc) {
      var v := SomebodyCanAdvance(s, w);
      var t := Apply(s, Advance(v));
      SumIsNonNegative(Ranks(s.workers));
      AdvanceLowersRanks(s, v);
      StepKeepsInv(s, Advance(v));
      var rest := RoundsCanEnd(t);
      run := [Advance(v)] + rest;
      assert run[1..] == rest;
    }
  }

  lemma {:induction false} WorkKeepsLife(s: Shop, run: seq<Action>, w: nat)
    requires Shaped(s) && Legal(s, run) && WorkOnly(run) && Live(s, w)
    ensures After(s, run).run == s.run && Live(After(s, run), w) && Losses(s, run) == 0
    decreases |run|
  {
    if run != [] {
      assert run[0].Pick? || run[0].Advance?;
      WorkKeepsLife(Apply(s, run[0]), run[1..], w);
    }
  }

  lemma {:induction false} BothWorkOnly(first: seq<Action>, second: seq<Action>)
    requires WorkOnly(first) && WorkOnly(second)
    ensures WorkOnly(first + second)
  {}

  /** One swap that helps, and everybody at rest again. */
  lemma {:induction false} CanComeCloser(s: Shop, w: nat) returns (run: seq<Action>)
    requires Inv(s) && s.program == CompareInside && s.run && Live(s, w) && AllResting(s) && !Sorted(s.shelves)
    ensures Legal(s, run) && WorkOnly(run) && AllResting(After(s, run))
    ensures Disorder(After(s, run).shelves) < Disorder(s.shelves)
  {
    var round := UnsortedCanImprove(s, w);
    var t := After(s, round);
    RunKeepsInv(s, round);
    WorkKeepsLife(s, round, w);
    var rest := RoundsCanEnd(t);
    WorkKeepsLife(t, rest, w);
    SwapsLowerInversions(t, rest);
    run := round + rest;
    RunsCompose(s, round, rest);
    BothWorkOnly(round, rest);
    ViewAtRest(After(s, run));
  }

  lemma {:induction false} CanBeSortedFromRest(s: Shop, w: nat) returns (run: seq<Action>)
    requires Inv(s) && s.program == CompareInside && s.run && Live(s, w) && AllResting(s)
    ensures Legal(s, run) && WorkOnly(run) && AllResting(After(s, run)) && Sorted(After(s, run).shelves)
    decreases Disorder(s.shelves)
  {
    run := [];
    if !Sorted(s.shelves) {
      var first := CanComeCloser(s, w);
      var t := After(s, first);
      RunKeepsInv(s, first);
      WorkKeepsLife(s, first, w);
      var rest := CanBeSortedFromRest(t, w);
      run := first + rest;
      RunsCompose(s, first, rest);
      BothWorkOnly(first, rest);
    }
  }

  /**
   From any state of a shift that is on, with any swaps in flight, any mutexes held, and any workers dead but one, some
   continuation without further deaths ends with sorted shelves and nobody in a round.
   */
  lemma {:induction false} CanAlwaysBeSorted(s: Shop, w: nat) returns (run: seq<Action>)
    requires Inv(s) && s.program == CompareInside && s.run && Live(s, w)
    ensures Legal(s, run) && Losses(s, run) == 0
    ensures Sorted(After(s, run).shelves) && AllResting(After(s, run)) && NoSwapInFlight(After(s, run))
  {
    var first := RoundsCanEnd(s);
    var t := After(s, first);
    RunKeepsInv(s, first);
    WorkKeepsLife(s, first, w);
    var rest := CanBeSortedFromRest(t, w);
    WorkKeepsLife(t, rest, w);
    run := first + rest;
    RunsCompose(s, first, rest);
  }
}
