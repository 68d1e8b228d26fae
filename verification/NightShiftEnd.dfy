/**
 How a shift ends, told from the schedule: when the run flag goes down, what is left to do then, who has left, which
 pair of shelves a swap is of, and how many rounds the ten-round version makes.
 */
module NightShiftEnd {
  import opened Sequences
  import opened NightShift
  import opened NightShiftSafety
  import opened NightShiftStock
  import opened NightShiftProgress
  import opened NightShiftManager

  lemma {:induction false} FlagFollowsStop(s: Shop, run: seq<Action>)
    requires Shaped(s) && Legal(s, run)
    ensures !After(s, run).run <==> !s.run || Stop in run
    ensures After(s, run).manager == Off <==> s.manager == Off || Stop in run
    decreases |run|
  {
    if run != [] {
      assert run == [run[0]] + run[1..];
      FlagFollowsStop(Apply(s, run[0]), run[1..]);
    }
  }

  /** The shift is over once the manager has cleared the flag, and not before. */
  lemma {:induction false} FlagIsDownIffStopped(s: Shop, run: seq<Action>)
    requires Initial(s) && s.program == CompareInside && Legal(s, run)
    ensures !After(s, run).run <==> Stop in run
    ensures After(s, run).manager == Off <==> Stop in run
  {
    FlagFollowsStop(s, run);
  }

  /** The flag is down: nobody draws shelves, and the manager does nothing more. */
  ghost predicate Closed(s: Shop) {
    Shaped(s) && s.program == CompareInside && !s.run && s.manager == Off
  }

  lemma {:induction false} ClosedStays(s: Shop, a: Action)
    requires Closed(s) && Enabled(s, a)
    ensures Closed(Apply(s, a)) && (a.Leave? || a.Advance? || a.Die?)
  {}

  /** The steps a worker still takes once the flag is down: the rest of its round, and leaving. */
  function Toil(k: Worker): nat {
    if k.pc == Exited || k.pc == Dead then 0 else RankInside(k.pc) + 1
  }

  function Toils(ks: seq<Worker>): (c: seq<int>)
    ensures |c| == |ks| && forall i :: 0 <= i < |c| ==> c[i] == Toil(ks[i])
  {
    seq(|ks|, i requires 0 <= i < |ks| => Toil(ks[i]))
  }

  lemma {:induction false} ClosedStepCounts(s: Shop, a: Action)
    requires Closed(s) && Enabled(s, a)
    ensures Sum(Toils(Apply(s, a).workers)) < Sum(Toils(s.workers))
  {
    ClosedStays(s, a);
    var k := Apply(s, a).workers[a.w];
    SumOfUpdate(Toils(s.workers), a.w, Toil(k));
    assert Toils(Apply(s, a).workers) == Toils(s.workers)[a.w := Toil(k)];
  }

  lemma {:induction false} ClosedRunIsShort(s: Shop, run: seq<Action>)
    requires Closed(s) && Legal(s, run)
    ensures Closed(After(s, run)) && |run| + Sum(Toils(After(s, run).workers)) <= Sum(Toils(s.workers))
    decreases |run|
  {
    if run != [] {
      ClosedStays(s, run[0]);
      ClosedStepCounts(s, run[0]);
      ClosedRunIsShort(Apply(s, run[0]), run[1..]);
    }
  }

  /** Nothing can happen any more but a death. */
  ghost predicate AtRest(s: Shop)
    requires Shaped(s)
  {
    forall a :: Enabled(s, a) ==> a.Die?
  }

  lemma {:induction false} NoRestForTheLiving(s: Shop, w: nat)
    requires Inv(s) && Live(s, w)
    ensures !AtRest(s)
  {
    var a, v := SomebodyCanWork(s, w);
    assert Enabled(s, a) && !a.Die?;
  }

  /**
   The end of the shift. Before the manager has cleared the flag nobody leaves. Afterwards nobody draws shelves, every
   further run is as short as the rounds under way at that moment, and where it rests every worker has left or died, no
   swap is in flight, and the shelves hold the stock if and only if nobody died between two stores.
   */
  lemma {:induction false} ClosedShiftEnds(s: Shop, run: seq<Action>, rest: seq<Action>)
    requires Initial(s) && s.program == CompareInside && Legal(s, run) && Legal(After(s, run), rest) && Stop in run
    ensures var t := After(s, run);
            && (forall w, i, j :: !Enabled(After(t, rest), Pick(w, i, j)))
            && |rest| <= Sum(Toils(t.workers)) <= 15 * |s.workers|
    ensures var u := After(After(s, run), rest);
            AtRest(u) ==>
              && (forall w :: 0 <= w < |s.workers| ==> u.workers[w].pc == Exited || u.workers[w].pc == Dead)
              && View(u) == u.shelves
              && (multiset(u.shelves) == multiset(Stock(|s.shelves|))
                  <==> Losses(s, run) + Losses(After(s, run), rest) == 0)
  {
    var t := After(s, run);
    var u := After(t, rest);
    FlagIsDownIffStopped(s, run);
    ClosedRunIsShort(t, rest);
    ToilsAreFew(t.workers);
    ToilsAreFew(u.workers);
    if AtRest(u) {
      InitialInv(s);
      RunKeepsInv(s, run);
      RunKeepsInv(t, rest);
      forall w | 0 <= w < |s.workers|
        ensures u.workers[w].pc == Exited || u.workers[w].pc == Dead
      {
        if Live(u, w) {
          NoRestForTheLiving(u, w);
        }
      }
      RunsCompose(s, run, rest);
      StockKeptIffNoLoss(s, run + rest);
      ViewAtRest(u);
    }
  }

  lemma {:induction false} ToilsAreFew(ks: seq<Worker>)
    ensures 0 <= Sum(Toils(ks)) <= 15 * |ks|
  {
    if ks != [] {
      assert Toils(ks)[1..] == Toils(ks[1..]);
      ToilsAreFew(ks[1..]);
    }
  }

  /** Whoever has left has left by its own step, and whoever is dead has been killed. */
  lemma {:induction false} OneStepIsTold(s: Shop, a: Action, w: nat)
    requires Shaped(s) && Enabled(s, a) && Live(s, w)
    ensures Apply(s, a).workers[w].pc == Exited <==> a == Leave(w)
    ensures Apply(s, a).workers[w].pc == Dead <==> a == Die(w)
  {}

  lemma {:induction false} GoneIffTold(s: Shop, run: seq<Action>, w: nat)
    requires Shaped(s) && Legal(s, run) && w < |s.workers| && Live(s, w)
    ensures After(s, run).workers[w].pc == Exited <==> Leave(w) in run
    ensures After(s, run).workers[w].pc == Dead <==> Die(w) in run
    decreases |run|
  {
    if run != [] {
      var t := Apply(s, run[0]);
      assert run == [run[0]] + run[1..];
      OneStepIsTold(s, run[0], w);
      if Live(t, w) {
        GoneIffTold(t, run[1..], w);
      } else {
        GoneStays(t, run[1..], w);
      }
    }
  }

  lemma {:induction false} GoneStays(s: Shop, run: seq<Action>, w: nat)
    requires Shaped(s) && Legal(s, run) && w < |s.workers| && !Live(s, w)
    ensures After(s, run).workers[w] == s.workers[w] && Leave(w) !in run && Die(w) !in run
    decreases |run|
  {
    if run != [] {
      assert run == [run[0]] + run[1..];
      GoneStays(Apply(s, run[0]), run[1..], w);
    }
  }

  /**
   A death leaves for recovery exactly the mutexes that the worker's place in its round says it holds, and those that
   were left before; all others stay free or held as they were.
   */
  lemma {:induction false} DeathLeavesItsLocks(s: Shop, w: nat, m: nat)
    requires Inv(s) && Enabled(s, Die(w)) && m < MAX_SHELVES
    ensures var p, k, t := s.program, s.workers[w], Apply(s, Die(w));
            var held := (HoldsLow(p, k.pc) && m == MutexOf(p, k.lo)) || (HoldsHigh(p, k.pc) && m == MutexOf(p, k.hi));
            t.mutexes[m] == if held then OwnerDied else s.mutexes[m]
  {
    assert HoldsItsOwn(s, w) && Accounted(s, m);
  }

  /** Before the flag is down nobody leaves. */
  lemma {:induction false} NobodyLeavesEarly(s: Shop, run: seq<Action>, w: nat)
    requires Shaped(s) && s.program == CompareInside && s.run && Legal(s, run) && Stop !in run && w < |s.workers|
    ensures Leave(w) !in run
    decreases |run|
  {
    if run != [] {
      assert run == [run[0]] + run[1..];
      NobodyLeavesEarly(Apply(s, run[0]), run[1..], w);
    }
  }

  /** The last pair of shelves that worker w draws in a schedule, or `before` if it draws none. */
  function LastDraw(before: (nat, nat), run: seq<Action>, w: nat): (nat, nat)
    decreases |run|
  {
    if run == [] then before
    else
      var now: (nat, nat) := if run[0].Pick? && run[0].w == w then (run[0].i, run[0].j) else before;
      LastDraw(now, run[1..], w)
  }

  lemma {:induction false} PairIsLastDraw(s: Shop, run: seq<Action>, w: nat)
    requires Shaped(s) && Legal(s, run) && w < |s.workers|
    ensures var k, l := s.workers[w], After(s, run).workers[w];
            (l.lo, l.hi) == LastDraw((k.lo, k.hi), run, w)
    decreases |run|
  {
    if run != [] {
      PairIsLastDraw(Apply(s, run[0]), run[1..], w);
    }
  }

  /** In either version a swap exchanges the two shelves that its worker has drawn last, and no others. */
  lemma {:induction false} SwapIsOfLastDraw(s: Shop, run: seq<Action>, w: nat)
    requires Initial(s) && Legal(s, run) && w < |s.workers|
    requires Enabled(After(s, run), Advance(w)) && IsCommit(After(s, run), Advance(w))
    ensures var t, k := After(s, run), s.workers[w];
            var (i, j) := LastDraw((k.lo, k.hi), run, w);
            i < j < |s.shelves| && View(Apply(t, Advance(w))) == Swap(View(t), i, j)
  {
    InitialInv(s);
    RunKeepsInv(s, run);
    PairIsLastDraw(s, run, w);
    CommitSwapsView(After(s, run), w);
  }

  /** How often worker w draws in a schedule. */
  function Draws(run: seq<Action>, w: nat): nat {
    if run == [] then 0 else (if run[0].Pick? && run[0].w == w then 1 else 0) + Draws(run[1..], w)
  }

  /** Rounds begun, in the ten-round version. */
  function Begun(k: Worker): int {
    ROUNDS - k.rounds + if Active(k.pc) then 1 else 0
  }

  /** Nobody is in a round that is none of its ten, or leaves before the last. */
  predicate CountsRounds(k: Worker) {
    k.pc != Dead && (Active(k.pc) ==> k.rounds > 0) && (k.pc == Exited ==> k.rounds == 0)
  }

  lemma {:induction false} OneDrawBegins(s: Shop, a: Action, w: nat)
    requires Shaped(s) && Enabled(s, a) && s.program == CompareBefore && w < |s.workers|
    requires CountsRounds(s.workers[w]) && a != Die(w)
    ensures var k := Apply(s, a).workers[w];
            CountsRounds(k) && Begun(k) == Begun(s.workers[w]) + if a.Pick? && a.w == w then 1 else 0
  {}

  lemma {:induction false} DrawsAreBegun(s: Shop, run: seq<Action>, w: nat)
    requires Shaped(s) && Legal(s, run) && s.program == CompareBefore && w < |s.workers|
    requires CountsRounds(s.workers[w]) && Die(w) !in run
    ensures var k := After(s, run).workers[w]; CountsRounds(k) && Begun(k) == Begun(s.workers[w]) + Draws(run, w)
    decreases |run|
  {
    if run != [] {
      assert run == [run[0]] + run[1..];
      OneDrawBegins(s, run[0], w);
      DrawsAreBegun(Apply(s, run[0]), run[1..], w);
    }
  }

  /** A worker of the ten-round version leaves after exactly ten rounds, and begins no more than ten if it does not. */
  lemma {:induction false} LeavesAfterTenRounds(s: Shop, run: seq<Action>, w: nat)
    requires Initial(s) && s.program == CompareBefore && Legal(s, run) && w < |s.workers| && Die(w) !in run
    ensures After(s, run).workers[w].pc == Exited ==> Draws(run, w) == ROUNDS
    ensures After(s, run).workers[w].pc == Idle ==> Draws(run, w) == ROUNDS - After(s, run).workers[w].rounds
  {
    DrawsAreBegun(s, run, w);
  }
}
