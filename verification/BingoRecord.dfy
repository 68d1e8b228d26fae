/**
 What a schedule makes of the numbers drawn and of the children created: every number drawn reaches the children once
 and in order, and every child reports what its life, its number and the numbers it took make it report.
 */
module BingoRecord {
  import opened Sequences
  import opened Bingo
  import opened BingoSafety

  /** The number that the parent draws in this step, if it still counts a child. */
  function DrawnNow(g: Game, a: Action): seq<nat> {
    if a.Run? && g.main == Checking && g.childrenLeft != 0 then [a.m] else []
  }

  /** The number that a child takes in this step. */
  function EatenNow(g: Game, a: Action): seq<nat>
    requires Enabled(g, a)
  {
    if a.Eat? then [g.numbers[0]] else []
  }

  function Drawn(g: Game, run: seq<Action>): seq<nat>
    requires Legal(g, run)
    decreases |run|
  {
    if run == [] then [] else DrawnNow(g, run[0]) + Drawn(Apply(g, run[0]), run[1..])
  }

  function Eaten(g: Game, run: seq<Action>): seq<nat>
    requires Legal(g, run)
    decreases |run|
  {
    if run == [] then [] else EatenNow(g, run[0]) + Eaten(Apply(g, run[0]), run[1..])
  }

  /** The number about to be sent. */
  function About(g: Game): seq<nat> {
    if g.main.Sending? then [g.main.m] else []
  }

  lemma {:induction false} NumberPassesOn(g: Game, a: Action)
    requires Enabled(g, a)
    ensures (g.numbers + About(g)) + DrawnNow(g, a) == EatenNow(g, a) + (Apply(g, a).numbers + About(Apply(g, a)))
  {
    if a.Eat? {
      assert g.numbers == [g.numbers[0]] + g.numbers[1..];
    }
  }

  lemma {:induction false} NumbersPassOn(g: Game, run: seq<Action>)
    requires Legal(g, run)
    ensures (g.numbers + About(g)) + Drawn(g, run) == Eaten(g, run) + (After(g, run).numbers + About(After(g, run)))
    decreases |run|
  {
    if run != [] {
      var t, u := Apply(g, run[0]), After(g, run);
      NumberPassesOn(g, run[0]);
      NumbersPassOn(t, run[1..]);
      PassOnTwice(g.numbers + About(g), DrawnNow(g, run[0]), EatenNow(g, run[0]), t.numbers + About(t),
                  Drawn(t, run[1..]), Eaten(t, run[1..]), u.numbers + About(u));
    }
  }

  /**
   The broadcast. In every state of every run the numbers taken by the children, in order, followed by those queued and
   the one about to be sent, are exactly the numbers that the parent has drawn while it counted a child, in order.
   */
  lemma {:induction false} NumbersAreBroadcast(n: nat, inCapacity: nat, outCapacity: nat, run: seq<Action>)
    requires Legal(Opening(n, inCapacity, outCapacity), run)
    ensures var g := Opening(n, inCapacity, outCapacity);
            var t := After(g, run);
            Eaten(g, run) + t.numbers + About(t) == Drawn(g, run)
  {
    var g := Opening(n, inCapacity, outCapacity);
    var t := After(g, run);
    NumbersPassOn(g, run);
    assert (g.numbers + About(g)) + Drawn(g, run) == Drawn(g, run);
    assert Eaten(g, run) + (t.numbers + About(t)) == Eaten(g, run) + t.numbers + About(t);
  }

  /** The numbers that child i takes, in order. */
  function EatenBy(g: Game, run: seq<Action>, i: nat): seq<nat>
    requires Legal(g, run)
    decreases |run|
  {
    if run == [] then []
    else EatenNowBy(g, run[0], i) + EatenBy(Apply(g, run[0]), run[1..], i)
  }

  /** Lives and numbers of the children in the order of their creation, which is from the last to the first. */
  function Forks(run: seq<Action>): seq<(nat, nat)> {
    if run == [] then [] else ForkNow(run[0]) + Forks(run[1..])
  }

  function ForkNow(a: Action): seq<(nat, nat)> {
    if a.Fork? then [(a.life, a.number)] else []
  }

  /**
   What child i is, having been created with that life and that number and having taken the numbers ms: still hungry,
   with the lives left and without its number; or with its bingo to report, or having reported it, as soon as it has
   taken its number; or with its own index, its whole life over without.
   */
  predicate LivesBy(c: Child, i: nat, life: nat, number: nat, ms: seq<nat>) {
    match c
    case Unborn => false
    case Hungry(l, k) => k == number && l > 0 && |ms| + l == life && number !in ms
    case _ =>
      && 1 <= |ms| <= life && number !in ms[..|ms| - 1]
      && if ms[|ms| - 1] == number then c.report == Report(true, number)
         else |ms| == life && c.report == Report(false, i + 1)
  }

  /** What child i takes in this step. */
  function EatenNowBy(g: Game, a: Action, i: nat): seq<nat>
    requires Enabled(g, a)
  {
    if a == Eat(i) then EatenNow(g, a) else []
  }

  /** A child that takes one number more. */
  lemma {:induction false} MealLivesOn(c: Child, i: nat, life: nat, number: nat, ms: seq<nat>, m: nat)
    requires c.Hungry? && LivesBy(c, i, life, number, ms)
    ensures LivesBy(Fed(c, i, m), i, life, number, ms + [m])
  {
    assert (ms + [m])[..|ms|] == ms;
  }

  /** In every other step a child stays as it is, or goes on with the same report. */
  predicate SameWord(c: Child, d: Child) {
    d == c || (!c.Unborn? && !c.Hungry? && !d.Unborn? && !d.Hungry? && d.report == c.report)
  }

  lemma {:induction false} WordLivesOn(c: Child, d: Child, i: nat, life: nat, number: nat, ms: seq<nat>)
    requires SameWord(c, d) && LivesBy(c, i, life, number, ms)
    ensures LivesBy(d, i, life, number, ms)
  {}

  lemma {:induction false} StepKeepsWord(g: Game, a: Action, i: nat)
    requires Enabled(g, a) && Due(g) <= i < |g.children|
    ensures Due(Apply(g, a)) <= i
    ensures if a == Eat(i) then g.children[i].Hungry? && Apply(g, a).children[i] == Fed(g.children[i], i, g.numbers[0])
            else SameWord(g.children[i], Apply(g, a).children[i])
  {}

  lemma {:induction false} StepLivesOn(g: Game, a: Action, i: nat, life: nat, number: nat, ms: seq<nat>)
    requires Enabled(g, a) && Due(g) <= i < |g.children| && LivesBy(g.children[i], i, life, number, ms)
    ensures Due(Apply(g, a)) <= i
    ensures LivesBy(Apply(g, a).children[i], i, life, number, ms + EatenNowBy(g, a, i))
  {
    StepKeepsWord(g, a, i);
    if a == Eat(i) {
      MealLivesOn(g.children[i], i, life, number, ms, g.numbers[0]);
    } else {
      assert ms + [] == ms;
      WordLivesOn(g.children[i], Apply(g, a).children[i], i, life, number, ms);
    }
  }

  lemma {:induction false} Regroup(ms: seq<nat>, now: seq<nat>, rest: seq<nat>)
    ensures (ms + now) + rest == ms + (now + rest)
  {}

  lemma {:induction false} LivesOn(g: Game, run: seq<Action>, i: nat, life: nat, number: nat, ms: seq<nat>,
                                   all: seq<nat>)
    requires Legal(g, run) && Due(g) <= i < |g.children| && LivesBy(g.children[i], i, life, number, ms)
    requires all == ms + EatenBy(g, run, i)
    ensures LivesBy(After(g, run).children[i], i, life, number, all)
    decreases |run|
  {
    if run == [] {
      assert all == ms;
    } else {
      var t, now := Apply(g, run[0]), EatenNowBy(g, run[0], i);
      StepLivesOn(g, run[0], i, life, number, ms);
      Regroup(ms, now, EatenBy(t, run[1..], i));
      LivesOn(t, run[1..], i, life, number, ms + now, all);
    }
  }

  /** Until its turn to be created comes nothing happens to a child. */
  lemma {:induction false} StepBeforeBirth(g: Game, a: Action, i: nat)
    requires Enabled(g, a) && i < Due(g) && i < |g.children| && g.children[i] == Unborn
    ensures a != Eat(i) && Due(Apply(g, a)) == Due(g) - (if a.Fork? then 1 else 0)
    ensures if a.Fork? && i == Due(g) - 1 then Apply(g, a).children[i] == Hungry(a.life, a.number) && a.life > 0
            else Apply(g, a).children[i] == Unborn
  {}

  /** Child i is what the k-th creation and the numbers it has taken make it; or unborn, if there have been fewer. */
  predicate BornAs(c: Child, i: nat, k: nat, forks: seq<(nat, nat)>, ms: seq<nat>) {
    if k >= |forks| then c == Unborn && ms == [] else LivesBy(c, i, forks[k].0, forks[k].1, ms)
  }

  lemma {:induction false} EatenByNext(g: Game, run: seq<Action>, i: nat)
    requires Legal(g, run) && run != [] && run[0] != Eat(i)
    ensures EatenBy(g, run, i) == EatenBy(Apply(g, run[0]), run[1..], i)
  {}

  /** The child whose turn it is. */
  lemma {:induction false} BornNow(g: Game, run: seq<Action>, i: nat, c: Child, forks: seq<(nat, nat)>, ms: seq<nat>)
    requires Legal(g, run) && run != [] && run[0].Fork?
    requires i == Due(g) - 1 && i < |g.children| && g.children[i] == Unborn
    requires c == After(g, run).children[i] && forks == Forks(run) && ms == EatenBy(g, run, i)
    ensures BornAs(c, i, 0, forks, ms)
  {
    var a, t := run[0], Apply(g, run[0]);
    StepBeforeBirth(g, a, i);
    EatenByNext(g, run, i);
    LivesOn(t, run[1..], i, a.life, a.number, [], ms);
  }

  /** The child whose turn is not yet: one creation more, or none, comes before it. */
  lemma {:induction false} BornAfter(c: Child, i: nat, k: nat, a: Action, forks: seq<(nat, nat)>, ms: seq<nat>)
    requires a.Fork? ==> k > 0
    requires BornAs(c, i, if a.Fork? then k - 1 else k, forks, ms)
    ensures BornAs(c, i, k, ForkNow(a) + forks, ms)
  {}

  lemma {:induction false} BornInTurn(g: Game, run: seq<Action>, i: nat, k: nat, c: Child, forks: seq<(nat, nat)>,
                                      ms: seq<nat>)
    requires Legal(g, run) && k == Due(g) - 1 - i && i < |g.children| && g.children[i] == Unborn
    requires c == After(g, run).children[i] && forks == Forks(run) && ms == EatenBy(g, run, i)
    ensures BornAs(c, i, k, forks, ms)
    decreases |run|
  {
    if run != [] {
      var a, t := run[0], Apply(g, run[0]);
      StepBeforeBirth(g, a, i);
      if a.Fork? && k == 0 {
        BornNow(g, run, i, c, forks, ms);
      } else {
        EatenByNext(g, run, i);
        BornInTurn(t, run[1..], i, if a.Fork? then k - 1 else k, c, Forks(run[1..]), ms);
        BornAfter(c, i, k, a, Forks(run[1..]), ms);
      }
    }
  }

  /**
   The children. In every state of every run child i, of n, is unborn until n - i children have been created, and is
   then what the life and the number it was created with and the numbers it has taken make it: in particular it reports
   its number as a bingo exactly when that is the last it has taken, and else its index after exactly its whole life.
   */
  lemma {:induction false} ChildrenTellTheTruth(n: nat, inCapacity: nat, outCapacity: nat, run: seq<Action>, i: nat)
    requires Legal(Opening(n, inCapacity, outCapacity), run) && i < n
    ensures var g := Opening(n, inCapacity, outCapacity);
            BornAs(After(g, run).children[i], i, n - 1 - i, Forks(run), EatenBy(g, run, i))
  {
    var g := Opening(n, inCapacity, outCapacity);
    assert Due(g) == n && g.children[i] == Unborn;
    BornInTurn(g, run, i, n - 1 - i, After(g, run).children[i], Forks(run), EatenBy(g, run, i));
  }
}
