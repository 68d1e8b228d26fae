/** No notification is lost, no report is lost or printed twice, and every child is accounted for. */
module BingoSafety {
  import opened Sequences
  import opened Bingo

  /** Before the parent's first registration is behind it. */
  predicate Setup(g: Game) {
    g.main.Forking? || g.main.Loading? || g.main.Storing? || g.main.Registering?
  }

  /** Children still to be forked. */
  function Due(g: Game): int {
    match g.main
    case Forking(k) => k
    case Loading(k) => k - 1
    case Storing(k, _) => k - 1
    case _ => 0
  }

  predicate Spoke(c: Child) {
    c.Told? || c.Zombie? || c.Reaped?
  }

  /** A child that exists and has not been reaped. */
  predicate Alive(c: Child) {
    !c.Unborn? && !c.Reaped?
  }

  function Living(cs: seq<Child>): (b: seq<int>)
    ensures |b| == |cs| && forall i :: 0 <= i < |b| ==> b[i] == Bit(Alive(cs[i]))
  {
    seq(|cs|, i requires 0 <= i < |cs| => Bit(Alive(cs[i])))
  }

  function Speakers(cs: seq<Child>): (b: seq<int>)
    ensures |b| == |cs| && forall i :: 0 <= i < |b| ==> b[i] == Bit(Spoke(cs[i]))
  {
    seq(|cs|, i requires 0 <= i < |cs| => Bit(Spoke(cs[i])))
  }

  function Word(c: Child): multiset<Report> {
    if Spoke(c) then multiset{c.report} else multiset{}
  }

  /** Everything the children have reported. */
  function Said(cs: seq<Child>): multiset<Report> {
    if cs == [] then multiset{} else Word(cs[0]) + Said(cs[1..])
  }

  lemma {:induction false} SaidUnchanged(cs: seq<Child>, i: nat, c: Child)
    requires i < |cs| && Word(c) == Word(cs[i])
    ensures Said(cs[i := c]) == Said(cs)
  {
    if i == 0 {
      assert cs[0 := c][1..] == cs[1..];
    } else {
      assert cs[i := c][1..] == cs[1..][i - 1 := c];
      SaidUnchanged(cs[1..], i - 1, c);
    }
  }

  lemma {:induction false} SaidGrows(cs: seq<Child>, i: nat, c: Child)
    requires i < |cs| && Word(cs[i]) == multiset{}
    ensures Said(cs[i := c]) == Said(cs) + Word(c)
  {
    if i == 0 {
      assert cs[0 := c][1..] == cs[1..];
    } else {
      assert cs[i := c][1..] == cs[1..][i - 1 := c];
      SaidGrows(cs[1..], i - 1, c);
    }
  }

  lemma {:induction false} InsertAdds(q: seq<Report>, r: Report)
    ensures multiset(Insert(q, r)) == multiset(q) + multiset{r}
  {
    if !(q == [] || (r.bingo && !q[0].bingo)) {
      InsertAdds(q[1..], r);
      assert q == [q[0]] + q[1..];
    }
  }

  /** The reports of one priority, in queue order. */
  function OfPriority(q: seq<Report>, bingo: bool): seq<Report> {
    if q == [] then [] else (if q[0].bingo == bingo then [q[0]] else []) + OfPriority(q[1..], bingo)
  }

  /** All bingos come before all time-outs. */
  ghost predicate Prioritised(q: seq<Report>) {
    forall i, j :: 0 <= i < j < |q| && q[j].bingo ==> q[i].bingo
  }

  lemma {:induction false} NoBingos(q: seq<Report>)
    requires forall i :: 0 <= i < |q| ==> !q[i].bingo
    ensures OfPriority(q, true) == []
  {
    if q != [] {
      NoBingos(q[1..]);
    }
  }

  /** A queue in priority order stays so, and a report goes behind the others of its priority. */
  lemma {:induction false} InsertIsFair(q: seq<Report>, r: Report, bingo: bool)
    requires Prioritised(q)
    ensures Prioritised(Insert(q, r))
    ensures OfPriority(Insert(q, r), bingo) == OfPriority(q, bingo) + if r.bingo == bingo then [r] else []
  {
    if q == [] || (r.bingo && !q[0].bingo) {
      assert r.bingo && q != [] ==> forall i :: 0 <= i < |q| ==> !q[i].bingo;
      if r.bingo {
        NoBingos(q);
      }
      assert ([r] + q)[1..] == q;
    } else {
      InsertIsFair(q[1..], r, bingo);
    }
  }

  /** At most one handler of each kind. */
  ghost predicate Nested(h: seq<Frame>) {
    forall i, j :: 0 <= i < j < |h| ==> (h[i] == Reaping) != (h[j] == Reaping)
  }

  /** While children are being created nothing else has happened. */
  ghost predicate Calm(g: Game) {
    && g.reports == [] && g.numbers == [] && g.printed == [] && g.handlers == []
    && !g.registered && g.notices == 0 && !g.childSignal
    && forall i :: 0 <= i < |g.children| ==> g.children[i].Unborn? || g.children[i].Hungry?
  }

  ghost predicate Creation(g: Game) {
    && 0 <= Due(g) <= |g.children|
    && (g.main.Storing? ==> g.main.v == g.childrenLeft)
    && (forall i :: 0 <= i < |g.children| ==> (g.children[i].Unborn? <==> i < Due(g)))
    && (forall i :: 0 <= i < |g.children| && g.children[i].Hungry? ==> g.children[i].life > 0)
    && (Setup(g) ==> Calm(g))
  }

  /** The parent's count is the number of children created, counted and not reaped. */
  ghost predicate Counted(g: Game) {
    && g.childrenLeft + Bit(g.main.Loading? || g.main.Storing?) == Sum(Living(g.children))
    && (g.main == Finished ==> g.childrenLeft == 0 && g.handlers == [])
    && ((exists i :: 0 <= i < |g.children| && g.children[i].Zombie?) ==> g.childSignal || InReaping(g))
  }

  /** Exactly one of: registered, a notification pending, the handler about to register again. */
  ghost predicate OneNotice(g: Game) {
    && (!Setup(g) ==> Bit(g.registered) + g.notices + Bit(Entering in g.handlers) == 1)
    && (g.reports != [] ==> g.notices > 0 || InNotice(g))
  }

  /** What has been reported is printed or still queued. */
  ghost predicate Conserved(g: Game) {
    && multiset(g.printed) + multiset(g.reports) == Said(g.children)
    && |g.printed| + |g.reports| == Sum(Speakers(g.children))
  }

  ghost predicate Inv(g: Game) {
    !g.failed && Nested(g.handlers) && Creation(g) && Counted(g) && OneNotice(g) && Conserved(g)
  }

  lemma {:induction false} SilenceSaysNothing(cs: seq<Child>)
    requires forall i :: 0 <= i < |cs| ==> !Spoke(cs[i])
    ensures Said(cs) == multiset{}
  {
    if cs != [] {
      SilenceSaysNothing(cs[1..]);
    }
  }

  lemma {:induction false} OpeningInv(n: nat, inCapacity: nat, outCapacity: nat)
    ensures Inv(Opening(n, inCapacity, outCapacity))
  {
    var g := Opening(n, inCapacity, outCapacity);
    SumOfConstant(Living(g.children), 0);
    SumOfConstant(Speakers(g.children), 0);
    SilenceSaysNothing(g.children);
  }

  lemma {:induction false} LivingChange(cs: seq<Child>, i: nat, c: Child)
    requires i < |cs|
    ensures Sum(Living(cs[i := c])) == Sum(Living(cs)) - Bit(Alive(cs[i])) + Bit(Alive(c))
  {
    SumOfUpdate(Living(cs), i, Bit(Alive(c)));
    assert Living(cs[i := c]) == Living(cs)[i := Bit(Alive(c))];
  }

  lemma {:induction false} SpeakersChange(cs: seq<Child>, i: nat, c: Child)
    requires i < |cs|
    ensures Sum(Speakers(cs[i := c])) == Sum(Speakers(cs)) - Bit(Spoke(cs[i])) + Bit(Spoke(c))
  {
    SumOfUpdate(Speakers(cs), i, Bit(Spoke(c)));
    assert Speakers(cs[i := c]) == Speakers(cs)[i := Bit(Spoke(c))];
  }

  /** The child a step concerns, and what it becomes. */
  function Concerned(g: Game, a: Action): (r: (nat, Child))
    requires Enabled(g, a) && (a.Fork? || a.Reap? || a.Eat? || a.Tell? || a.Exit?)
    ensures r.0 < |g.children|
  {
    match a
    case Fork(life, number) => (g.main.k - 1, Hungry(life, number))
    case Reap(i) => (i, Reaped(g.children[i].report))
    case Eat(i) => (i, Fed(g.children[i], i, g.numbers[0]))
    case Tell(i) => (i, Told(g.children[i].report))
    case Exit(i) => (i, Zombie(g.children[i].report))
  }

  /** The steps that leave all children as they are. */
  predicate KeepsChildren(a: Action) {
    a.Run? || a.DeliverNotice? || a.DeliverChildSignal? || a.Handle?
  }

  lemma {:induction false} NestedKept(g: Game, a: Action)
    requires Nested(g.handlers) && Enabled(g, a)
    ensures Nested(Apply(g, a).handlers)
  {
    if a == Handle && Innermost(g) == Entering {
      var n := |g.handlers| - 1;
      assert g.handlers[n] == Entering;
    }
  }

  lemma {:induction false} CreationKept(g: Game, a: Action)
    requires Creation(g) && Enabled(g, a) && !Apply(g, a).failed
    ensures Creation(Apply(g, a))
  {
    assert Setup(g) ==> Calm(g);
    if !KeepsChildren(a) {
      var (i, c) := Concerned(g, a);
      assert Apply(g, a).children == g.children[i := c];
    } else {
      assert Apply(g, a).children == g.children;
    }
  }

  lemma {:induction false} CountedKeptByHandler(g: Game)
    requires Counted(g) && Creation(g) && Enabled(g, Handle)
    ensures Counted(Apply(g, Handle))
  {
    var n := |g.handlers| - 1;
    assert g.handlers == g.handlers[..n] + [g.handlers[n]];
    assert Apply(g, Handle).children == g.children && Apply(g, Handle).main == g.main;
  }

  lemma {:induction false} CountedKeptByParent(g: Game, a: Action)
    requires Counted(g) && Creation(g) && Enabled(g, a) && !Apply(g, a).failed && KeepsChildren(a)
    ensures Counted(Apply(g, a))
  {
    if a == Handle {
      CountedKeptByHandler(g);
    } else {
      ParentSaysNothing(g, a);
    }
  }

  lemma {:induction false} CountedKeptByChildren(g: Game, a: Action)
    requires Counted(g) && Creation(g) && Enabled(g, a) && !Apply(g, a).failed && !KeepsChildren(a)
    ensures Counted(Apply(g, a))
  {
    var h := Apply(g, a);
    var (i, c) := Concerned(g, a);
    LivingChange(g.children, i, c);
    assert h.children == g.children[i := c];
    if k :| 0 <= k < |h.children| && h.children[k].Zombie? {
      assert k == i || g.children[k].Zombie?;
    }
  }

  lemma {:induction false} OneNoticeKept(g: Game, a: Action)
    requires OneNotice(g) && Creation(g) && Nested(g.handlers) && Enabled(g, a)
    ensures Apply(g, a).failed ==> a.Tell? && |g.reports| >= g.inCapacity
    ensures !Apply(g, a).failed ==> OneNotice(Apply(g, a))
  {
    assert Setup(g) ==> Calm(g);
  }

  lemma {:induction false} HeadMoves(p: seq<Report>, q: seq<Report>)
    requires q != []
    ensures multiset(p + [q[0]]) + multiset(q[1..]) == multiset(p) + multiset(q)
  {
    assert q == [q[0]] + q[1..];
  }

  lemma {:induction false} ConservedByPrinting(g: Game)
    requires Conserved(g) && Enabled(g, Handle) && Innermost(g) == Draining && g.reports != []
    ensures Conserved(Apply(g, Handle))
  {
    HeadMoves(g.printed, g.reports);
    var h := Apply(g, Handle);
    assert h.printed == g.printed + [g.reports[0]] && h.reports == g.reports[1..] && h.children == g.children;
  }

  lemma {:induction false} ParentSaysNothing(g: Game, a: Action)
    requires Enabled(g, a) && KeepsChildren(a) && !(a == Handle && Innermost(g) == Draining && g.reports != [])
    ensures var h := Apply(g, a);
            h.printed == g.printed && h.reports == g.reports && h.children == g.children
  {}

  lemma {:induction false} ConservedByParent(g: Game, a: Action)
    requires Conserved(g) && Enabled(g, a) && KeepsChildren(a)
    ensures Conserved(Apply(g, a))
  {
    if a == Handle && Innermost(g) == Draining && g.reports != [] {
      ConservedByPrinting(g);
    } else {
      ParentSaysNothing(g, a);
    }
  }

  lemma {:induction false} ConservedByTelling(g: Game, i: nat)
    requires Conserved(g) && Enabled(g, Tell(i)) && !Apply(g, Tell(i)).failed
    ensures Conserved(Apply(g, Tell(i)))
  {
    var h, c, r := Apply(g, Tell(i)), Told(g.children[i].report), g.children[i].report;
    SpeakersChange(g.children, i, c);
    SaidGrows(g.children, i, c);
    InsertAdds(g.reports, r);
    assert h.printed == g.printed && h.reports == Insert(g.reports, r) && h.children == g.children[i := c];
    AddOne(multiset(g.printed), multiset(g.reports), r);
  }

  lemma {:induction false} AddOne(a: multiset<Report>, b: multiset<Report>, r: Report)
    ensures a + (b + multiset{r}) == (a + b) + multiset{r}
  {}

  lemma {:induction false} OthersSayNothing(g: Game, a: Action)
    requires Creation(g) && Enabled(g, a) && !KeepsChildren(a) && !a.Tell?
    ensures var h, p := Apply(g, a), Concerned(g, a);
            h.printed == g.printed && h.reports == g.reports && h.children == g.children[p.0 := p.1]
  {}

  lemma {:induction false} ConservedByOthers(g: Game, a: Action)
    requires Conserved(g) && Creation(g) && Enabled(g, a) && !KeepsChildren(a) && !a.Tell?
    ensures Conserved(Apply(g, a))
  {
    var (i, c) := Concerned(g, a);
    SpeakersChange(g.children, i, c);
    SaidUnchanged(g.children, i, c);
    OthersSayNothing(g, a);
  }

  lemma {:induction false} ConservedKept(g: Game, a: Action)
    requires Conserved(g) && Creation(g) && Enabled(g, a) && !Apply(g, a).failed
    ensures Conserved(Apply(g, a))
  {
    if KeepsChildren(a) {
      ConservedByParent(g, a);
    } else if a.Tell? {
      ConservedByTelling(g, a.i);
    } else {
      ConservedByOthers(g, a);
    }
  }

  lemma {:induction false} SumBelow(a: seq<int>, b: seq<int>)
    requires |a| == |b| && forall i :: 0 <= i < |a| ==> a[i] <= b[i]
    ensures Sum(a) <= Sum(b)
  {
    if a != [] {
      SumBelow(a[1..], b[1..]);
    }
  }

  /** While some child has not reported, fewer reports have been sent than there are children. */
  lemma {:induction false} SilentChildLeavesRoom(g: Game, i: nat)
    requires Conserved(g) && i < |g.children| && !Spoke(g.children[i])
    ensures |g.reports| < |g.children|
  {
    var ones := seq(|g.children|, _ => 1);
    SumOfConstant(ones, 1);
    SumOfUpdate(ones, i, 0);
    SumBelow(Speakers(g.children), ones[i := 0]);
  }

  /**
   A step keeps the invariant, or is the failing send of a child whose queue has fewer places than there are children.
   */
  lemma {:induction false} StepKeepsInv(g: Game, a: Action)
    requires Inv(g) && Enabled(g, a)
    ensures if Apply(g, a).failed then g.inCapacity < |g.children| else Inv(Apply(g, a))
  {
    OneNoticeKept(g, a);
    if Apply(g, a).failed {
      SilentChildLeavesRoom(g, a.i);
    } else {
      NestedKept(g, a);
      CreationKept(g, a);
      ConservedKept(g, a);
      if KeepsChildren(a) {
        CountedKeptByParent(g, a);
      } else {
        CountedKeptByChildren(g, a);
      }
    }
  }

  /** Over whole runs: nothing fails but a report to a queue with too few places, and otherwise the invariant holds. */
  lemma {:induction false} RunKeepsInv(g: Game, run: seq<Action>)
    requires Inv(g) && Legal(g, run)
    ensures if After(g, run).failed then g.inCapacity < |g.children| else Inv(After(g, run))
    decreases |run|
  {
    if run != [] {
      StepKeepsInv(g, run[0]);
      if Apply(g, run[0]).failed {
        assert run[1..] == [];
      } else {
        RunKeepsInv(Apply(g, run[0]), run[1..]);
      }
    }
  }

  /**
   No lost notification. In every state after the first registration exactly one of the three holds: the queue is
   registered, a notification is pending, or the handler is about to register again; so registering never fails.
   Reports in the queue mean a pending notification or a handler under way, so with neither, every report sent has been
   printed exactly once.
   */
  lemma {:induction false} NoLostNotification(n: nat, inCapacity: nat, outCapacity: nat, run: seq<Action>)
    requires Legal(Opening(n, inCapacity, outCapacity), run)
    ensures var g := After(Opening(n, inCapacity, outCapacity), run);
            && (!g.failed ==>
                  && (!Setup(g) ==> Bit(g.registered) + g.notices + Bit(Entering in g.handlers) == 1)
                  && (g.handlers != [] && Innermost(g) == Entering ==> !g.registered)
                  && multiset(g.printed) + multiset(g.reports) == Said(g.children)
                  && (g.notices == 0 && !InNotice(g) ==> multiset(g.printed) == Said(g.children)))
            && (g.failed ==> n > inCapacity)
  {
    OpeningInv(n, inCapacity, outCapacity);
    RunKeepsInv(Opening(n, inCapacity, outCapacity), run);
    var g := After(Opening(n, inCapacity, outCapacity), run);
    if !g.failed && g.handlers != [] && Innermost(g) == Entering {
      assert g.handlers[|g.handlers| - 1] in g.handlers;
      assert Setup(g) ==> Calm(g);
    }
  }

  lemma {:induction false} NobodyLives(cs: seq<Child>, i: nat)
    requires Sum(Living(cs)) == 0 && i < |cs|
    ensures !Alive(cs[i])
  {
    SumIsNonNegative(Living(cs));
  }

  /**
   Reaping. The parent's count is always the number of children created and counted but not reaped; a zombie means a
   pending or running SIGCHLD handler; and the parent finishes only when every child has reported, exited and been
   reaped.
   */
  lemma {:induction false} EveryChildIsReaped(n: nat, inCapacity: nat, outCapacity: nat, run: seq<Action>)
    requires Legal(Opening(n, inCapacity, outCapacity), run)
    ensures var g := After(Opening(n, inCapacity, outCapacity), run);
            !g.failed ==>
              && g.childrenLeft + Bit(g.main.Loading? || g.main.Storing?) == Sum(Living(g.children))
              && (forall i :: 0 <= i < n && g.children[i].Zombie? ==> g.childSignal || InReaping(g))
              && (Setup(g) ==> forall i :: 0 <= i < n ==> g.children[i].Unborn? || g.children[i].Hungry?)
              && (g.main == Finished ==> forall i :: 0 <= i < n ==> g.children[i].Reaped?)
  {
    OpeningInv(n, inCapacity, outCapacity);
    RunKeepsInv(Opening(n, inCapacity, outCapacity), run);
    var g := After(Opening(n, inCapacity, outCapacity), run);
    if !g.failed && g.main == Finished {
      forall i | 0 <= i < n
        ensures g.children[i].Reaped?
      {
        NobodyLives(g.children, i);
        assert g.children[i].Unborn? <==> i < Due(g);
      }
    }
  }

  /** In every state of every run the report queue is in priority order, so the parent reads all bingos first. */
  lemma {:induction false} QueueIsPrioritised(g: Game, run: seq<Action>)
    requires Legal(g, run) && Prioritised(g.reports)
    ensures Prioritised(After(g, run).reports)
    decreases |run|
  {
    if run != [] {
      if run[0].Tell? {
        InsertIsFair(g.reports, g.children[run[0].i].report, true);
      }
      QueueIsPrioritised(Apply(g, run[0]), run[1..]);
    }
  }
}
