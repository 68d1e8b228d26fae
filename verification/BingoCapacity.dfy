/** How many places the report queue needs, and how the parent can be left waiting. */
module BingoCapacity {
  import opened Bingo
  import opened BingoSafety

  lemma {:induction false} RunsCompose(g: Game, first: seq<Action>, second: seq<Action>)
    requires Legal(g, first) && Legal(After(g, first), second)
    ensures Legal(g, first + second) && After(g, first + second) == After(After(g, first), second)
    decreases |first|
  {
    if first == [] {
      assert first + second == second;
    } else {
      assert (first + second)[1..] == first[1..] + second;
      RunsCompose(Apply(g, first[0]), first[1..], second);
    }
  }

  /** One more step at the end of a run. */
  lemma {:induction false} Grow(g: Game, run: seq<Action>, h: Game, a: Action) returns (longer: seq<Action>, k: Game)
    requires Legal(g, run) && h == After(g, run) && Enabled(h, a)
    ensures Legal(g, longer) && k == After(g, longer) == Apply(h, a)
  {
    longer, k := run + [a], Apply(h, a);
    assert [a][1..] == [];
    RunsCompose(g, run, [a]);
  }

  /** All children forked so far have one number to live and will not hit bingo with a 1; none has reported. */
  ghost predicate Born(g: Game, k: nat) {
    && !g.failed && g.handlers == [] && g.main == Forking(k) && k <= |g.children|
    && g.reports == [] && g.numbers == [] && !g.registered && g.notices == 0 && !g.childSignal
    && g.childrenLeft == |g.children| - k
    && forall i :: k <= i < |g.children| ==> g.children[i] == Hungry(1, 0)
  }

  lemma {:induction false} ForkAll(g: Game, run: seq<Action>, h: Game, k: nat)
    returns (longer: seq<Action>, u: Game)
    requires Legal(g, run) && h == After(g, run) && Born(h, k)
    ensures Legal(g, longer) && u == After(g, longer) && Born(u, 0)
    decreases k
  {
    longer, u := run, h;
    if k > 0 {
      longer, u := Grow(g, longer, u, Fork(1, 0));
      longer, u := Grow(g, longer, u, Run(0));
      longer, u := Grow(g, longer, u, Run(0));
      longer, u := ForkAll(g, longer, u, k - 1);
    }
  }

  /**
   The parent is broadcasting; the first j children have reported, nothing was handled yet, the others are waiting.
   */
  ghost predicate Crowded(g: Game, j: nat) {
    && !g.failed && g.handlers == [] && g.main == Checking && g.childrenLeft > 0
    && g.numbers == [] && |g.reports| == j <= |g.children| && g.outCapacity > 0
    && forall i :: j <= i < |g.children| ==> g.children[i] == Hungry(1, 0)
  }

  /** The next child takes a number that is not its own. */
  lemma {:induction false} FeedNext(g: Game, run: seq<Action>, h: Game, j: nat) returns (longer: seq<Action>, u: Game)
    requires Legal(g, run) && h == After(g, run) && Crowded(h, j) && j < |h.children|
    ensures Legal(g, longer) && u == After(g, longer)
    ensures u == h.(children := h.children[j := Telling(Report(false, j + 1))])
  {
    longer, u := Grow(g, run, h, Run(1));
    assert u == h.(main := Sending(1));
    longer, u := Grow(g, longer, u, Run(1));
    assert u == h.(numbers := [1]);
    longer, u := Grow(g, longer, u, Eat(j));
    assert u.numbers == [];
  }

  lemma {:induction false} CrowdOn(g: Game, run: seq<Action>, h: Game, j: nat) returns (longer: seq<Action>, u: Game)
    requires Legal(g, run) && h == After(g, run) && Crowded(h, j) && j <= h.inCapacity < |h.children|
    ensures Legal(g, longer) && u == After(g, longer) && u.failed
    decreases h.inCapacity - j
  {
    longer, u := FeedNext(g, run, h, j);
    longer, u := Grow(g, longer, u, Tell(j));
    if j < h.inCapacity {
      longer, u := CrowdOn(g, longer, u, j + 1);
    }
  }

  lemma {:induction false} CrowdedQueueFails(n: nat, inCapacity: nat, outCapacity: nat) returns (run: seq<Action>)
    requires n > inCapacity && outCapacity > 0
    ensures Legal(Opening(n, inCapacity, outCapacity), run)
    ensures After(Opening(n, inCapacity, outCapacity), run).failed
  {
    var g := Opening(n, inCapacity, outCapacity);
    var h := g;
    run := [];
    run, h := ForkAll(g, run, h, n);
    run, h := Grow(g, run, h, Run(0));
    run, h := Grow(g, run, h, Run(0));
    run, h := CrowdOn(g, run, h, 0);
  }

  /** The game can fail, by a report to a full queue, exactly when the report queue has fewer places than children. */
  lemma {:induction false} FailsIffTooManyChildren(n: nat, inCapacity: nat, outCapacity: nat)
    requires outCapacity > 0
    ensures (exists run :: Legal(Opening(n, inCapacity, outCapacity), run)
                           && After(Opening(n, inCapacity, outCapacity), run).failed)
       <==> n > inCapacity
  {
    if n > inCapacity {
      var run := CrowdedQueueFails(n, inCapacity, outCapacity);
    }
    forall run | Legal(Opening(n, inCapacity, outCapacity), run)
                 && After(Opening(n, inCapacity, outCapacity), run).failed
      ensures n > inCapacity
    {
      NoLostNotification(n, inCapacity, outCapacity, run);
    }
  }

  /** Nothing can happen any more. */
  ghost predicate Stuck(g: Game) {
    forall a :: !Enabled(g, a)
  }

  /** The parent sends until the queue of numbers is full, nobody being hungry enough to eat. */
  lemma {:induction false} FillUp(g: Game, run: seq<Action>, h: Game) returns (longer: seq<Action>, u: Game)
    requires Legal(g, run) && h == After(g, run) && !h.failed && h.handlers == [] && h.childrenLeft > 0
    requires h.main.Sending? && |h.numbers| <= h.outCapacity && h.main.m == 1
    ensures Legal(g, longer) && u == After(g, longer)
    ensures |u.numbers| == h.outCapacity && u == h.(numbers := u.numbers)
    ensures h.numbers <= u.numbers && forall i :: |h.numbers| <= i < |u.numbers| ==> u.numbers[i] == 1
    decreases h.outCapacity - |h.numbers|
  {
    longer, u := run, h;
    if |h.numbers| < h.outCapacity {
      longer, u := Grow(g, longer, u, Run(1));
      longer, u := Grow(g, longer, u, Run(1));
      longer, u := FillUp(g, longer, u);
    }
  }

  /** A turn of the draining loop. */
  lemma {:induction false} PrintOne(g: Game, run: seq<Action>, h: Game) returns (longer: seq<Action>, u: Game)
    requires Legal(g, run) && h == After(g, run) && !h.failed && h.handlers != [] && Innermost(h) == Draining
    ensures Legal(g, longer) && u == After(g, longer)
    ensures u == if h.reports == [] then h.(handlers := h.handlers[..|h.handlers| - 1])
                 else h.(reports := h.reports[1..], printed := h.printed + [h.reports[0]])
  {
    longer, u := Grow(g, run, h, Handle);
  }

  lemma {:induction false} HeadFirst<T>(p: seq<T>, q: seq<T>)
    requires q != []
    ensures p + [q[0]] + q[1..] == p + q
  {}

  /** The draining loop prints the whole queue, and the handler is over. */
  lemma {:induction false} Drain(g: Game, run: seq<Action>, h: Game) returns (longer: seq<Action>, u: Game)
    requires Legal(g, run) && h == After(g, run) && !h.failed && h.handlers != [] && Innermost(h) == Draining
    ensures Legal(g, longer) && u == After(g, longer)
    ensures u == h.(handlers := h.handlers[..|h.handlers| - 1], reports := [], printed := h.printed + h.reports)
    decreases |h.reports|
  {
    longer, u := PrintOne(g, run, h);
    if h.reports != [] {
      longer, u := Drain(g, longer, u);
      HeadFirst(h.printed, h.reports);
    }
  }

  lemma {:induction false} Interrupted(h: Game)
    requires !h.failed && h.handlers == [] && h.main != Finished && h.notices == 1
    ensures Enabled(h, DeliverNotice)
    ensures Apply(h, DeliverNotice) == h.(notices := 0, handlers := [Entering])
  {
    assert [] + [Entering] == [Entering];
  }

  lemma {:induction false} Rearmed(h: Game)
    requires !h.failed && h.handlers == [Entering] && !h.registered
    ensures Enabled(h, Handle) && Apply(h, Handle) == h.(registered := true, handlers := [Draining])
  {
    assert h.handlers[..0] + [Draining] == [Draining];
  }

  lemma {:induction false} Rearm(g: Game, run: seq<Action>, h: Game) returns (longer: seq<Action>, u: Game)
    requires Legal(g, run) && h == After(g, run) && !h.failed && h.handlers == [] && h.main != Finished
    requires h.notices == 1 && !h.registered
    ensures Legal(g, longer) && u == After(g, longer)
    ensures u == h.(notices := 0, registered := true, handlers := [Draining])
  {
    Interrupted(h);
    longer, u := Grow(g, run, h, DeliverNotice);
    Rearmed(u);
    longer, u := Grow(g, longer, u, Handle);
  }

  /** Child j has just reported, its notification is pending, and nothing else is. */
  ghost predicate Reported(g: Game, j: nat) {
    && !g.failed && g.handlers == [] && g.main != Finished && g.childrenLeft > 0
    && |g.reports| == 1 && !g.registered && g.notices == 1 && !g.childSignal
    && j < |g.children| && g.children[j].Told?
    && forall i :: 0 <= i < |g.children| ==> !g.children[i].Zombie?
  }

  lemma {:induction false} HandleNotice(g: Game, run: seq<Action>, h: Game, j: nat)
    returns (longer: seq<Action>, u: Game)
    requires Legal(g, run) && h == After(g, run) && Reported(h, j)
    ensures Legal(g, longer) && u == After(g, longer)
    ensures u == h.(notices := 0, registered := true, reports := [], printed := h.printed + h.reports)
  {
    longer, u := Rearm(g, run, h);
    longer, u := Drain(g, longer, u);
  }

  /** One exit, its signal, and the handler that reaps: the four steps one by one. */
  lemma {:induction false} OneExits(h: Game, j: nat) returns (t: Game)
    requires !h.failed && j < |h.children| && h.children[j].Told? && !h.childSignal
    ensures Enabled(h, Exit(j)) && t == Apply(h, Exit(j))
    ensures t == h.(children := h.children[j := Zombie(h.children[j].report)], childSignal := true)
  {
    t := Apply(h, Exit(j));
  }

  lemma {:induction false} OneSignals(h: Game)
    requires !h.failed && h.main != Finished && h.childSignal && h.handlers == []
    ensures Enabled(h, DeliverChildSignal)
    ensures Apply(h, DeliverChildSignal) == h.(childSignal := false, handlers := [Reaping])
  {
    assert [] + [Reaping] == [Reaping];
  }

  lemma {:induction false} OneIsReaped(h: Game, j: nat)
    requires !h.failed && h.handlers == [Reaping] && j < |h.children| && h.children[j].Zombie?
    ensures Enabled(h, Reap(j))
    ensures Apply(h, Reap(j)) == h.(children := h.children[j := Reaped(h.children[j].report)],
                                    childrenLeft := h.childrenLeft - 1)
  {}

  lemma {:induction false} ReapingEnds(h: Game)
    requires !h.failed && h.handlers == [Reaping] && NoZombie(h)
    ensures Enabled(h, Handle) && Apply(h, Handle) == h.(handlers := [])
  {
    assert h.handlers[..0] == [];
  }

  /** The child exits and is reaped behind its signal. */
  lemma {:induction false} HandleExit(g: Game, run: seq<Action>, h: Game, j: nat) returns (longer: seq<Action>, u: Game)
    requires Legal(g, run) && h == After(g, run) && !h.failed && h.handlers == [] && h.main != Finished
    requires j < |h.children| && h.children[j].Told? && !h.childSignal && NoZombie(h)
    ensures Legal(g, longer) && u == After(g, longer)
    ensures u == h.(children := h.children[j := Reaped(h.children[j].report)], childrenLeft := h.childrenLeft - 1)
  {
    var t := OneExits(h, j);
    longer, u := Grow(g, run, h, Exit(j));
    OneSignals(u);
    longer, u := Grow(g, longer, u, DeliverChildSignal);
    OneIsReaped(u, j);
    longer, u := Grow(g, longer, u, Reap(j));
    assert u.children == h.children[j := Reaped(h.children[j].report)];
    ReapingEnds(u);
    longer, u := Grow(g, longer, u, Handle);
  }

  /** Everything that follows a child's report, up to its being counted off. */
  lemma {:induction false} Digest(g: Game, run: seq<Action>, h: Game, j: nat) returns (longer: seq<Action>, u: Game)
    requires Legal(g, run) && h == After(g, run) && Reported(h, j)
    ensures Legal(g, longer) && u == After(g, longer)
    ensures u == h.(notices := 0, registered := true, reports := [], printed := u.printed,
                    children := h.children[j := Reaped(h.children[j].report)], childrenLeft := h.childrenLeft - 1)
  {
    longer, u := HandleNotice(g, run, h, j);
    longer, u := HandleExit(g, longer, u, j);
  }

  /**
   The first j children are gone, the others hungry, with one number to live and no bingo at 1; the parent is about to
   send a 1 to the empty queue, and registered.
   */
  ghost predicate Turn(g: Game, j: nat) {
    && !g.failed && g.handlers == [] && g.main == Sending(1) && j < |g.children| && g.childrenLeft == |g.children| - j
    && g.inCapacity > 0 && g.outCapacity > 0 && g.numbers == []
    && g.reports == [] && g.registered && g.notices == 0 && !g.childSignal
    && (forall i :: 0 <= i < j ==> g.children[i].Reaped?)
    && (forall i :: j <= i < |g.children| ==> g.children[i] == Hungry(1, 0))
  }

  /** From the last fork to the first send. */
  lemma {:induction false} Broadcasting(g: Game, run: seq<Action>, h: Game) returns (longer: seq<Action>, u: Game)
    requires Legal(g, run) && h == After(g, run) && Born(h, 0) && h.children != []
    ensures Legal(g, longer) && u == After(g, longer) && u == h.(registered := true, main := Sending(1))
  {
    longer, u := Grow(g, run, h, Run(0));
    longer, u := Grow(g, longer, u, Run(0));
    longer, u := Grow(g, longer, u, Run(1));
  }

  lemma {:induction false} FirstTurn(n: nat, inCapacity: nat, outCapacity: nat) returns (run: seq<Action>, h: Game)
    requires n > 0 && inCapacity > 0 && outCapacity > 0
    ensures Legal(Opening(n, inCapacity, outCapacity), run) && h == After(Opening(n, inCapacity, outCapacity), run)
    ensures Turn(h, 0) && |h.children| == n && h.outCapacity == outCapacity
  {
    var g := Opening(n, inCapacity, outCapacity);
    run, h := ForkAll(g, [], g, n);
    run, h := Broadcasting(g, run, h);
  }

  /** With a number in the queue and the parent back at its send, child j eats and reports. */
  lemma {:induction false} Meal(g: Game, run: seq<Action>, h: Game, j: nat) returns (longer: seq<Action>, u: Game)
    requires Legal(g, run) && h == After(g, run) && Turn(h.(numbers := []), j) && h.numbers != [] && h.numbers[0] == 1
    ensures Legal(g, longer) && u == After(g, longer) && Reported(u, j)
    ensures u == h.(numbers := h.numbers[1..], reports := u.reports, registered := false, notices := 1,
                    children := h.children[j := u.children[j]])
  {
    longer, u := Grow(g, run, h, Eat(j));
    longer, u := Grow(g, longer, u, Tell(j));
  }

  lemma {:induction false} NextTurn(g: Game, run: seq<Action>, h: Game, j: nat) returns (longer: seq<Action>, u: Game)
    requires Legal(g, run) && h == After(g, run) && Turn(h, j) && j + 1 < |h.children|
    ensures Legal(g, longer) && u == After(g, longer) && Turn(u, j + 1)
    ensures |u.children| == |h.children| && u.outCapacity == h.outCapacity
  {
    longer, u := Grow(g, run, h, Run(1));
    longer, u := Grow(g, longer, u, Run(1));
    longer, u := Meal(g, longer, u, j);
    longer, u := Digest(g, longer, u, j);
  }

  /** Up to the last child's turn. */
  lemma {:induction false} LastTurn(g: Game, run: seq<Action>, h: Game, j: nat) returns (longer: seq<Action>, u: Game)
    requires Legal(g, run) && h == After(g, run) && Turn(h, j)
    ensures Legal(g, longer) && u == After(g, longer) && h.children != [] && Turn(u, |h.children| - 1)
    ensures |u.children| == |h.children| && u.outCapacity == h.outCapacity
    decreases |h.children| - j
  {
    longer, u := run, h;
    if j + 1 < |h.children| {
      longer, u := NextTurn(g, run, h, j);
      longer, u := LastTurn(g, longer, u, j + 1);
    }
  }

  /** The last child eats from a full queue, and the parent fills it again before the report is handled. */
  lemma {:induction false} LateMeal(g: Game, run: seq<Action>, h: Game) returns (longer: seq<Action>, u: Game)
    requires Legal(g, run) && h == After(g, run) && h.children != [] && Turn(h, |h.children| - 1)
    ensures Legal(g, longer) && u == After(g, longer) && |u.children| == |h.children|
    ensures Reported(u, |u.children| - 1) && u.main == Sending(1) && |u.numbers| >= u.outCapacity
    ensures u.childrenLeft == 1 && forall i :: 0 <= i < |u.children| - 1 ==> u.children[i].Reaped?
  {
    var j: nat := |h.children| - 1;
    longer, u := FillUp(g, run, h);
    longer, u := Meal(g, longer, u, j);
    longer, u := Grow(g, longer, u, Run(1));
    longer, u := Grow(g, longer, u, Run(1));
  }

  /** Standing still, unfinished, though nothing has failed. */
  ghost predicate Stranded(g: Game) {
    Stuck(g) && !g.failed && g.main != Finished
  }

  /**
   Nothing fails, every child has reported and been reaped, and yet the parent waits for ever: it found a child alive,
   then the queue of numbers full, and nobody is left to empty it. Any number of children can leave it so.
   */
  lemma {:induction false} LastSendCanBlock(n: nat, inCapacity: nat, outCapacity: nat) returns (run: seq<Action>)
    requires n > 0 && inCapacity > 0 && outCapacity > 0
    ensures Legal(Opening(n, inCapacity, outCapacity), run)
    ensures var h := After(Opening(n, inCapacity, outCapacity), run);
            Stranded(h) && h.childrenLeft == 0 && forall i :: 0 <= i < n ==> h.children[i].Reaped?
  {
    var g, h := Opening(n, inCapacity, outCapacity), Opening(n, inCapacity, outCapacity);
    run, h := FirstTurn(n, inCapacity, outCapacity);
    run, h := LastTurn(g, run, h, 0);
    run, h := LateMeal(g, run, h);
    run, h := Digest(g, run, h, n - 1);
    EveryChildIsReaped(n, inCapacity, outCapacity, run);
    NobodyIsLeft(h);
  }

  lemma {:induction false} NobodyIsLeft(g: Game)
    requires AllReaped(g) && g.main.Sending? && |g.numbers| >= g.outCapacity && g.handlers == []
    requires g.notices == 0 && !g.childSignal
    ensures Stuck(g)
  {}

  /** All is done but for one send to a queue that nobody will empty any more. */
  ghost predicate LastSendBlocks(g: Game) {
    && g.main.Sending? && |g.numbers| >= g.outCapacity
    && g.handlers == [] && g.notices == 0 && !g.childSignal && AllReaped(g)
  }

  ghost predicate AllReaped(g: Game) {
    forall i :: 0 <= i < |g.children| ==> g.children[i].Reaped?
  }

  /** Unless the parent has finished or is blocked in its last send, somebody can step. */
  lemma {:induction false} SomebodyCanStep(g: Game) returns (a: Action)
    requires Inv(g) && g.outCapacity > 0 && g.main != Finished && !LastSendBlocks(g)
    ensures Enabled(g, a)
  {
    if g.handlers != [] {
      if i :| 0 <= i < |g.children| && g.children[i].Zombie? && Innermost(g) == Reaping {
        a := Reap(i);
      } else {
        a := Handle;
      }
    } else if g.notices > 0 {
      a := DeliverNotice;
    } else if g.childSignal {
      a := DeliverChildSignal;
    } else if g.main.Sending? && |g.numbers| >= g.outCapacity {
      var i :| 0 <= i < |g.children| && !g.children[i].Reaped?;
      a := if g.children[i].Hungry? then Eat(i) else if g.children[i].Telling? then Tell(i) else Exit(i);
    } else {
      a := if g.main.Forking? && g.main.k > 0 then Fork(1, 0) else Run(0);
    }
  }

  lemma {:induction false} OverIsStuck(g: Game)
    requires Inv(g) && AllReaped(g) && (g.main == Finished || LastSendBlocks(g))
    ensures Stuck(g)
  {
    assert g.handlers == [];
  }

  /**
   The game never stops short in any other way: in a state of any run in which nothing has failed, nobody can step
   exactly when the parent has finished or is blocked in its last send, all children being reaped in either case.
   */
  lemma {:induction false} StuckIffOver(n: nat, inCapacity: nat, outCapacity: nat, run: seq<Action>)
    requires outCapacity > 0 && Legal(Opening(n, inCapacity, outCapacity), run)
    requires !After(Opening(n, inCapacity, outCapacity), run).failed
    ensures var g := After(Opening(n, inCapacity, outCapacity), run);
            Stuck(g) <==> g.main == Finished || LastSendBlocks(g)
  {
    var g := After(Opening(n, inCapacity, outCapacity), run);
    assert Inv(g) by {
      OpeningInv(n, inCapacity, outCapacity);
      RunKeepsInv(Opening(n, inCapacity, outCapacity), run);
    }
    if g.main == Finished || LastSendBlocks(g) {
      assert g.main == Finished ==> AllReaped(g) by {
        EveryChildIsReaped(n, inCapacity, outCapacity, run);
      }
      OverIsStuck(g);
    } else {
      var a := SomebodyCanStep(g);
    }
  }

  /** With no place for reports no child ever gets to speak. */
  ghost predicate NobodySpoke(g: Game) {
    g.inCapacity == 0 ==> forall i :: 0 <= i < |g.children| ==> !Spoke(g.children[i])
  }

  /** Without children the parent never sends. */
  ghost predicate NothingSent(g: Game) {
    g.children == [] ==> !g.main.Sending?
  }

  lemma {:induction false} NobodySpeaks(g: Game, a: Action)
    requires NobodySpoke(g) && Enabled(g, a) && !Apply(g, a).failed
    ensures NobodySpoke(Apply(g, a))
  {}

  lemma {:induction false} NothingIsSent(g: Game, a: Action)
    requires Counted(g) && NothingSent(g) && Enabled(g, a)
    ensures NothingSent(Apply(g, a))
  {
    if a.Run? && g.children == [] {
      assert Living(g.children) == [];
    }
  }

  lemma {:induction false} RunKeepsSilence(g: Game, run: seq<Action>)
    requires Inv(g) && NobodySpoke(g) && NothingSent(g) && Legal(g, run) && !After(g, run).failed
    ensures NobodySpoke(After(g, run)) && NothingSent(After(g, run))
    decreases |run|
  {
    if run != [] {
      if Apply(g, run[0]).failed {
        FailureIsForGood(Apply(g, run[0]), run[1..]);
      } else {
        StepKeepsInv(g, run[0]);
        NobodySpeaks(g, run[0]);
        NothingIsSent(g, run[0]);
        RunKeepsSilence(Apply(g, run[0]), run[1..]);
      }
    }
  }

  lemma {:induction false} FailureIsForGood(g: Game, run: seq<Action>)
    requires Legal(g, run) && g.failed
    ensures After(g, run).failed
  {}

  /**
   Some run leaves the parent unfinished with nothing to wait for if and only if there is a child at all and a place for
   its report, however large the queues are.
   */
  lemma {:induction false} ParentCanBeStrandedIff(n: nat, inCapacity: nat, outCapacity: nat)
    requires outCapacity > 0
    ensures (exists run :: Legal(Opening(n, inCapacity, outCapacity), run)
                           && Stranded(After(Opening(n, inCapacity, outCapacity), run)))
       <==> n > 0 && inCapacity > 0
  {
    var g := Opening(n, inCapacity, outCapacity);
    if n > 0 && inCapacity > 0 {
      var run := LastSendCanBlock(n, inCapacity, outCapacity);
    }
    forall run | Legal(g, run) && Stranded(After(g, run))
      ensures n > 0 && inCapacity > 0
    {
      OpeningInv(n, inCapacity, outCapacity);
      RunKeepsSilence(g, run);
      StuckIffOver(n, inCapacity, outCapacity, run);
      assert n > 0 ==> !Spoke(After(g, run).children[0]) || inCapacity > 0;
    }
  }
}
