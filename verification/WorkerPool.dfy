/**
 A parent feeds five tasks for each of n workers through a bounded queue on which both sides block. SIGINT makes the
 parent stop sending; where it interrupts a call that is blocked, the send or receive fails and takes the whole process
 group down, and a blocked wait() ends early. Tasks are numbered in the order of sending.
 */
module WorkerPool {
  import opened Sequences

  const QUOTA := 5

  /** `done` tasks are finished; the worker waits for the next, or is at work on it. */
  datatype Worker = Waiting(done: nat) | Working(done: nat, task: nat) | Exited

  /** At the loop's condition, about to send, waiting for the workers, or gone. */
  datatype Parent = Testing | Sending | Reaping | Quit

  datatype Pool = Pool(capacity: nat, queue: seq<nat>, unsent: nat, stop: bool, parent: Parent,
                       workers: seq<Worker>, taken: seq<nat>, failed: bool)

  datatype Action =
    | Test | Send | Reap
    | Receive(i: nat) | Finish(i: nat)
    | Interrupt(blocked: bool)    // SIGINT finds the parent running, or in a blocked call
    | InterruptWorker(i: nat)     // SIGINT finds a worker in a blocked receive

  predicate AllExited(p: Pool) {
    forall i :: 0 <= i < |p.workers| ==> p.workers[i].Exited?
  }

  predicate Enabled(p: Pool, a: Action) {
    && !p.failed
    && match a
       case Test => p.parent.Testing?
       case Send => p.parent.Sending? && |p.queue| < p.capacity
       case Reap => p.parent.Reaping? && AllExited(p)
       case Receive(i) => i < |p.workers| && p.workers[i].Waiting? && p.queue != []
       case Finish(i) => i < |p.workers| && p.workers[i].Working?
       case Interrupt(blocked) =>
         !p.parent.Quit?
         && (blocked ==> (p.parent.Sending? && |p.queue| >= p.capacity) || (p.parent.Reaping? && !AllExited(p)))
       case InterruptWorker(i) => i < |p.workers| && p.workers[i].Waiting? && p.queue == []
  }

  /** The number of the task that is sent next. */
  function NextTask(p: Pool): nat {
    |p.taken| + |p.queue|
  }

  function Apply(p: Pool, a: Action): (q: Pool)
    requires Enabled(p, a)
    ensures |q.workers| == |p.workers| && q.capacity == p.capacity
  {
    match a
    case Test => p.(parent := if !p.stop && p.unsent > 0 then Sending else Reaping)
    case Send =>
      p.(queue := p.queue + [NextTask(p)], unsent := if p.unsent > 0 then p.unsent - 1 else 0, parent := Testing)
    case Reap => p.(parent := Quit)
    case Receive(i) =>
      p.(queue := p.queue[1..], taken := p.taken + [p.queue[0]],
         workers := p.workers[i := Working(p.workers[i].done, p.queue[0])])
    case Finish(i) =>
      var done := p.workers[i].done + 1;
      p.(workers := p.workers[i := if done < QUOTA then Waiting(done) else Exited])
    case Interrupt(blocked) =>
      if !blocked then p.(stop := true) else if p.parent.Sending? then p.(failed := true) else p.(parent := Quit)
    case InterruptWorker(i) => p.(failed := true)
  }

  predicate Legal(p: Pool, run: seq<Action>)
    decreases |run|
  {
    run == [] || (Enabled(p, run[0]) && Legal(Apply(p, run[0]), run[1..]))
  }

  function After(p: Pool, run: seq<Action>): (q: Pool)
    requires Legal(p, run)
    ensures |q.workers| == |p.workers| && q.capacity == p.capacity
    decreases |run|
  {
    if run == [] then p else After(Apply(p, run[0]), run[1..])
  }

  function Opening(n: nat, capacity: nat): Pool {
    Pool(capacity, [], QUOTA * n, false, Testing, seq(n, _ => Waiting(0)), [], false)
  }

  /** Tasks a worker still has to receive. */
  function Demand(w: Worker): int {
    match w
    case Waiting(done) => QUOTA - done
    case Working(done, _) => QUOTA - done - 1
    case Exited => 0
  }

  function Demands(ws: seq<Worker>): (d: seq<int>)
    ensures |d| == |ws| && forall i :: 0 <= i < |d| ==> d[i] == Demand(ws[i])
  {
    seq(|ws|, i requires 0 <= i < |ws| => Demand(ws[i]))
  }

  /** The tasks 0, 1, ..., k - 1. */
  function Tasks(k: nat): (t: seq<nat>)
    ensures |t| == k && forall i :: 0 <= i < k ==> t[i] == i
  {
    seq(k, i => i)
  }

  /** Unsent and queued tasks together are what the workers still demand; taken and queued ones are all ever sent. */
  ghost predicate Inv(p: Pool) {
    && p.unsent + |p.queue| == Sum(Demands(p.workers))
    && p.taken + p.queue == Tasks(NextTask(p))
    && p.unsent + NextTask(p) == QUOTA * |p.workers|
    && |p.queue| <= p.capacity
    && (p.parent.Sending? ==> p.unsent > 0)
    && (p.parent.Reaping? || p.parent.Quit? ==> p.unsent == 0 || p.stop)
    && forall i :: 0 <= i < |p.workers| ==> !p.workers[i].Exited? ==> p.workers[i].done < QUOTA
  }

  lemma {:induction false} OpeningInv(n: nat, capacity: nat)
    ensures Inv(Opening(n, capacity))
  {
    SumOfConstant(Demands(Opening(n, capacity).workers), QUOTA);
  }

  lemma {:induction false} DemandsChange(ws: seq<Worker>, i: nat, w: Worker)
    requires i < |ws|
    ensures Sum(Demands(ws[i := w])) == Sum(Demands(ws)) - Demand(ws[i]) + Demand(w)
  {
    SumOfUpdate(Demands(ws), i, Demand(w));
    assert Demands(ws[i := w]) == Demands(ws)[i := Demand(w)];
  }

  lemma {:induction false} OneTaskMore(k: nat)
    ensures Tasks(k) + [k] == Tasks(k + 1)
  {}

  lemma {:induction false} ParentKeepsInv(p: Pool, a: Action)
    requires Inv(p) && Enabled(p, a) && (a.Test? || a.Reap? || IsInterrupt(a))
    ensures Inv(Apply(p, a))
  {}

  lemma {:induction false} SendKeepsInv(p: Pool)
    requires Inv(p) && Enabled(p, Send)
    ensures Inv(Apply(p, Send))
  {
    var q := Apply(p, Send);
    assert q.taken + q.queue == (p.taken + p.queue) + [NextTask(p)];
    OneTaskMore(NextTask(p));
  }

  lemma {:induction false} ReceiveKeepsInv(p: Pool, i: nat)
    requires Inv(p) && Enabled(p, Receive(i))
    ensures Inv(Apply(p, Receive(i)))
  {
    var q := Apply(p, Receive(i));
    DemandsChange(p.workers, i, q.workers[i]);
    assert q.taken + q.queue == p.taken + p.queue;
  }

  lemma {:induction false} FinishKeepsInv(p: Pool, i: nat)
    requires Inv(p) && Enabled(p, Finish(i))
    ensures Inv(Apply(p, Finish(i)))
  {
    DemandsChange(p.workers, i, Apply(p, Finish(i)).workers[i]);
  }

  lemma {:induction false} StepKeepsInv(p: Pool, a: Action)
    requires Inv(p) && Enabled(p, a)
    ensures Inv(Apply(p, a))
  {
    match a
    case Send => SendKeepsInv(p);
    case Receive(i) => ReceiveKeepsInv(p, i);
    case Finish(i) => FinishKeepsInv(p, i);
    case _ => ParentKeepsInv(p, a);
  }

  lemma {:induction false} RunKeepsInv(p: Pool, run: seq<Action>)
    requires Inv(p) && Legal(p, run)
    ensures Inv(After(p, run))
    decreases |run|
  {
    if run != [] {
      StepKeepsInv(p, run[0]);
      RunKeepsInv(Apply(p, run[0]), run[1..]);
    }
  }

  predicate IsInterrupt(a: Action) {
    a.Interrupt? || a.InterruptWorker?
  }

  /** Nobody can go on without a signal, though nothing has failed. */
  ghost predicate Stuck(p: Pool) {
    !p.failed && forall a :: Enabled(p, a) ==> IsInterrupt(a)
  }

  lemma {:induction false} SomebodyDemands(p: Pool) returns (i: nat)
    requires Inv(p) && Sum(Demands(p.workers)) > 0
    ensures i < |p.workers| && !p.workers[i].Exited?
  {
    if AllExited(p) {
      SumOfConstant(Demands(p.workers), 0);
    }
    i :| 0 <= i < |p.workers| && !p.workers[i].Exited?;
  }

  lemma {:induction false} SomebodyCanTake(p: Pool) returns (a: Action)
    requires Inv(p) && !p.failed && p.queue != []
    ensures Enabled(p, a) && !IsInterrupt(a)
  {
    var i := SomebodyDemands(p);
    a := if p.workers[i].Working? then Finish(i) else Receive(i);
  }

  /** Where everything stands still the queue is empty, the parent has stopped sending, and nobody is at work. */
  lemma {:induction false} StuckMeansDrained(p: Pool)
    requires Inv(p) && Stuck(p) && p.capacity > 0
    ensures p.queue == [] && (p.parent.Reaping? || p.parent.Quit?)
    ensures forall i :: 0 <= i < |p.workers| ==> !p.workers[i].Working?
  {
    assert !Enabled(p, Test) && !Enabled(p, Send);
    if p.queue != [] {
      var a := SomebodyCanTake(p);
    }
    forall i | 0 <= i < |p.workers|
      ensures !p.workers[i].Working?
    {
      assert !Enabled(p, Finish(i));
    }
  }

  lemma {:induction false} NoDemandMeansExited(p: Pool)
    requires Inv(p) && Sum(Demands(p.workers)) == 0
    requires forall i :: 0 <= i < |p.workers| ==> !p.workers[i].Working?
    ensures AllExited(p)
  {
    SumIsNonNegative(Demands(p.workers));
    forall i | 0 <= i < |p.workers|
      ensures p.workers[i].Exited?
    {
      assert Demands(p.workers)[i] == 0;
    }
  }

  /** How often worker i receives a task in a run. */
  function Receipts(run: seq<Action>, i: nat): nat {
    if run == [] then 0 else (if run[0] == Receive(i) then 1 else 0) + Receipts(run[1..], i)
  }

  /** What a worker receives is what it demands less. */
  lemma {:induction false} ReceiptsAreCounted(p: Pool, run: seq<Action>, i: nat)
    requires Inv(p) && Legal(p, run) && i < |p.workers|
    ensures Receipts(run, i) == Demand(p.workers[i]) - Demand(After(p, run).workers[i])
    decreases |run|
  {
    if run != [] {
      StepKeepsInv(p, run[0]);
      ReceiptsAreCounted(Apply(p, run[0]), run[1..], i);
    }
  }

  /** In a run from the opening every worker has received what it no longer demands, and its quota once it has left. */
  lemma {:induction false} QuotasAreKept(n: nat, capacity: nat, run: seq<Action>)
    requires Legal(Opening(n, capacity), run)
    ensures var p := After(Opening(n, capacity), run);
            forall i :: 0 <= i < n ==>
              && Receipts(run, i) + Demand(p.workers[i]) == QUOTA
              && (p.workers[i].Exited? ==> Receipts(run, i) == QUOTA)
  {
    var o := Opening(n, capacity);
    OpeningInv(n, capacity);
    forall i | 0 <= i < n
      ensures Receipts(run, i) + Demand(After(o, run).workers[i]) == QUOTA
    {
      ReceiptsAreCounted(o, run, i);
    }
  }

  /**
   However the run went, with SIGINT or without, where it ends every worker has done its five tasks and left exactly
   when no task was left unsent; otherwise workers wait for ever for exactly the tasks that were dropped.
   */
  lemma {:induction false} EverybodyLeavesIff(n: nat, capacity: nat, run: seq<Action>)
    requires capacity > 0 && Legal(Opening(n, capacity), run) && Stuck(After(Opening(n, capacity), run))
    ensures var p := After(Opening(n, capacity), run);
            && (AllExited(p) <==> p.unsent == 0)
            && p.queue == [] && p.taken == Tasks(|p.taken|) && |p.taken| + p.unsent == QUOTA * n
            && Sum(Demands(p.workers)) == p.unsent
            && (forall i :: 0 <= i < n && p.workers[i].Exited? ==> Receipts(run, i) == QUOTA)
            && (forall i :: 0 <= i < n && !p.workers[i].Exited? ==> Receipts(run, i) < QUOTA)
  {
    var p := After(Opening(n, capacity), run);
    OpeningInv(n, capacity);
    RunKeepsInv(Opening(n, capacity), run);
    StuckMeansDrained(p);
    QuotasAreKept(n, capacity, run);
    if p.unsent == 0 {
      NoDemandMeansExited(p);
    } else if AllExited(p) {
      SumOfConstant(Demands(p.workers), 0);
    }
    assert p.taken + [] == p.taken;
  }

  lemma {:induction false} AllWaitForNothing(p: Pool)
    requires !p.failed && p.parent.Reaping? && p.queue == [] && !AllExited(p)
    requires forall i :: 0 <= i < |p.workers| ==> p.workers[i].Waiting?
    ensures Stuck(p)
  {}

  /** A SIGINT before the first task: the parent waits for its workers, and they for tasks that nobody will send. */
  lemma {:induction false} InterruptStrands(n: nat, capacity: nat) returns (run: seq<Action>)
    requires n > 0
    ensures Legal(Opening(n, capacity), run)
    ensures var p := After(Opening(n, capacity), run);
            Stuck(p) && !AllExited(p) && p.unsent == QUOTA * n
  {
    var p := Opening(n, capacity);
    run := [Interrupt(false), Test];
    var q := Apply(p, Interrupt(false));
    var r := Apply(q, Test);
    assert run[1..] == [Test] && run[1..][1..] == [];
    assert Legal(q, [Test]) && After(q, [Test]) == r;
    assert r.workers[0].Waiting?;
    AllWaitForNothing(r);
  }

  /** SIGINT can leave workers behind in every pool that has any. */
  lemma {:induction false} InterruptCanStrandIff(n: nat, capacity: nat)
    ensures (exists run :: Legal(Opening(n, capacity), run) && Stuck(After(Opening(n, capacity), run))
                           && !AllExited(After(Opening(n, capacity), run)))
       <==> n > 0
  {
    if n > 0 {
      var run := InterruptStrands(n, capacity);
    }
  }

  lemma {:induction false} ParentCanLeave(p: Pool)
    requires !p.failed && p.parent.Reaping? && AllExited(p)
    ensures Enabled(p, Reap) && !IsInterrupt(Reap)
  {}

  ghost predicate NoInterrupts(run: seq<Action>) {
    forall k :: 0 <= k < |run| ==> !IsInterrupt(run[k])
  }

  lemma {:induction false} UndisturbedRun(p: Pool, run: seq<Action>)
    requires Inv(p) && Legal(p, run) && !p.stop && !p.failed && NoInterrupts(run)
    requires p.parent.Quit? ==> AllExited(p)
    ensures var q := After(p, run); !q.stop && !q.failed && (q.parent.Quit? ==> AllExited(q))
    decreases |run|
  {
    if run != [] {
      StepKeepsInv(p, run[0]);
      assert !IsInterrupt(run[0]) && NoInterrupts(run[1..]);
      UndisturbedRun(Apply(p, run[0]), run[1..]);
    }
  }

  /**
   Without signals nothing fails, the parent leaves only after all workers have, and no state short of that is stuck.
   */
  lemma {:induction false} NoDeadlock(n: nat, capacity: nat, run: seq<Action>)
    requires capacity > 0 && Legal(Opening(n, capacity), run) && NoInterrupts(run)
    ensures var p := After(Opening(n, capacity), run);
            && !p.failed && (p.parent.Quit? ==> AllExited(p))
            && (Stuck(p) <==> p.parent.Quit?)
            && (p.parent.Quit? ==> p.queue == [] && p.taken == Tasks(QUOTA * n))
            && (p.parent.Quit? ==> forall i :: 0 <= i < n ==> Receipts(run, i) == QUOTA)
  {
    var p := After(Opening(n, capacity), run);
    OpeningInv(n, capacity);
    RunKeepsInv(Opening(n, capacity), run);
    UndisturbedRun(Opening(n, capacity), run);
    QuotasAreKept(n, capacity, run);
    if p.parent.Quit? {
      SumOfConstant(Demands(p.workers), 0);
      assert p.taken + [] == p.taken;
    } else if Stuck(p) {
      StuckMeansDrained(p);
      NoDemandMeansExited(p);
      ParentCanLeave(p);
    }
  }

  /** Steps still to come when no signal interferes. */
  function Toil(w: Worker): int {
    match w
    case Waiting(done) => 2 * (QUOTA - done)
    case Working(done, _) => 2 * (QUOTA - done) - 1
    case Exited => 0
  }

  function Toils(ws: seq<Worker>): (d: seq<int>)
    ensures |d| == |ws| && forall i :: 0 <= i < |d| ==> d[i] == Toil(ws[i])
  {
    seq(|ws|, i requires 0 <= i < |ws| => Toil(ws[i]))
  }

  function StepsLeft(p: Pool): int {
    Sum(Toils(p.workers)) + match p.parent
                            case Testing => 2 * p.unsent + 2
                            case Sending => 2 * p.unsent + 1
                            case Reaping => 1
                            case Quit => 0
  }

  lemma {:induction false} StepIsCounted(p: Pool, a: Action)
    requires Inv(p) && Enabled(p, a) && !IsInterrupt(a)
    ensures StepsLeft(Apply(p, a)) < StepsLeft(p)
    ensures !p.stop ==> StepsLeft(Apply(p, a)) == StepsLeft(p) - 1
  {
    if a.Receive? || a.Finish? {
      var w := Apply(p, a).workers[a.i];
      SumOfUpdate(Toils(p.workers), a.i, Toil(w));
      assert Toils(Apply(p, a).workers) == Toils(p.workers)[a.i := Toil(w)];
    }
  }

  lemma {:induction false} StepsAreCounted(p: Pool, run: seq<Action>)
    requires Inv(p) && Legal(p, run) && !p.stop && NoInterrupts(run)
    ensures |run| == StepsLeft(p) - StepsLeft(After(p, run))
    decreases |run|
  {
    if run != [] {
      StepKeepsInv(p, run[0]);
      assert !IsInterrupt(run[0]) && NoInterrupts(run[1..]);
      StepIsCounted(p, run[0]);
      StepsAreCounted(Apply(p, run[0]), run[1..]);
    }
  }

  lemma {:induction false} NoStepsLeftIff(p: Pool)
    requires Inv(p) && (p.parent.Quit? ==> AllExited(p))
    ensures StepsLeft(p) >= 0
    ensures StepsLeft(p) == 0 <==> p.parent.Quit?
  {
    SumIsNonNegative(Toils(p.workers));
    if p.parent.Quit? {
      SumOfConstant(Toils(p.workers), 0);
    }
  }

  lemma {:induction false} StepsAtFirst(n: nat, capacity: nat)
    ensures StepsLeft(Opening(n, capacity)) == 4 * QUOTA * n + 2
  {
    SumOfConstant(Toils(Opening(n, capacity).workers), 2 * QUOTA);
  }

  /** Every undisturbed run that comes to its end takes the same number of steps, whatever the interleaving. */
  lemma {:induction false} RunLengthIsFixed(n: nat, capacity: nat, run: seq<Action>)
    requires capacity > 0 && Legal(Opening(n, capacity), run) && NoInterrupts(run)
    ensures |run| <= 4 * QUOTA * n + 2
    ensures |run| == 4 * QUOTA * n + 2 <==> After(Opening(n, capacity), run).parent.Quit?
  {
    var o := Opening(n, capacity);
    OpeningInv(n, capacity);
    RunKeepsInv(o, run);
    StepsAreCounted(o, run);
    UndisturbedRun(o, run);
    NoStepsLeftIff(After(o, run));
    StepsAtFirst(n, capacity);
  }
}
