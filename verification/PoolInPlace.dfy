/** The pool in place: the parent's loop variable, the workers' counters, and the queue between them. */
module PoolInPlace {
  import opened WorkerPool

  class Workshop {
    const capacity: nat
    const workers: array<Worker>
    var queue: seq<nat>
    var unsent: nat
    var stop: bool
    var parent: Parent
    var failed: bool
    var taken: seq<nat>

    ghost function State(): (p: Pool)
      reads this, workers
    {
      Pool(capacity, queue, unsent, stop, parent, workers[..], taken, failed)
    }

    constructor (n: nat, capacity: nat)
      ensures fresh(workers) && State() == Opening(n, capacity)
    {
      this.capacity := capacity;
      workers := new Worker[n](_ => Waiting(0));
      queue, unsent, stop, parent, failed, taken := [], QUOTA * n, false, Testing, false, [];
    }

    /** A worker takes the oldest task. */
    method Receive(i: nat)
      requires Enabled(State(), Action.Receive(i))
      modifies this, workers
      ensures State() == Apply(old(State()), Action.Receive(i))
    {
      workers[i] := Working(workers[i].done, queue[0]);
      taken := taken + [queue[0]];
      queue := queue[1..];
    }

    /** A worker counts one task more, and leaves after the fifth. */
    method Finish(i: nat)
      requires Enabled(State(), Action.Finish(i))
      modifies workers
      ensures State() == Apply(old(State()), Action.Finish(i))
    {
      var done := workers[i].done + 1;
      workers[i] := if done < QUOTA then Waiting(done) else Exited;
    }

    /** Any step of any process; a new task gets the next number. */
    method Perform(a: Action)
      requires Enabled(State(), a)
      modifies this, workers
      ensures State() == Apply(old(State()), a)
    {
      match a {
        case Test =>
          parent := if !stop && unsent > 0 then Sending else Reaping;
        case Send =>
          queue, parent := queue + [|taken| + |queue|], Testing;
          unsent := if unsent > 0 then unsent - 1 else 0;
        case Reap =>
          parent := Quit;
        case Receive(i) =>
          Receive(i);
        case Finish(i) =>
          Finish(i);
        case Interrupt(blocked) =>
          if !blocked {
            stop := true;
          } else if parent.Sending? {
            failed := true;
          } else {
            parent := Quit;
          }
        case InterruptWorker(i) =>
          failed := true;
      }
    }

    /**
     A whole run without signals, as long as it goes: every worker does its five tasks and leaves, in the end the parent
     too, and the tasks are handed out once each, in the order of sending.
     */
    method Play(schedule: seq<Action>)
      requires capacity > 0 && State() == Opening(workers.Length, capacity)
      requires Legal(State(), schedule) && NoInterrupts(schedule) && |schedule| >= 4 * QUOTA * workers.Length + 2
      modifies this, workers
      ensures State() == After(old(State()), schedule)
      ensures parent.Quit? && queue == [] && taken == Tasks(QUOTA * workers.Length)
      ensures forall i :: 0 <= i < workers.Length ==> workers[i].Exited?
    {
      ghost var start := State();
      RunLengthIsFixed(workers.Length, capacity, schedule);
      NoDeadlock(workers.Length, capacity, schedule);
      for k := 0 to |schedule|
        invariant Legal(State(), schedule[k..]) && After(State(), schedule[k..]) == After(start, schedule)
      {
        Perform(schedule[k]);
        assert schedule[k..][1..] == schedule[k + 1..];
      }
      assert AllExited(State());
    }
  }
}
