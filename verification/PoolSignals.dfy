/** What SIGINT does to the pool, told from the schedule: how sending stops, and which calls it makes fail. */
module PoolSignals {
  import opened WorkerPool

  /** A signal that makes a blocked send or receive fail, which takes the whole process group down. */
  predicate IsFatal(p: Pool, a: Action) {
    a.InterruptWorker? || (a == Interrupt(true) && p.parent.Sending?)
  }

  /** A step after which the parent no longer waits: all workers have left, or a signal ends its wait early. */
  predicate EndsWait(p: Pool, a: Action) {
    a == Reap || (a == Interrupt(true) && p.parent.Reaping?)
  }

  predicate HasFatal(p: Pool, run: seq<Action>)
    requires Legal(p, run)
    decreases |run|
  {
    run != [] && (IsFatal(p, run[0]) || HasFatal(Apply(p, run[0]), run[1..]))
  }

  predicate HasEnd(p: Pool, run: seq<Action>)
    requires Legal(p, run)
    decreases |run|
  {
    run != [] && (EndsWait(p, run[0]) || HasEnd(Apply(p, run[0]), run[1..]))
  }

  lemma {:induction false} SignalsAreFelt(p: Pool, run: seq<Action>)
    requires Legal(p, run)
    ensures var q := After(p, run);
            && (q.failed <==> p.failed || HasFatal(p, run))
            && (q.parent.Quit? <==> p.parent.Quit? || HasEnd(p, run))
            && (q.stop <==> p.stop || Interrupt(false) in run)
    decreases |run|
  {
    if run != [] {
      assert run == [run[0]] + run[1..];
      SignalsAreFelt(Apply(p, run[0]), run[1..]);
    }
  }

  /**
   In every run from the opening: it has failed exactly when a signal has found a blocked send or receive; the parent
   has gone exactly when it has reaped all its workers or a signal has found it waiting for them; and the stop flag is
   up exactly when a signal has found the parent running.
   */
  lemma {:induction false} SignalsTakeEffect(n: nat, capacity: nat, run: seq<Action>)
    requires Legal(Opening(n, capacity), run)
    ensures var p := After(Opening(n, capacity), run);
            && (p.failed <==> HasFatal(Opening(n, capacity), run))
            && (p.parent.Quit? <==> HasEnd(Opening(n, capacity), run))
            && (p.stop <==> Interrupt(false) in run)
  {
    SignalsAreFelt(Opening(n, capacity), run);
  }

  /** How many tasks a schedule sends. */
  function Sends(run: seq<Action>): nat {
    if run == [] then 0 else (if run[0].Send? then 1 else 0) + Sends(run[1..])
  }

  /** Once the flag is up at most the task just being sent is sent. */
  lemma {:induction false} StopEndsSending(p: Pool, run: seq<Action>)
    requires Legal(p, run) && p.stop
    ensures Sends(run) <= if p.parent.Sending? then 1 else 0
    decreases |run|
  {
    if run != [] {
      StopEndsSending(Apply(p, run[0]), run[1..]);
    }
  }

  /** What has been sent and what is left to send are together five tasks for every worker. */
  lemma {:induction false} SentAndUnsent(p: Pool, run: seq<Action>)
    requires Inv(p) && Legal(p, run)
    ensures After(p, run).unsent + Sends(run) == p.unsent
    decreases |run|
  {
    if run != [] {
      StepKeepsInv(p, run[0]);
      SentAndUnsent(Apply(p, run[0]), run[1..]);
    }
  }
}
