/** Which task each worker works on, told from the workers: they come in the order of sending, and each is done once. */
module PoolRecord {
  import opened WorkerPool

  /** The task that a worker has in hand after this step, if it is a receipt. */
  function GotNow(p: Pool, a: Action): seq<nat>
    requires Enabled(p, a)
  {
    if a.Receive? then [Apply(p, a).workers[a.i].task] else []
  }

  /** The task that a worker has in hand before this step, if it finishes it. */
  function DoneNow(p: Pool, a: Action): seq<nat>
    requires Enabled(p, a)
  {
    if a.Finish? then [p.workers[a.i].task] else []
  }

  /** The tasks received in a run, in order, by whomever. */
  function Got(p: Pool, run: seq<Action>): seq<nat>
    requires Legal(p, run)
    decreases |run|
  {
    if run == [] then [] else GotNow(p, run[0]) + Got(Apply(p, run[0]), run[1..])
  }

  /** The tasks finished in a run, in order. */
  function Done(p: Pool, run: seq<Action>): seq<nat>
    requires Legal(p, run)
    decreases |run|
  {
    if run == [] then [] else DoneNow(p, run[0]) + Done(Apply(p, run[0]), run[1..])
  }

  lemma {:induction false} TakenIsGot(p: Pool, run: seq<Action>)
    requires Legal(p, run)
    ensures After(p, run).taken == p.taken + Got(p, run)
    decreases |run|
  {
    if run != [] {
      var t := Apply(p, run[0]);
      TakenIsGot(t, run[1..]);
      assert t.taken == p.taken + GotNow(p, run[0]);
      assert (p.taken + GotNow(p, run[0])) + Got(t, run[1..]) == p.taken + (GotNow(p, run[0]) + Got(t, run[1..]));
    }
  }

  /** How many receipts a schedule has. */
  function Receives(run: seq<Action>): nat {
    if run == [] then 0 else (if run[0].Receive? then 1 else 0) + Receives(run[1..])
  }

  lemma {:induction false} GotAsManyAsReceived(p: Pool, run: seq<Action>)
    requires Legal(p, run)
    ensures |Got(p, run)| == Receives(run)
    decreases |run|
  {
    if run != [] {
      GotAsManyAsReceived(Apply(p, run[0]), run[1..]);
    }
  }

  /** The k-th receipt of a run, whoever's it is, is of the k-th task sent. */
  lemma {:induction false} TasksComeInOrder(n: nat, capacity: nat, run: seq<Action>)
    requires Legal(Opening(n, capacity), run)
    ensures Got(Opening(n, capacity), run) == Tasks(Receives(run))
  {
    var o := Opening(n, capacity);
    var p := After(o, run);
    OpeningInv(n, capacity);
    RunKeepsInv(o, run);
    TakenIsGot(o, run);
    GotAsManyAsReceived(o, run);
    assert p.taken == [] + Got(o, run) == Got(o, run);
    assert forall k :: 0 <= k < |p.taken| ==> p.taken[k] == (p.taken + p.queue)[k];
  }

  /** The task of a worker at work. */
  function InHand(w: Worker): multiset<nat> {
    if w.Working? then multiset{w.task} else multiset{}
  }

  function AtWork(ws: seq<Worker>): multiset<nat> {
    if ws == [] then multiset{} else InHand(ws[0]) + AtWork(ws[1..])
  }

  lemma Alongside(h: multiset<nat>, a: multiset<nat>, x: multiset<nat>, b: multiset<nat>, w: multiset<nat>)
    requires a + x == b + w
    ensures (h + a) + x == (h + b) + w
  {
    assert (h + a) + x == h + (a + x);
  }

  lemma Exchanged(a: multiset<nat>, x: multiset<nat>, w: multiset<nat>)
    ensures (w + a) + x == (x + a) + w
  {}

  lemma OneAfterTheOther(a: multiset<nat>, g: multiset<nat>, b: multiset<nat>, d: multiset<nat>,
                         gs: multiset<nat>, c: multiset<nat>, ds: multiset<nat>)
    requires a + g == b + d && b + gs == c + ds
    ensures a + (g + gs) == c + (d + ds)
  {
    assert a + (g + gs) == (a + g) + gs;
    assert (b + d) + gs == (b + gs) + d;
    assert (c + ds) + d == c + (d + ds);
  }

  lemma {:induction false} AtWorkChanges(ws: seq<Worker>, i: nat, w: Worker)
    requires i < |ws|
    ensures AtWork(ws[i := w]) + InHand(ws[i]) == AtWork(ws) + InHand(w)
  {
    if i == 0 {
      assert ws[0 := w][1..] == ws[1..];
      Exchanged(AtWork(ws[1..]), InHand(ws[0]), InHand(w));
    } else {
      assert ws[i := w][1..] == ws[1..][i - 1 := w];
      AtWorkChanges(ws[1..], i - 1, w);
      Alongside(InHand(ws[0]), AtWork(ws[1..][i - 1 := w]), InHand(ws[i]), AtWork(ws[1..]), InHand(w));
    }
  }

  lemma {:induction false} NobodyAtWork(ws: seq<Worker>)
    requires forall i :: 0 <= i < |ws| ==> !ws[i].Working?
    ensures AtWork(ws) == multiset{}
  {
    if ws != [] {
      NobodyAtWork(ws[1..]);
    }
  }

  lemma {:induction false} StepKeepsTasks(p: Pool, a: Action)
    requires Enabled(p, a)
    ensures AtWork(p.workers) + multiset(GotNow(p, a)) == AtWork(Apply(p, a).workers) + multiset(DoneNow(p, a))
  {
    if a.Receive? || a.Finish? {
      AtWorkChanges(p.workers, a.i, Apply(p, a).workers[a.i]);
    }
  }

  lemma {:induction false} TasksAreKept(p: Pool, run: seq<Action>)
    requires Legal(p, run)
    ensures AtWork(p.workers) + multiset(Got(p, run)) == AtWork(After(p, run).workers) + multiset(Done(p, run))
    decreases |run|
  {
    if run != [] {
      var t := Apply(p, run[0]);
      StepKeepsTasks(p, run[0]);
      TasksAreKept(t, run[1..]);
      OneAfterTheOther(AtWork(p.workers), multiset(GotNow(p, run[0])), AtWork(t.workers), multiset(DoneNow(p, run[0])),
                       multiset(Got(t, run[1..])), AtWork(After(t, run[1..]).workers), multiset(Done(t, run[1..])));
    }
  }

  /** The tasks at work and those finished are, each once, the tasks received so far: the first ones sent. */
  lemma {:induction false} EveryTaskIsInOneHand(n: nat, capacity: nat, run: seq<Action>)
    requires Legal(Opening(n, capacity), run)
    ensures var o := Opening(n, capacity);
            AtWork(After(o, run).workers) + multiset(Done(o, run)) == multiset(Tasks(Receives(run)))
  {
    var o := Opening(n, capacity);
    TasksComeInOrder(n, capacity, run);
    TasksAreKept(o, run);
    NobodyAtWork(o.workers);
  }

  lemma {:induction false} HandIsAtWork(ws: seq<Worker>, i: nat)
    requires i < |ws| && ws[i].Working?
    ensures AtWork(ws)[ws[i].task] >= 1
  {
    if i > 0 {
      HandIsAtWork(ws[1..], i - 1);
    }
  }

  lemma {:induction false} TwoHandsAtWork(ws: seq<Worker>, i: nat, j: nat)
    requires i < j < |ws| && ws[i].Working? && ws[j].Working? && ws[i].task == ws[j].task
    ensures AtWork(ws)[ws[i].task] >= 2
  {
    if i == 0 {
      HandIsAtWork(ws[1..], j - 1);
    } else {
      TwoHandsAtWork(ws[1..], i - 1, j - 1);
    }
  }

  lemma {:induction false} TaskIsOnce(k: nat, task: nat)
    ensures multiset(Tasks(k))[task] == if task < k then 1 else 0
  {
    if k > 0 {
      assert Tasks(k) == Tasks(k - 1) + [k - 1];
      TaskIsOnce(k - 1, task);
    }
  }

  /** No two workers are at work on one task, and nobody is at work on a task that has been finished. */
  lemma {:induction false} NoTaskTwice(n: nat, capacity: nat, run: seq<Action>, i: nat, j: nat)
    requires Legal(Opening(n, capacity), run) && i < n && j < n
    requires After(Opening(n, capacity), run).workers[i].Working?
    ensures var ws := After(Opening(n, capacity), run).workers;
            && ws[i].task !in Done(Opening(n, capacity), run)
            && (i != j && ws[j].Working? ==> ws[i].task != ws[j].task)
  {
    var o := Opening(n, capacity);
    var ws := After(o, run).workers;
    EveryTaskIsInOneHand(n, capacity, run);
    TaskIsOnce(Receives(run), ws[i].task);
    HandIsAtWork(ws, i);
    assert (AtWork(ws) + multiset(Done(o, run)))[ws[i].task] <= 1;
    assert multiset(Done(o, run))[ws[i].task] == 0;
    if i != j && ws[j].Working? && ws[i].task == ws[j].task {
      TwoHandsAtWork(ws, if i < j then i else j, if i < j then j else i);
    }
  }

  lemma {:induction false} ReceivesAreTaken(p: Pool, run: seq<Action>)
    requires Legal(p, run)
    ensures |After(p, run).taken| == |p.taken| + Receives(run)
  {
    TakenIsGot(p, run);
    GotAsManyAsReceived(p, run);
  }

  /** At the undisturbed end every task has been received, and finished, exactly once. */
  lemma {:induction false} EveryTaskIsDoneOnce(n: nat, capacity: nat, run: seq<Action>)
    requires capacity > 0 && Legal(Opening(n, capacity), run) && NoInterrupts(run)
    requires After(Opening(n, capacity), run).parent.Quit?
    ensures Got(Opening(n, capacity), run) == Tasks(QUOTA * n)
    ensures multiset(Done(Opening(n, capacity), run)) == multiset(Tasks(QUOTA * n))
  {
    var o := Opening(n, capacity);
    NoDeadlock(n, capacity, run);
    ReceivesAreTaken(o, run);
    TasksComeInOrder(n, capacity, run);
    EveryTaskIsInOneHand(n, capacity, run);
    NobodyAtWork(After(o, run).workers);
  }
}
