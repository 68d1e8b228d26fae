/** The shared memory changed in place, step by step, and the division loop as the parent runs it undisturbed. */
module SharedMemory {
  import opened Sequences
  import opened Completion
  import opened CompletionProgress

  class Memory {
    const pids: seq<int>
    const children: array<Child>
    var counter: int
    var finished: int
    var ready: bool
    var owner: Owner
    var parent: Parent

    ghost function State(): (s: System)
      reads this, children
    {
      System(pids, counter, finished, ready, owner, children[..], parent)
    }

    /** Only the counter is set; the other two fields keep what memory held. */
    constructor (pids: seq<int>, f: int, r: bool)
      ensures fresh(children) && State() == Opening(pids, f, r)
    {
      this.pids := pids;
      children := new Child[|pids|](_ => Unborn);
      counter, finished, ready, owner, parent := 0, f, r, Free, Forking(0);
      new;
      assert children[..] == seq(|pids|, _ => Unborn);
    }

    method AdvanceChild(i: nat)
      requires |pids| == children.Length && Enabled(State(), StepChild(i))
      modifies this, children
      ensures State() == Apply(old(State()), StepChild(i))
    {
      match children[i] {
        case Ready =>
          owner, children[i] := ByChild(i), Adding;
        case Adding =>
          children[i] := AddLoaded(counter);
        case AddLoaded(v) =>
          counter, children[i] := v + pids[i], Added;
        case Added =>
          owner, children[i] := Free, Resting;
        case Resting =>
          owner, children[i] := ByChild(i), Counting;
        case Counting =>
          children[i] := CountLoaded(finished);
        case CountLoaded(v) =>
          finished, children[i] := v + 1, Testing;
        case Testing =>
          children[i] := if finished == children.Length then Raising else Leaving;
        case Raising =>
          ready, children[i] := true, Signalling;
        case Signalling =>
          if parent == Asleep {
            parent := Waking;
          }
          children[i] := Leaving;
        case Leaving =>
          owner, children[i] := Free, Gone;
      }
    }

    method AdvanceParent()
      requires |pids| == children.Length && Enabled(State(), StepParent)
      modifies this, children
      ensures State() == Apply(old(State()), StepParent)
    {
      var n := children.Length;
      match parent {
        case Forking(k) =>
          if k < n {
            children[k] := Ready;
            parent := Forking(k + 1);
          } else {
            parent := Locking;
          }
        case Locking =>
          owner, parent := ByParent, Checking;
        case Checking =>
          if ready {
            parent := Passing;
          } else {
            owner, parent := Free, Asleep;
          }
        case Waking =>
          owner, parent := ByParent, Checking;
        case Passing =>
          owner, parent := Free, Dividing(0);
        case Dividing(k) =>
          if k < n {
            owner, parent := ByParent, DivHolding(k);
          } else {
            parent := Done;
          }
        case DivHolding(k) =>
          parent := DivLoaded(k, counter);
        case DivLoaded(k, v) =>
          counter := if n == 0 then v else Truncated(v, n);
          parent := DivStored(k);
        case DivStored(k) =>
          owner, parent := Free, Dividing(k + 1);
      }
    }

    /** A whole run on fresh memory: if it gets to its end, it leaves the quotient. */
    method Play(schedule: seq<Action>)
      requires State() == Opening(pids, 0, false) && Legal(State(), schedule)
      requires forall i :: 0 <= i < |pids| ==> pids[i] > 0
      modifies this, children
      ensures |pids| == children.Length && State() == After(Opening(pids, 0, false), schedule)
      ensures parent.Done? ==>
                Power(|pids|, |pids|) > 0 && counter == Sum(pids) / Power(|pids|, |pids|)
    {
      for k := 0 to |schedule|
        invariant |pids| == children.Length && Legal(State(), schedule[k..])
        invariant After(State(), schedule[k..]) == After(Opening(pids, 0, false), schedule)
      {
        match schedule[k] {
          case StepChild(i) =>
            AdvanceChild(i);
          case StepParent =>
            AdvanceParent();
          case WakeUp =>
            parent := Waking;
        }
        assert schedule[k..][1..] == schedule[k + 1..];
      }
      if parent.Done? {
        FinalCounter(pids, schedule);
      }
    }

    /** The division loop, when nobody else takes the mutex any more. */
    method Operation()
      requires |pids| == children.Length && parent == Dividing(0) && owner == Free
      modifies this`counter, this`parent
      ensures parent == Dividing(children.Length) && Reaches(old(State()), State())
      ensures children.Length == 0 ==> counter == old(counter)
      ensures children.Length > 0 && old(counter) >= 0 ==>
                Power(children.Length, children.Length) > 0
                && counter == old(counter) / Power(children.Length, children.Length)
    {
      var n := children.Length;
      ghost var start := State();
      ReachesItself(start);
      for k := 0 to n
        invariant parent == Dividing(k) && Reaches(start, State())
        invariant n == 0 ==> counter == old(counter)
        invariant n > 0 ==> counter == Divided(old(counter), n, k)
      {
        OneDivision(start, State(), k);
        counter := Truncated(counter, n);
        parent := Dividing(k + 1);
      }
      if n > 0 && old(counter) >= 0 {
        DividedIsQuotient(old(counter), n, n);
      }
    }
  }

  lemma {:induction false} OneDivision(s: System, h: System, k: nat)
    requires |s.pids| == |s.children| == |h.pids| == |h.children| && Reaches(s, h)
    requires h.parent == Dividing(k) && k < |h.children| && h.owner == Free
    ensures Reaches(s, h.(counter := Truncated(h.counter, |h.children|), parent := Dividing(k + 1)))
  {
    ReachesNext(s, h, StepParent);
    var t := ParentStep(h);
    ReachesNext(s, t, StepParent);
    t := ParentStep(t);
    ReachesNext(s, t, StepParent);
    t := ParentStep(t);
    ReachesNext(s, t, StepParent);
    t := ParentStep(t);
    assert t == h.(counter := Truncated(h.counter, |h.children|), parent := Dividing(k + 1));
  }
}
