/**
 Why the version that compares before it locks gives no order: two workers can both find a pair out of order and then
 exchange it one after the other. When that can happen is told from the start of the shift.
 */
module NightShiftRace {
  import opened Sequences
  import opened Inversions
  import opened NightShift
  import opened NightShiftSafety
  import opened NightShiftStock
  import opened NightShiftProgress
  import opened NightShiftManager

  /** After this run the step commits a swap that takes the shelves further from order. */
  ghost predicate Raises(s: Shop, run: seq<Action>, a: Action)
    requires Shaped(s)
  {
    && Legal(s, run) && Enabled(After(s, run), a) && IsCommit(After(s, run), a)
    && Disorder(View(Apply(After(s, run), a))) > Disorder(View(After(s, run)))
  }

  /** Worker w is about to lock the pair i, j that it found out of order. */
  predicate Wants(t: Shop, w: nat, i: nat, j: nat) {
    w < |t.workers| && t.workers[w].pc == WantLow && t.workers[w].lo == i && t.workers[w].hi == j
  }

  predicate AllFree(t: Shop) {
    t.mutexes == seq(MAX_SHELVES, _ => Free)
  }

  lemma {:induction false} Compare(s: Shop, run: seq<Action>, t: Shop, w: nat, i: nat, j: nat)
    returns (longer: seq<Action>, u: Shop)
    requires Shaped(s) && Legal(s, run) && t == After(s, run) && t.program == CompareBefore
    requires w < |t.workers| && t.workers[w].pc == Idle && t.workers[w].rounds > 0
    requires i < j < |t.shelves| && t.shelves[i] > t.shelves[j]
    ensures Legal(s, longer) && u == After(s, longer) && |u.workers| == |t.workers| && Wants(u, w, i, j)
    ensures u == t.(workers := t.workers[w := u.workers[w]])
  {
    longer, u := Grow(s, run, t, Pick(w, i, j));
    longer, u := Grow(s, longer, u, Advance(w));
    longer, u := Grow(s, longer, u, Advance(w));
  }

  /** Worker w holds its pair and has loaded it. */
  predicate Holds(t: Shop, w: nat, i: nat, j: nat) {
    && w < |t.workers| && t.workers[w].pc == StoreLow && t.workers[w].lo == i && t.workers[w].hi == j
    && i < j < |t.shelves| && t.workers[w].x == t.shelves[i] && t.workers[w].y == t.shelves[j]
  }

  lemma {:induction false} LockPair(s: Shop, run: seq<Action>, t: Shop, w: nat, i: nat, j: nat)
    returns (longer: seq<Action>, u: Shop)
    requires Shaped(s) && Legal(s, run) && t == After(s, run) && t.program == CompareBefore
    requires Wants(t, w, i, j) && i < j < |t.shelves| && AllFree(t)
    ensures Legal(s, longer) && u == After(s, longer) && |u.workers| == |t.workers| && u.workers[w].pc == LoadLow
    ensures u.workers[w] == t.workers[w].(pc := LoadLow)
    ensures u == t.(workers := t.workers[w := u.workers[w]],
                    mutexes := t.mutexes[MutexOf(t.program, i) := Held(w)][MutexOf(t.program, j) := Held(w)])
  {
    longer, u := Grow(s, run, t, Advance(w));
    longer, u := Grow(s, longer, u, Advance(w));
  }

  lemma {:induction false} LoadPair(s: Shop, run: seq<Action>, t: Shop, w: nat)
    returns (longer: seq<Action>, u: Shop)
    requires Shaped(s) && Legal(s, run) && t == After(s, run) && w < |t.workers| && t.workers[w].pc == LoadLow
    ensures Legal(s, longer) && u == After(s, longer) && |u.workers| == |t.workers|
    ensures Holds(u, w, t.workers[w].lo, t.workers[w].hi)
    ensures u == t.(workers := t.workers[w := u.workers[w]])
  {
    longer, u := Grow(s, run, t, Advance(w));
    longer, u := Grow(s, longer, u, Advance(w));
  }

  /** A worker that wants a pair takes it, whatever has become of it since the comparison. */
  lemma {:induction false} TakePair(s: Shop, run: seq<Action>, t: Shop, w: nat, i: nat, j: nat)
    returns (longer: seq<Action>, u: Shop)
    requires Shaped(s) && Legal(s, run) && t == After(s, run) && t.program == CompareBefore
    requires Wants(t, w, i, j) && i < j < |t.shelves| && AllFree(t)
    ensures Legal(s, longer) && u == After(s, longer) && |u.workers| == |t.workers| && Holds(u, w, i, j)
    ensures u == t.(workers := t.workers[w := u.workers[w]], mutexes := u.mutexes)
    ensures u.mutexes == t.mutexes[MutexOf(t.program, i) := Held(w)][MutexOf(t.program, j) := Held(w)]
  {
    longer, u := LockPair(s, run, t, w, i, j);
    longer, u := LoadPair(s, longer, u, w);
  }

  lemma {:induction false} StorePair(s: Shop, run: seq<Action>, t: Shop, w: nat, i: nat, j: nat)
    returns (longer: seq<Action>, u: Shop)
    requires Shaped(s) && Legal(s, run) && t == After(s, run) && Holds(t, w, i, j)
    ensures Legal(s, longer) && u == After(s, longer) && |u.workers| == |t.workers|
    ensures u.workers[w].pc == DropLow && u.workers[w].lo == i && u.workers[w].hi == j
    ensures u == t.(workers := t.workers[w := u.workers[w]], shelves := Swap(t.shelves, i, j))
  {
    longer, u := Grow(s, run, t, Advance(w));
    longer, u := Grow(s, longer, u, Advance(w));
  }

  lemma {:induction false} DropPair(s: Shop, run: seq<Action>, t: Shop, w: nat)
    returns (longer: seq<Action>, u: Shop)
    requires Shaped(s) && Legal(s, run) && t == After(s, run) && w < |t.workers| && t.workers[w].pc == DropLow
    ensures Legal(s, longer) && u == After(s, longer) && |u.workers| == |t.workers| && u.workers[w].pc == Idle
    ensures var p, k := t.program, t.workers[w];
            u == t.(workers := t.workers[w := u.workers[w]],
                    mutexes := t.mutexes[MutexOf(p, k.lo) := Free][MutexOf(p, k.hi) := Free])
  {
    longer, u := Grow(s, run, t, Advance(w));
    longer, u := Grow(s, longer, u, Advance(w));
  }

  /** A worker that wants a pair exchanges it undisturbed. */
  lemma {:induction false} ExchangePair(s: Shop, run: seq<Action>, t: Shop, w: nat, i: nat, j: nat)
    returns (longer: seq<Action>, u: Shop)
    requires Shaped(s) && Legal(s, run) && t == After(s, run) && t.program == CompareBefore
    requires Wants(t, w, i, j) && i < j < |t.shelves| && AllFree(t)
    ensures Legal(s, longer) && u == After(s, longer) && |u.workers| == |t.workers| && u.workers[w].pc == Idle
    ensures u == t.(workers := t.workers[w := u.workers[w]], shelves := Swap(t.shelves, i, j)) && AllFree(u)
  {
    longer, u := TakePair(s, run, t, w, i, j);
    longer, u := StorePair(s, longer, u, w, i, j);
    longer, u := DropPair(s, longer, u, w);
    assert u.mutexes == t.mutexes;
  }

  /** Both compare the same pair, and the second exchange undoes the first. */
  lemma {:induction false} RaceUndoesASwap(s: Shop) returns (run: seq<Action>, a: Action)
    requires Initial(s) && s.program == CompareBefore && |s.workers| >= 2 && !Sorted(s.shelves)
    ensures Raises(s, run, a)
  {
    var i := UnsortedHasAdjacentPair(s.shelves);
    var t: Shop;
    assert AllFree(s);
    run, t := Compare(s, [], s, 0, i, i + 1);
    run, t := Compare(s, run, t, 1, i, i + 1);
    run, t := ExchangePair(s, run, t, 0, i, i + 1);
    run, t := TakePair(s, run, t, 1, i, i + 1);
    a := Advance(1);
    InitialInv(s);
    RunKeepsInv(s, run);
    assert forall w :: 2 <= w < |s.workers| ==> t.workers[w] == s.workers[w];
    ViewAtRest(t);
    CommitSwapsView(t, 1);
    DisorderingSwapRaises(View(t), i, i + 1);
  }

  /** In sorted shelves no comparison finds anything. */
  ghost predicate NothingFound(s: Shop)
    requires Shaped(s)
  {
    && s.program == CompareBefore && Sorted(s.shelves)
    && forall w :: 0 <= w < |s.workers| ==>
         var k := s.workers[w];
         && (k.pc == Idle || k.pc == ReadLow || k.pc == ReadHigh || k.pc == Exited || k.pc == Dead)
         && (k.pc == ReadHigh ==> k.seen == s.shelves[k.lo])
  }

  lemma {:induction false} NothingIsFound(s: Shop, run: seq<Action>)
    requires Shaped(s) && NothingFound(s) && Legal(s, run)
    ensures NothingFound(After(s, run))
    decreases |run|
  {
    if run != [] {
      NothingIsFound(Apply(s, run[0]), run[1..]);
    }
  }

  /** A worker without company: what it has compared is still so. */
  ghost predicate Unrivalled(s: Shop)
    requires Shaped(s)
  {
    && s.program == CompareBefore && |s.workers| <= 1
    && forall w :: 0 <= w < |s.workers| ==>
         var k := s.workers[w];
         && (k.pc == ReadHigh ==> k.seen == s.shelves[k.lo])
         && (k.pc == WantLow || k.pc == WantHigh || k.pc == LoadLow || k.pc == LoadHigh || k.pc == StoreLow ==>
               s.shelves[k.lo] > s.shelves[k.hi])
  }

  lemma {:induction false} NoRivalAppears(s: Shop, run: seq<Action>)
    requires Shaped(s) && Unrivalled(s) && Legal(s, run)
    ensures Unrivalled(After(s, run))
    decreases |run|
  {
    if run != [] {
      NoRivalAppears(Apply(s, run[0]), run[1..]);
    }
  }

  /**
   In the version that compares before it locks some run raises the inversion count exactly when there are two workers
   and something to sort.
   */
  lemma {:induction false} CommitCanRaiseIff(s: Shop)
    requires Initial(s) && s.program == CompareBefore
    ensures (exists run, a :: Raises(s, run, a)) <==> |s.workers| >= 2 && !Sorted(s.shelves)
  {
    if |s.workers| >= 2 && !Sorted(s.shelves) {
      var run, a := RaceUndoesASwap(s);
    }
    forall run, a | Raises(s, run, a)
      ensures |s.workers| >= 2 && !Sorted(s.shelves)
    {
      if Sorted(s.shelves) {
        NothingIsFound(s, run);
      } else if |s.workers| <= 1 {
        NoRivalAppears(s, run);
        InitialInv(s);
        RunKeepsInv(s, run);
        CommitLowersIffOutOfOrder(After(s, run), a);
      }
    }
  }
}
