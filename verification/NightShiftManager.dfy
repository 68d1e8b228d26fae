/**
 The manager's verdict. The scan reads the shelves without locks, so it can be wrong; this module says exactly when it
 is right, and what follows for the shelves that are printed at the end of the night.
 */
module NightShiftManager {
  import opened Sequences
  import opened NightShift
  import opened NightShiftSafety
  import opened NightShiftStock

  predicate Scanning(m: Manager) {
    m.ScanLeft? || m.ScanRight?
  }

  /** The scan under way has already loaded shelf p. */
  predicate AlreadyRead(m: Manager, p: nat) {
    match m
    case ScanLeft(k) => k > 0 && p <= k
    case ScanRight(k, _) => p <= k
    case _ => false
  }

  /** A store to a shelf behind the manager's back. */
  predicate Disturbs(s: Shop, a: Action) {
    && a.Advance? && a.w < |s.workers|
    && var k := s.workers[a.w];
       || (k.pc == StoreLow && AlreadyRead(s.manager, k.lo))
       || (k.pc == StoreHigh && AlreadyRead(s.manager, k.hi))
  }

  /** A stretch of a run during one scan in which no shelf that the scan has read is stored to. */
  predicate Undisturbed(s: Shop, run: seq<Action>)
    requires Shaped(s)
    decreases |run|
  {
    run == [] || (Scanning(s.manager) && Enabled(s, run[0]) && !Disturbs(s, run[0])
                  && Undisturbed(Apply(s, run[0]), run[1..]))
  }

  lemma {:induction false} UndisturbedIsLegal(s: Shop, run: seq<Action>)
    requires Shaped(s) && Undisturbed(s, run)
    ensures Legal(s, run)
    decreases |run|
  {
    if run != [] {
      UndisturbedIsLegal(Apply(s, run[0]), run[1..]);
    }
  }

  /** What an undisturbed scan knows so far. */
  ghost predicate Knows(s: Shop)
    requires Shaped(s)
  {
    match s.manager
    case ScanLeft(k) => SortedUpTo(s.shelves, k)
    case ScanRight(k, left) => SortedUpTo(s.shelves, k) && left == s.shelves[k]
    case Accepted => SortedUpTo(s.shelves, |s.shelves| - 1)
    case _ => true
  }

  lemma {:induction false} StepKeepsKnows(s: Shop, a: Action)
    requires Shaped(s) && Knows(s) && Scanning(s.manager) && Enabled(s, a) && !Disturbs(s, a)
    ensures Knows(Apply(s, a))
    ensures Apply(s, a).manager == Asleep ==> !Sorted(Apply(s, a).shelves)
  {
    if a == Scan && s.manager.ScanRight? && s.manager.left > s.shelves[s.manager.k + 1] {
      assert s.shelves[s.manager.k] > s.shelves[s.manager.k + 1];
    }
  }

  lemma {:induction false} VerdictByInduction(s: Shop, run: seq<Action>)
    requires Shaped(s) && Knows(s) && Scanning(s.manager) && Undisturbed(s, run)
    requires Legal(s, run) && !Scanning(After(s, run).manager)
    ensures After(s, run).manager == Accepted || After(s, run).manager == Asleep
    ensures After(s, run).manager == Accepted <==> Sorted(After(s, run).shelves)
    decreases |run|
  {
    var t := Apply(s, run[0]);
    StepKeepsKnows(s, run[0]);
    if run[1..] == [] {
      if t.manager == Accepted {
        AdjacentMeansSorted(t.shelves, |t.shelves| - 1);
        assert t.shelves[..|t.shelves|] == t.shelves;
      }
    } else {
      VerdictByInduction(t, run[1..]);
    }
  }

  /** A scan behind whose back nothing is stored accepts if and only if the shelves are in order when it ends. */
  lemma {:induction false} UndisturbedVerdictIsExact(s: Shop, run: seq<Action>)
    requires Shaped(s) && s.manager == ScanLeft(0) && Undisturbed(s, run)
    ensures Legal(s, run)
    ensures !Scanning(After(s, run).manager) ==>
              (After(s, run).manager == Accepted <==> Sorted(After(s, run).shelves))
  {
    UndisturbedIsLegal(s, run);
    if !Scanning(After(s, run).manager) {
      VerdictByInduction(s, run);
    }
  }

  /** No worker is between its two stores. */
  predicate NoSwapInFlight(s: Shop) {
    forall w :: 0 <= w < |s.workers| ==> s.workers[w].pc != StoreHigh
  }

  lemma {:induction false} StepKeepsOrder(s: Shop, a: Action)
    requires Inv(s) && Enabled(s, a) && s.program == CompareInside && Sorted(s.shelves) && NoSwapInFlight(s)
    ensures Apply(s, a).shelves == s.shelves && NoSwapInFlight(Apply(s, a))
  {
    if a.Advance? {
      assert SoundAt(s, a.w);
    }
  }

  /** Sorted is absorbing: once in order with no swap in flight, the shelves are never written again. */
  lemma {:induction false} OrderIsAbsorbing(s: Shop, run: seq<Action>)
    requires Inv(s) && Legal(s, run) && s.program == CompareInside && Sorted(s.shelves) && NoSwapInFlight(s)
    ensures After(s, run).shelves == s.shelves && NoSwapInFlight(After(s, run))
    decreases |run|
  {
    if run != [] {
      StepKeepsInv(s, run[0]);
      StepKeepsOrder(s, run[0]);
      OrderIsAbsorbing(Apply(s, run[0]), run[1..]);
    }
  }

  lemma {:induction false} RunsCompose(s: Shop, first: seq<Action>, second: seq<Action>)
    requires Shaped(s) && Legal(s, first) && Legal(After(s, first), second)
    ensures Legal(s, first + second) && After(s, first + second) == After(After(s, first), second)
    ensures Losses(s, first + second) == Losses(s, first) + Losses(After(s, first), second)
    decreases |first|
  {
    if first == [] {
      assert first + second == second;
    } else {
      assert (first + second)[1..] == first[1..] + second;
      RunsCompose(Apply(s, first[0]), first[1..], second);
    }
  }

  lemma {:induction false} InFlightShowsTwice(s: Shop)
    requires Inv(s) && s.program == CompareInside && !NoSwapInFlight(s)
    ensures !Distinct(s.shelves)
  {
    var w :| 0 <= w < |s.workers| && s.workers[w].pc == StoreHigh;
    assert SoundAt(s, w);
    assert s.shelves[s.workers[w].lo] == s.shelves[s.workers[w].hi];
  }

  /**
   The night ends well. Let a run without a death between stores reach the start of a scan, and let that scan be
   undisturbed and accept. The shelves are then exactly 1..N if and only if no swap is in flight at that moment, and in
   that case they are 1..N in every later state, the final print included.
   */
  lemma {:induction false} AcceptedNightIsInOrder(s: Shop, before: seq<Action>, scan: seq<Action>, rest: seq<Action>)
    requires Initial(s) && s.program == CompareInside && Legal(s, before) && After(s, before).manager == ScanLeft(0)
    requires Undisturbed(After(s, before), scan) && Legal(After(s, before), scan)
    requires Losses(s, before) == 0 && Losses(After(s, before), scan) == 0
    requires After(After(s, before), scan).manager == Accepted
    requires Legal(After(After(s, before), scan), rest)
    ensures var t := After(After(s, before), scan);
            && (t.shelves == Stock(|s.shelves|) <==> NoSwapInFlight(t))
            && (NoSwapInFlight(t) ==> After(t, rest).shelves == Stock(|s.shelves|))
  {
    var u := After(s, before);
    var t := After(u, scan);
    InitialInv(s);
    RunKeepsInv(s, before);
    RunKeepsInv(u, scan);
    UndisturbedVerdictIsExact(u, scan);
    if NoSwapInFlight(t) {
      RunsCompose(s, before, scan);
      StockKeptIffNoLoss(s, before + scan);
      ViewAtRest(t);
      SortedIsUnique(t.shelves, Stock(|s.shelves|));
      OrderIsAbsorbing(t, rest);
    } else {
      InFlightShowsTwice(t);
    }
  }

  /** One more step at the end of a run. */
  lemma {:induction false} Grow(s: Shop, run: seq<Action>, t: Shop, a: Action) returns (longer: seq<Action>, u: Shop)
    requires Shaped(s) && Legal(s, run) && t == After(s, run) && Enabled(t, a)
    ensures longer == run + [a] && Legal(s, longer) && u == After(s, longer) == Apply(t, a)
    ensures Losses(s, longer) == Losses(s, run) + if IsLoss(t, a) then 1 else 0
  {
    longer, u := run + [a], Apply(t, a);
    assert [a][1..] == [];
    RunsCompose(s, run, [a]);
  }

  /** Left to itself, a scan of shelves that are in order from its position on goes through. */
  lemma {:induction false} ScanGoesThrough(s: Shop, run: seq<Action>, t: Shop)
    returns (longer: seq<Action>, u: Shop)
    requires Shaped(s) && Legal(s, run) && t == After(s, run) && t.manager.ScanLeft?
    requires forall i :: t.manager.k <= i < |t.shelves| - 1 ==> t.shelves[i] <= t.shelves[i + 1]
    ensures Legal(s, longer) && u == After(s, longer) == t.(manager := Accepted)
    ensures Losses(s, longer) == Losses(s, run)
    decreases |t.shelves| - t.manager.k
  {
    longer, u := Grow(s, run, t, Scan);
    if u.manager != Accepted {
      longer, u := Grow(s, longer, u, Scan);
      longer, u := ScanGoesThrough(s, longer, u);
    }
  }

  /** One worker, free mutexes, the given shelves. */
  function Opening(shelves: seq<int>): Shop {
    Shop(CompareInside, shelves, seq(MAX_SHELVES, _ => Free), [Worker(Idle, 0, 0, 0, 0, 0, ROUNDS)], true, Asleep)
  }

  /** The only worker picks shelves i and j and locks them. */
  lemma {:induction false} UpToLocks(s: Shop, run: seq<Action>, t: Shop, i: nat, j: nat)
    returns (longer: seq<Action>, u: Shop)
    requires Shaped(s) && Legal(s, run) && t == After(s, run) && t.program == CompareInside && t.run
    requires |t.workers| == 1 && t.workers[0].pc == Idle && i < j < |t.shelves|
    requires t.mutexes == seq(MAX_SHELVES, _ => Free)
    ensures Legal(s, longer) && u == After(s, longer) && Losses(s, longer) == Losses(s, run)
    ensures u.shelves == t.shelves && u.manager == t.manager && |u.workers| == 1 && u.program == CompareInside
    ensures u.workers[0].pc == ReadLow && u.workers[0].lo == i && u.workers[0].hi == j
  {
    longer, u := Grow(s, run, t, Pick(0, i, j));
    longer, u := Grow(s, longer, u, Advance(0));
    longer, u := Grow(s, longer, u, Advance(0));
  }

  /** It finds them out of order. */
  lemma {:induction false} UpToComparison(s: Shop, run: seq<Action>, t: Shop, i: nat, j: nat)
    returns (longer: seq<Action>, u: Shop)
    requires Shaped(s) && Legal(s, run) && t == After(s, run) && t.program == CompareInside && t.run
    requires |t.workers| == 1 && t.workers[0].pc == Idle && i < j < |t.shelves| && t.shelves[i] > t.shelves[j]
    requires t.mutexes == seq(MAX_SHELVES, _ => Free)
    ensures Legal(s, longer) && u == After(s, longer) && Losses(s, longer) == Losses(s, run)
    ensures u.shelves == t.shelves && u.manager == t.manager && |u.workers| == 1 && u.program == CompareInside
    ensures u.workers[0].pc == LoadLow && u.workers[0].lo == i && u.workers[0].hi == j
  {
    longer, u := UpToLocks(s, run, t, i, j);
    longer, u := Grow(s, longer, u, Advance(0));
    longer, u := Grow(s, longer, u, Advance(0));
  }

  /** It then makes the first of its two stores. */
  lemma {:induction false} FirstStore(s: Shop, run: seq<Action>, t: Shop) returns (longer: seq<Action>, u: Shop)
    requires Shaped(s) && Legal(s, run) && t == After(s, run) && |t.workers| == 1 && t.workers[0].pc == LoadLow
    ensures Legal(s, longer) && u == After(s, longer) && Losses(s, longer) == Losses(s, run)
    ensures u.manager == t.manager && |u.workers| == 1
    ensures var k := t.workers[0];
            && u.shelves == t.shelves[k.lo := t.shelves[k.hi]]
            && u.workers[0] == k.(pc := StoreHigh, x := t.shelves[k.lo], y := t.shelves[k.hi])
  {
    longer, u := Grow(s, run, t, Advance(0));
    longer, u := Grow(s, longer, u, Advance(0));
    longer, u := Grow(s, longer, u, Advance(0));
  }

  /** The manager passes shelf 0; then the only worker swaps shelves 1 and 2. */
  lemma {:induction false} SwapBehindTheScan(s: Shop) returns (run: seq<Action>, t: Shop)
    requires Initial(s) && s == Opening(s.shelves) && |s.shelves| >= 3
    requires s.shelves[2] < s.shelves[0] <= s.shelves[1]
    ensures Legal(s, run) && t == After(s, run) && Losses(s, run) == 0
    ensures t.manager == ScanLeft(1) && t.shelves == Swap(s.shelves, 1, 2)
    ensures |t.workers| == 1 && t.workers[0].pc == DropLow
  {
    run, t := [], s;
    run, t := Grow(s, run, t, Wake);
    run, t := Grow(s, run, t, Scan);
    run, t := Grow(s, run, t, Scan);
    run, t := UpToComparison(s, run, t, 1, 2);
    run, t := FirstStore(s, run, t);
    run, t := Grow(s, run, t, Advance(0));
  }

  /** A scan overtaken by a swap can accept shelves that are out of order, with nothing in flight afterwards. */
  lemma {:induction false} OvertakenScan(s: Shop) returns (run: seq<Action>)
    requires Initial(s) && s == Opening(s.shelves) && |s.shelves| >= 3
    requires var a := s.shelves;
             && a[2] < a[0] <= a[1]
             && SortedUpTo(Swap(a, 1, 2)[1..], |a| - 2)
    ensures Legal(s, run) && Losses(s, run) == 0
    ensures After(s, run).manager == Accepted && NoSwapInFlight(After(s, run)) && !Sorted(After(s, run).shelves)
  {
    var t;
    run, t := SwapBehindTheScan(s);
    forall i | 1 <= i < |t.shelves| - 1
      ensures t.shelves[i] <= t.shelves[i + 1]
    {
      assert t.shelves[1..][i - 1] <= t.shelves[1..][i];
    }
    run, t := ScanGoesThrough(s, run, t);
    assert t.shelves[0] > t.shelves[1];
  }

  lemma {:induction false} OvertakenScanMisjudges() returns (s: Shop, run: seq<Action>)
    ensures s.shelves == [2, 3, 1] + [4, 5, 6, 7, 8] && Initial(s) && Legal(s, run) && Losses(s, run) == 0
    ensures After(s, run).manager == Accepted && NoSwapInFlight(After(s, run)) && !Sorted(After(s, run).shelves)
  {
    var a := [2, 3, 1] + [4, 5, 6, 7, 8];
    s := Opening(a);
    PermutedStock([2, 3, 1]);
    assert SortedUpTo(Swap(a, 1, 2)[1..], |a| - 2) by {
      assert Swap(a, 1, 2)[1..] == [1, 3, 4, 5, 6, 7, 8];
    }
    run := OvertakenScan(s);
  }

  /** The manager alone, from any scan position with the rest in order. */
  lemma {:induction false} QuietScan(t: Shop) returns (scan: seq<Action>, u: Shop)
    requires Shaped(t) && t.manager.ScanLeft?
    requires forall i :: t.manager.k <= i < |t.shelves| - 1 ==> t.shelves[i] <= t.shelves[i + 1]
    ensures Undisturbed(t, scan) && Legal(t, scan) && u == After(t, scan) == t.(manager := Accepted)
    decreases |t.shelves| - t.manager.k
  {
    var v := Apply(t, Scan);
    if v.manager == Accepted {
      scan, u := [Scan], v;
      assert scan[1..] == [];
    } else {
      var rest;
      rest, u := QuietScan(Apply(v, Scan));
      scan := [Scan] + ([Scan] + rest);
      assert scan[1..] == [Scan] + rest && ([Scan] + rest)[1..] == rest;
      assert Undisturbed(v, [Scan] + rest);
    }
  }

  /** Even a scan during which nothing at all is stored can accept, and be proved wrong by a swap that was half done. */
  lemma {:induction false} HalfDoneSwap(s: Shop) returns (before: seq<Action>, scan: seq<Action>, rest: seq<Action>)
    requires Initial(s) && s == Opening(s.shelves) && |s.shelves| >= 3
    requires var a := s.shelves;
             && a[1] < a[2] < a[0]
             && SortedUpTo(a[1..], |a| - 2)
    ensures Legal(s, before) && After(s, before).manager == ScanLeft(0)
    ensures Undisturbed(After(s, before), scan) && Legal(After(s, before), scan)
    ensures After(After(s, before), scan).manager == Accepted
    ensures Legal(After(After(s, before), scan), rest)
    ensures var t := After(After(After(s, before), scan), rest); NoSwapInFlight(t) && !Sorted(t.shelves)
  {
    var a, t := s.shelves, s;
    before := [];
    before, t := UpToComparison(s, before, t, 0, 1);
    before, t := FirstStore(s, before, t);
    before, t := Grow(s, before, t, Wake);
    forall i | 0 <= i < |a| - 1
      ensures t.shelves[i] <= t.shelves[i + 1]
    {
      assert i > 0 ==> a[1..][i - 1] <= a[1..][i];
    }
    var u, v;
    scan, u := QuietScan(t);
    rest, v := Grow(u, [], u, Advance(0));
    assert v.shelves[1] > v.shelves[2];
  }

  lemma {:induction false} HalfDoneSwapMisleads()
    returns (s: Shop, before: seq<Action>, scan: seq<Action>, rest: seq<Action>)
    ensures s.shelves == [3, 1, 2] + [4, 5, 6, 7, 8] && Initial(s)
    ensures Legal(s, before) && After(s, before).manager == ScanLeft(0)
    ensures Undisturbed(After(s, before), scan) && Legal(After(s, before), scan)
    ensures After(After(s, before), scan).manager == Accepted
    ensures Legal(After(After(s, before), scan), rest)
    ensures var t := After(After(After(s, before), scan), rest); NoSwapInFlight(t) && !Sorted(t.shelves)
  {
    var a := [3, 1, 2] + [4, 5, 6, 7, 8];
    s := Opening(a);
    PermutedStock([3, 1, 2]);
    assert SortedUpTo(a[1..], |a| - 2) by {
      assert a[1..] == [1, 2, 4, 5, 6, 7, 8];
    }
    before, scan, rest := HalfDoneSwap(s);
  }

  lemma {:induction false} PermutedStock(head: seq<int>)
    requires head == [2, 3, 1] || head == [3, 1, 2]
    ensures multiset(head + [4, 5, 6, 7, 8]) == multiset(Stock(8))
  {
    assert Stock(8) == [1, 2, 3] + [4, 5, 6, 7, 8];
    assert multiset(head) == multiset([1, 2, 3]);
  }
}
