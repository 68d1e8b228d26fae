/** The shop in shared memory: the arrays that the processes update in place, one atomic access at a time. */
module SharedShop {
  import opened Sequences
  import opened Shuffle
  import opened NightShift

  /** The manager's check on an array that nobody else is writing. */
  method IsSorted(items: array<int>) returns (sorted: bool)
    ensures sorted <==> Sorted(items[..])
  {
    var i := 0;
    while i < items.Length - 1
      invariant items.Length > 0 ==> 0 <= i < items.Length && SortedUpTo(items[..], i)
    {
      if items[i] > items[i + 1] {
        assert items[..][i] > items[..][i + 1];
        return false;
      }
      i := i + 1;
    }
    if items.Length > 0 {
      AdjacentMeansSorted(items[..], items.Length - 1);
      assert items[..][..items.Length] == items[..];
    }
    return true;
  }

  class Memory {
    const program: Program
    const shelves: array<int>
    const mutexes: array<Mutex>
    const workers: array<Worker>
    var run: bool
    var manager: Manager

    ghost function State(): Shop
      reads this, shelves, mutexes, workers
    {
      Shop(program, shelves[..], mutexes[..], workers[..], run, manager)
    }

    /** What `main` does before it forks: fill, shuffle, initialise the mutexes, raise the flag. */
    constructor (program: Program, n: nat, m: nat, draws: seq<nat>)
      requires 2 <= n && MutexOf(program, n - 1) < MAX_SHELVES && |draws| == n - 1
      ensures fresh(shelves) && fresh(mutexes) && fresh(workers)
      ensures this.program == program && workers.Length == m
      ensures shelves[..] == Exchanged(Stock(n), n - 1, Reduced(draws))
      ensures Initial(State())
    {
      var stock := new int[n];
      FillArray(stock);
      ShuffleInPlace(stock, draws);
      ExchangedIsAPermutation(Stock(n), n - 1, Reduced(draws));
      this.program := program;
      this.shelves := stock;
      this.mutexes := new Mutex[MAX_SHELVES](_ => Free);
      this.workers := new Worker[m](_ => Worker(Idle, 0, 0, 0, 0, 0, ROUNDS));
      this.run := true;
      this.manager := if program == CompareInside then Asleep else Off;
    }

    /** One step of a worker inside its round. */
    method Work(w: nat)
      requires Shaped(State()) && Enabled(State(), Advance(w))
      modifies shelves, mutexes, workers
      ensures State() == Apply(old(State()), Advance(w))
    {
      var k := workers[w];
      var inside := program == CompareInside;
      match k.pc {
        case WantLow =>
          mutexes[MutexOf(program, k.lo)] := Held(w);
          workers[w] := k.(pc := WantHigh);
        case WantHigh =>
          mutexes[MutexOf(program, k.hi)] := Held(w);
          workers[w] := k.(pc := if inside then ReadLow else LoadLow);
        case ReadLow =>
          workers[w] := k.(pc := ReadHigh, seen := shelves[k.lo]);
        case ReadHigh =>
          if k.seen > shelves[k.hi] {
            workers[w] := k.(pc := if inside then LoadLow else WantLow);
          } else {
            workers[w] := if inside then k.(pc := DropLow) else Rested(program, k);
          }
        case LoadLow =>
          workers[w] := k.(pc := LoadHigh, x := shelves[k.lo]);
        case LoadHigh =>
          workers[w] := k.(pc := StoreLow, y := shelves[k.hi]);
        case StoreLow =>
          shelves[k.lo] := k.y;
          workers[w] := k.(pc := StoreHigh);
        case StoreHigh =>
          shelves[k.hi] := k.x;
          workers[w] := k.(pc := DropLow);
        case DropLow =>
          mutexes[MutexOf(program, k.lo)] := Free;
          workers[w] := k.(pc := DropHigh);
        case DropHigh =>
          mutexes[MutexOf(program, k.hi)] := Free;
          workers[w] := Rested(program, k);
      }
    }

    /** The kernel's part of a death: every mutex of the dead worker is left to the next locker. */
    method Orphan(w: nat)
      modifies mutexes
      ensures mutexes[..] == Orphaned(old(mutexes[..]), w)
    {
      ghost var was := mutexes[..];
      for m := 0 to mutexes.Length
        invariant forall i :: 0 <= i < m ==> mutexes[i] == Orphaned(was, w)[i]
        invariant forall i :: m <= i < mutexes.Length ==> mutexes[i] == was[i]
      {
        if mutexes[m] == Held(w) {
          mutexes[m] := OwnerDied;
        }
      }
      assert mutexes[..] == Orphaned(was, w);
    }

    /** Any step of any process, carried out in place. */
    method Perform(a: Action)
      requires Shaped(State()) && Enabled(State(), a)
      modifies this, shelves, mutexes, workers
      ensures State() == Apply(old(State()), a)
    {
      match a {
        case Pick(w, i, j) =>
          var next := if program == CompareInside then WantLow else ReadLow;
          workers[w] := workers[w].(pc := next, lo := i, hi := j);
        case Leave(w) =>
          workers[w] := workers[w].(pc := Exited);
        case Advance(w) =>
          Work(w);
        case Die(w) =>
          Orphan(w);
          workers[w] := workers[w].(pc := Dead);
        case Wake =>
          manager := ScanLeft(0);
        case Scan =>
          manager := match manager
            case ScanLeft(k) => if k + 1 < shelves.Length then ScanRight(k, shelves[k]) else Accepted
            case ScanRight(k, left) => if left > shelves[k + 1] then Asleep else ScanLeft(k + 1);
        case Stop =>
          run := false;
          manager := Off;
      }
    }

    /** A whole night under a given schedule. Whatever the schedule, the array ends as the transition system says. */
    method Play(schedule: seq<Action>)
      requires Shaped(State()) && Legal(State(), schedule)
      modifies this, shelves, mutexes, workers
      ensures State() == After(old(State()), schedule)
    {
      ghost var start := State();
      for i := 0 to |schedule|
        invariant Shaped(State()) && Legal(State(), schedule[i..])
        invariant After(State(), schedule[i..]) == After(start, schedule)
      {
        Perform(schedule[i]);
        assert schedule[i..][1..] == schedule[i + 1..];
      }
    }
  }
}
