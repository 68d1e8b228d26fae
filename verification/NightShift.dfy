/**
 The night shift of the Bitronka shop as a transition system. Workers and the manager are processes over one
 shared array; every access to shared memory and every mutex operation is a step of its own, and any interleaving
 of the steps is a run. Both versions of the shop are covered: `CompareInside` compares under the two shelf mutexes
 and runs until the manager ends the shift, `CompareBefore` compares first, locks afterwards and works ten rounds.
 */
module NightShift {
  import opened Sequences

  const MAX_SHELVES := 256
  const ROUNDS := 10

  datatype Program = CompareInside | CompareBefore

  /** A robust mutex. `OwnerDied` is what the next locker finds, repairs and takes over. */
  datatype Mutex = Free | Held(owner: nat) | OwnerDied

  /** Where a worker stands: the name is the step it takes next. */
  datatype Pc =
    | Idle
    | WantLow | WantHigh
    | ReadLow | ReadHigh
    | LoadLow | LoadHigh
    | StoreLow | StoreHigh
    | DropLow | DropHigh
    | Exited | Dead

  /** A worker with its local variables; `x` and `y` are the temporaries of the swap, `seen` that of the comparison. */
  datatype Worker = Worker(pc: Pc, lo: nat, hi: nat, seen: int, x: int, y: int, rounds: nat)

  /** The manager sleeps, scans neighbours with two unlocked loads each, or is about to clear the run flag. */
  datatype Manager = Asleep | ScanLeft(k: nat) | ScanRight(k: nat, left: int) | Accepted | Off

  datatype Shop = Shop(program: Program, shelves: seq<int>, mutexes: seq<Mutex>,
                       workers: seq<Worker>, run: bool, manager: Manager)

  datatype Action =
    | Pick(w: nat, i: nat, j: nat)  // a worker draws two shelves, the smaller one first
    | Leave(w: nat)                 // a worker finds its loop condition false
    | Advance(w: nat)               // a worker takes the next step of its round
    | Die(w: nat)                   // a worker process is killed
    | Wake                          // the manager begins a scan
    | Scan                          // the manager takes the next step of its scan
    | Stop                          // the manager clears the run flag

  /** The mutex that guards shelf i: the second version numbers shelves from one. */
  function MutexOf(p: Program, i: nat): nat {
    if p == CompareInside then i else i + 1
  }

  predicate Active(pc: Pc) {
    pc != Idle && pc != Exited && pc != Dead
  }

  predicate HoldsLow(p: Program, pc: Pc) {
    || pc == WantHigh || pc == LoadLow || pc == LoadHigh || pc == StoreLow || pc == StoreHigh || pc == DropLow
    || (p == CompareInside && (pc == ReadLow || pc == ReadHigh))
  }

  predicate HoldsHigh(p: Program, pc: Pc) {
    || pc == LoadLow || pc == LoadHigh || pc == StoreLow || pc == StoreHigh || pc == DropLow || pc == DropHigh
    || (p == CompareInside && (pc == ReadLow || pc == ReadHigh))
  }

  /** Indices are in range: what makes every array access of the programs defined. */
  predicate Shaped(s: Shop) {
    && |s.mutexes| == MAX_SHELVES
    && 2 <= |s.shelves| && MutexOf(s.program, |s.shelves| - 1) < MAX_SHELVES
    && (forall w :: 0 <= w < |s.workers| && Active(s.workers[w].pc) ==>
          s.workers[w].lo < s.workers[w].hi < |s.shelves|)
    && (s.manager.ScanLeft? ==> s.manager.k < |s.shelves|)
    && (s.manager.ScanRight? ==> s.manager.k + 1 < |s.shelves|)
  }

  /** The state `main` hands to the processes: a shuffled stock, free mutexes, everybody about to start. */
  ghost predicate Initial(s: Shop) {
    && Shaped(s)
    && multiset(s.shelves) == multiset(Stock(|s.shelves|))
    && (forall m :: 0 <= m < MAX_SHELVES ==> s.mutexes[m] == Free)
    && (forall w :: 0 <= w < |s.workers| ==> s.workers[w].pc == Idle && s.workers[w].rounds == ROUNDS)
    && s.run
    && s.manager == if s.program == CompareInside then Asleep else Off
  }

  predicate Open(m: Mutex) {
    m == Free || m == OwnerDied
  }

  predicate Enabled(s: Shop, a: Action)
    requires Shaped(s)
  {
    match a
    case Pick(w, i, j) =>
      w < |s.workers| && s.workers[w].pc == Idle && i < j < |s.shelves|
      && (if s.program == CompareInside then s.run else s.workers[w].rounds > 0)
    case Leave(w) =>
      w < |s.workers| && s.workers[w].pc == Idle
      && (if s.program == CompareInside then !s.run else s.workers[w].rounds == 0)
    case Advance(w) =>
      w < |s.workers| && Active(s.workers[w].pc)
      && (s.workers[w].pc == WantLow ==> Open(s.mutexes[MutexOf(s.program, s.workers[w].lo)]))
      && (s.workers[w].pc == WantHigh ==> Open(s.mutexes[MutexOf(s.program, s.workers[w].hi)]))
    case Die(w) => w < |s.workers| && s.workers[w].pc != Exited && s.workers[w].pc != Dead
    case Wake => s.manager == Asleep
    case Scan => s.manager.ScanLeft? || s.manager.ScanRight?
    case Stop => s.manager == Accepted
  }

  /** A worker at the end of a round. */
  function Rested(p: Program, k: Worker): Worker {
    k.(pc := Idle, rounds := if p == CompareBefore && k.rounds > 0 then k.rounds - 1 else k.rounds)
  }

  /** The worker's own part of its next step. */
  function Moved(s: Shop, w: nat): (k: Worker)
    requires Shaped(s) && w < |s.workers| && Active(s.workers[w].pc)
  {
    var k := s.workers[w];
    var inside := s.program == CompareInside;
    match k.pc
    case WantLow => k.(pc := WantHigh)
    case WantHigh => k.(pc := if inside then ReadLow else LoadLow)
    case ReadLow => k.(pc := ReadHigh, seen := s.shelves[k.lo])
    case ReadHigh =>
      if k.seen > s.shelves[k.hi] then k.(pc := if inside then LoadLow else WantLow)
      else if inside then k.(pc := DropLow)
      else Rested(s.program, k)
    case LoadLow => k.(pc := LoadHigh, x := s.shelves[k.lo])
    case LoadHigh => k.(pc := StoreLow, y := s.shelves[k.hi])
    case StoreLow => k.(pc := StoreHigh)
    case StoreHigh => k.(pc := DropLow)
    case DropLow => k.(pc := DropHigh)
    case DropHigh => Rested(s.program, k)
  }

  /** The shelves after a worker's next step. */
  function Written(s: Shop, w: nat): (t: seq<int>)
    requires Shaped(s) && w < |s.workers| && Active(s.workers[w].pc)
    ensures |t| == |s.shelves|
  {
    var k := s.workers[w];
    if k.pc == StoreLow then s.shelves[k.lo := k.y]
    else if k.pc == StoreHigh then s.shelves[k.hi := k.x]
    else s.shelves
  }

  /** The mutexes after a worker's next step. */
  function Locked(s: Shop, w: nat): (t: seq<Mutex>)
    requires Shaped(s) && w < |s.workers| && Active(s.workers[w].pc)
    ensures |t| == |s.mutexes|
  {
    var k := s.workers[w];
    if k.pc == WantLow then s.mutexes[MutexOf(s.program, k.lo) := Held(w)]
    else if k.pc == WantHigh then s.mutexes[MutexOf(s.program, k.hi) := Held(w)]
    else if k.pc == DropLow then s.mutexes[MutexOf(s.program, k.lo) := Free]
    else if k.pc == DropHigh then s.mutexes[MutexOf(s.program, k.hi) := Free]
    else s.mutexes
  }

  /** The mutexes once the kernel has marked those of a dead worker. */
  function Orphaned(mutexes: seq<Mutex>, w: nat): (t: seq<Mutex>)
    ensures |t| == |mutexes|
  {
    seq(|mutexes|, m requires 0 <= m < |mutexes| => if mutexes[m] == Held(w) then OwnerDied else mutexes[m])
  }

  function Scanned(s: Shop): Manager
    requires Shaped(s) && (s.manager.ScanLeft? || s.manager.ScanRight?)
  {
    match s.manager
    case ScanLeft(k) => if k + 1 < |s.shelves| then ScanRight(k, s.shelves[k]) else Accepted
    case ScanRight(k, left) => if left > s.shelves[k + 1] then Asleep else ScanLeft(k + 1)
  }

  function Apply(s: Shop, a: Action): (t: Shop)
    requires Shaped(s) && Enabled(s, a)
    ensures Shaped(t) && t.program == s.program && |t.workers| == |s.workers| && |t.shelves| == |s.shelves|
  {
    match a
    case Pick(w, i, j) =>
      var next := if s.program == CompareInside then WantLow else ReadLow;
      s.(workers := s.workers[w := s.workers[w].(pc := next, lo := i, hi := j)])
    case Leave(w) => s.(workers := s.workers[w := s.workers[w].(pc := Exited)])
    case Advance(w) =>
      s.(shelves := Written(s, w), mutexes := Locked(s, w), workers := s.workers[w := Moved(s, w)])
    case Die(w) =>
      s.(mutexes := Orphaned(s.mutexes, w), workers := s.workers[w := s.workers[w].(pc := Dead)])
    case Wake => s.(manager := ScanLeft(0))
    case Scan => s.(manager := Scanned(s))
    case Stop => s.(manager := Off, run := false)
  }

  /** A run is a schedule all of whose steps are enabled when their turn comes. */
  predicate Legal(s: Shop, run: seq<Action>)
    requires Shaped(s)
    decreases |run|
  {
    run == [] || (Enabled(s, run[0]) && Legal(Apply(s, run[0]), run[1..]))
  }

  function After(s: Shop, run: seq<Action>): (t: Shop)
    requires Shaped(s) && Legal(s, run)
    ensures Shaped(t) && t.program == s.program && |t.workers| == |s.workers| && |t.shelves| == |s.shelves|
    decreases |run|
  {
    if run == [] then s else After(Apply(s, run[0]), run[1..])
  }
}
